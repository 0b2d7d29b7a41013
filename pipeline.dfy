/**
 * One run of `transaction_processing_pipeline`: the five task callables over a
 * fresh XCom store, run in dependency order, with the branch operator's pruning
 * applied after `determine_branch`. `PipelineRun` states the outcome directly in
 * terms of the transforms; `Run` performs it through the store and is proved to
 * agree with it.
 */
module Pipeline {
  import opened Wrappers
  import opened Sequences
  import opened Dataset
  import opened Transforms
  import opened Grouping
  import opened Branching
  import opened XCom
  import TaskGraph

  const CsvKey := "my_csv"
  const CleanCsvKey := "my_clean_csv"

  /** The `op_kwargs` location of the `filter_by_location` task. */
  const FilterLocation := "San Diego"

  /** The names the two branch tasks substitute into the output path template. */
  const FilterOutput := "filter_by_location"
  const GroupOutput := "grouped_by_account_type"

  datatype TaskError =
    | SourceUnavailable             // `pd.read_csv` could not read the input file
    | XComMissing(key: string)      // `xcom_pull` gave `None` and `pd.read_json` raised
    | BranchRaised(cause: BranchError)  // `determine_branch` raised
    | MissingColumns(columns: seq<string>)  // `agg` raised `KeyError`

  /** Airflow's terminal task states (with the default `all_success` trigger rule). */
  datatype TaskState = Succeeded | Failed(error: TaskError) | Skipped | UpstreamFailed

  /** The final state of every task, and the CSV files written, by output name. */
  datatype RunReport = RunReport(states: map<TaskGraph.TaskId, TaskState>, outputs: map<string, Table>)

  /** A task whose callable was invoked. */
  predicate Attempted(s: TaskState) {
    s.Succeeded? || s.Failed?
  }

  // ---- the task callables, over the store ----

  /** `read_csv_file`: reads the source (`None`: unreadable) and pushes it as `my_csv`. */
  method ReadCsvFileTask(store: XComStore, source: Option<Table>) returns (state: TaskState)
    modifies store
    ensures state == if source.Some? then Succeeded else Failed(SourceUnavailable)
    ensures store.entries == if source.Some? then old(store.entries)[CsvKey := source.value] else old(store.entries)
  {
    if source.None? {
      return Failed(SourceUnavailable);
    }
    store.Push(CsvKey, source.value);
    state := Succeeded;
  }

  /** `remove_null_values`: pulls `my_csv`, drops the rows with a null, pushes `my_clean_csv`. */
  method RemoveNullValuesTask(store: XComStore) returns (state: TaskState)
    modifies store
    ensures CsvKey in old(store.entries) ==>
              state == Succeeded &&
              store.entries == old(store.entries)[CleanCsvKey := RemoveNullRows(old(store.entries)[CsvKey])]
    ensures CsvKey !in old(store.entries) ==>
              state == Failed(XComMissing(CsvKey)) && store.entries == old(store.entries)
  {
    var raw := store.Pull(CsvKey);
    if raw.None? {
      return Failed(XComMissing(CsvKey));
    }
    store.Push(CleanCsvKey, RemoveNullRows(raw.value));
    state := Succeeded;
  }

  /** `determine_branch`: the task id the branch operator follows, if any. */
  method DetermineBranchTask(transformAction: Option<string>) returns (state: TaskState, follow: Option<TaskGraph.TaskId>)
    ensures state == if transformAction.None? then Failed(BranchRaised(VariableUnset)) else Succeeded
    ensures state == Succeeded ==> DetermineBranch(transformAction) == Success(follow)
    ensures state != Succeeded ==> follow == None
  {
    match DetermineBranch(transformAction)
    case Failure(e) =>
      state, follow := Failed(BranchRaised(e)), None;
    case Success(id) =>
      state, follow := Succeeded, id;
  }

  /** `filter_by_location`: pulls `my_clean_csv` and, when it has a `Location` column, writes the matching rows. */
  method FilterByLocationTask(store: XComStore, location: string) returns (state: TaskState, output: Option<Table>)
    ensures CleanCsvKey !in store.entries ==> state == Failed(XComMissing(CleanCsvKey)) && output == None
    ensures CleanCsvKey in store.entries ==>
              state == Succeeded && output == FilterByLocation(store.entries[CleanCsvKey], location)
  {
    var cleaned := store.Pull(CleanCsvKey);
    if cleaned.None? {
      return Failed(XComMissing(CleanCsvKey)), None;
    }
    state, output := Succeeded, FilterByLocation(cleaned.value, location);
  }

  /** `groupby_transaction_type`: pulls `my_clean_csv` and, when it has a `TransactionType` column, writes the groups. */
  method GroupbyTransactionTypeTask(store: XComStore) returns (state: TaskState, output: Option<Table>)
    ensures CleanCsvKey !in store.entries ==> state == Failed(XComMissing(CleanCsvKey)) && output == None
    ensures CleanCsvKey in store.entries ==>
              match GroupByTransactionType(store.entries[CleanCsvKey])
              case Success(out) => state == Succeeded && output == out
              case Failure(missing) => state == Failed(MissingColumns(missing)) && output == None
  {
    var cleaned := store.Pull(CleanCsvKey);
    if cleaned.None? {
      return Failed(XComMissing(CleanCsvKey)), None;
    }
    match GroupByTransactionType(cleaned.value)
    case Success(out) =>
      state, output := Succeeded, out;
    case Failure(missing) =>
      state, output := Failed(MissingColumns(missing)), None;
  }

  // ---- the run, stated directly ----

  /** The state and written file of the `filtering` task when it runs on `cleaned`. */
  function FilterOutcome(cleaned: Table): (TaskState, Option<Table>) {
    (Succeeded, FilterByLocation(cleaned, FilterLocation))
  }

  /** The state and written file of the `grouping` task when it runs on `cleaned`. */
  function GroupOutcome(cleaned: Table): (TaskState, Option<Table>) {
    match GroupByTransactionType(cleaned)
    case Success(out) => (Succeeded, out)
    case Failure(missing) => (Failed(MissingColumns(missing)), None)
  }

  /** The files written, keyed by output name. */
  function Outputs(filtered: Option<Table>, grouped: Option<Table>): map<string, Table> {
    (if filtered.Some? then map[FilterOutput := filtered.value] else map[]) +
    (if grouped.Some? then map[GroupOutput := grouped.value] else map[])
  }

  /**
   * The outcome of one run on `source` (`None`: the CSV cannot be read) with
   * the Variable `transform_action`. Two rules of Airflow decide it. Under the
   * default `all_success` trigger rule, a task whose upstream task failed ends
   * upstream-failed without running. Under the branch operator's pruning, a
   * task downstream of `determine_branch` is skipped unless its id is the one
   * returned.
   */
  function PipelineRun(source: Option<Table>, transformAction: Option<string>): (r: RunReport)
    ensures r.states.Keys == TaskGraph.Tasks
    ensures forall u, v :: (u, v) in TaskGraph.Edges && (r.states[u].Failed? || r.states[u] == UpstreamFailed) ==>
              r.states[v] == UpstreamFailed
    ensures forall v :: (TaskGraph.DetermineBranch, v) in TaskGraph.Edges ==>
              (r.states[v] == Skipped <==>
                 r.states[TaskGraph.DetermineBranch] == Succeeded && DetermineBranch(transformAction) != Success(Some(v)))
  {
    if source.None? then
      RunReport(map[TaskGraph.ReadCsvFile := Failed(SourceUnavailable),
                    TaskGraph.RemoveNullValues := UpstreamFailed,
                    TaskGraph.DetermineBranch := UpstreamFailed,
                    TaskGraph.FilterByLocation := UpstreamFailed,
                    TaskGraph.GroupbyTransactionType := UpstreamFailed], map[])
    else
      var cleaned := RemoveNullRows(source.value);
      match DetermineBranch(transformAction)
      case Failure(_) =>
        RunReport(map[TaskGraph.ReadCsvFile := Succeeded,
                      TaskGraph.RemoveNullValues := Succeeded,
                      TaskGraph.DetermineBranch := Failed(BranchRaised(VariableUnset)),
                      TaskGraph.FilterByLocation := UpstreamFailed,
                      TaskGraph.GroupbyTransactionType := UpstreamFailed], map[])
      case Success(follow) =>
        var filtering := if follow == Some(TaskGraph.FilterByLocation) then FilterOutcome(cleaned) else (Skipped, None);
        var grouping := if follow == Some(TaskGraph.GroupbyTransactionType) then GroupOutcome(cleaned) else (Skipped, None);
        RunReport(map[TaskGraph.ReadCsvFile := Succeeded,
                      TaskGraph.RemoveNullValues := Succeeded,
                      TaskGraph.DetermineBranch := Succeeded,
                      TaskGraph.FilterByLocation := filtering.0,
                      TaskGraph.GroupbyTransactionType := grouping.0],
                  Outputs(filtering.1, grouping.1))
  }

  // ---- the run, performed through the store ----

  /**
   * Runs the tasks in schedule order over a fresh store. What either branch
   * task pulls is the cleaned version of what `read_csv_file` pushed, so the
   * run has exactly the outcome `PipelineRun` states.
   */
  method Run(source: Option<Table>, transformAction: Option<string>) returns (report: RunReport)
    ensures report == PipelineRun(source, transformAction)
  {
    var store := new XComStore();
    var read := ReadCsvFileTask(store, source);
    if read != Succeeded {
      report := RunReport(map[TaskGraph.ReadCsvFile := read,
                              TaskGraph.RemoveNullValues := UpstreamFailed,
                              TaskGraph.DetermineBranch := UpstreamFailed,
                              TaskGraph.FilterByLocation := UpstreamFailed,
                              TaskGraph.GroupbyTransactionType := UpstreamFailed], map[]);
      return;
    }
    var clean := RemoveNullValuesTask(store);
    assert store.entries[CleanCsvKey] == RemoveNullRows(source.value);
    var branch, follow := DetermineBranchTask(transformAction);
    var states := map[TaskGraph.ReadCsvFile := read, TaskGraph.RemoveNullValues := clean,
                      TaskGraph.DetermineBranch := branch];
    if branch != Succeeded {
      report := RunReport(states[TaskGraph.FilterByLocation := UpstreamFailed]
                                [TaskGraph.GroupbyTransactionType := UpstreamFailed], map[]);
      return;
    }
    var filterState, filtered := Skipped, None;
    if follow == Some(TaskGraph.FilterByLocation) {
      filterState, filtered := FilterByLocationTask(store, FilterLocation);
    }
    var groupState, grouped := Skipped, None;
    if follow == Some(TaskGraph.GroupbyTransactionType) {
      groupState, grouped := GroupbyTransactionTypeTask(store);
    }
    report := RunReport(states[TaskGraph.FilterByLocation := filterState]
                              [TaskGraph.GroupbyTransactionType := groupState],
                        Outputs(filtered, grouped));
  }

  // ---- properties of a run ----

  /** Every task of the DAG ends in some state, and only the branch tasks write files. */
  lemma RunCoversTasks(source: Option<Table>, transformAction: Option<string>)
    ensures PipelineRun(source, transformAction).states.Keys == TaskGraph.Tasks
    ensures PipelineRun(source, transformAction).outputs.Keys <= {FilterOutput, GroupOutput}
  {
  }

  /** The branch operator lets at most one of its two downstream tasks run. */
  lemma AtMostOneBranchRuns(source: Option<Table>, transformAction: Option<string>)
    ensures var states := PipelineRun(source, transformAction).states;
            !(Attempted(states[TaskGraph.FilterByLocation]) && Attempted(states[TaskGraph.GroupbyTransactionType]))
    ensures |PipelineRun(source, transformAction).outputs| <= 1
  {
  }

  /** A task's callable is invoked only after every upstream task succeeded. */
  lemma RunRespectsDependencies(source: Option<Table>, transformAction: Option<string>)
    ensures forall u, v :: (u, v) in TaskGraph.Edges && Attempted(PipelineRun(source, transformAction).states[v]) ==>
              PipelineRun(source, transformAction).states[u] == Succeeded
  {
    var states := PipelineRun(source, transformAction).states;
    forall u, v | (u, v) in TaskGraph.Edges && Attempted(states[v]) ensures states[u] == Succeeded {
      assert u == TaskGraph.ReadCsvFile || u == TaskGraph.RemoveNullValues || u == TaskGraph.DetermineBranch;
    }
  }

  /** An unset `transform_action` fails the branch task; neither branch runs and nothing is written. */
  lemma UnsetVariableFailsBranch(t: Table)
    ensures var r := PipelineRun(Some(t), None);
            && r.states[TaskGraph.DetermineBranch] == Failed(BranchRaised(VariableUnset))
            && r.states[TaskGraph.FilterByLocation] == UpstreamFailed
            && r.states[TaskGraph.GroupbyTransactionType] == UpstreamFailed
            && r.outputs == map[]
  {
  }

  /**
   * A set variable that names neither branch task leaves the run "successful"
   * with both branches skipped and no file written; this happens for every
   * value except `filter_by_location` and `groupby_transaction_type`.
   */
  lemma UnmatchedActionSkipsBothBranches(t: Table, action: string)
    ensures var r := PipelineRun(Some(t), Some(action));
            (r.states[TaskGraph.FilterByLocation] == Skipped && r.states[TaskGraph.GroupbyTransactionType] == Skipped)
            <==> action != "filter_by_location" && action != GroupbyAction
    ensures action != "filter_by_location" && action != GroupbyAction ==>
              PipelineRun(Some(t), Some(action)).outputs == map[] &&
              PipelineRun(Some(t), Some(action)).states[TaskGraph.DetermineBranch] == Succeeded
  {
    var follow := DetermineBranch(Some(action)).value;
    FollowedBranchRuns(t, action);
    SelectsDownstreamTask(action);
    TaskGraph.BranchesIndependent();
    assert (TaskGraph.DetermineBranch, TaskGraph.FilterByLocation) in TaskGraph.Edges;
    assert (TaskGraph.DetermineBranch, TaskGraph.GroupbyTransactionType) in TaskGraph.Edges;
  }

  /** With the variable set, a branch task is skipped exactly when `determine_branch` did not return its id. */
  lemma FollowedBranchRuns(t: Table, action: string)
    ensures var r := PipelineRun(Some(t), Some(action));
            var follow := DetermineBranch(Some(action)).value;
            && r.states[TaskGraph.DetermineBranch] == Succeeded
            && (r.states[TaskGraph.FilterByLocation] == Skipped <==> follow != Some(TaskGraph.FilterByLocation))
            && (r.states[TaskGraph.GroupbyTransactionType] == Skipped <==> follow != Some(TaskGraph.GroupbyTransactionType))
            && (follow != Some(TaskGraph.FilterByLocation) && follow != Some(TaskGraph.GroupbyTransactionType) ==> r.outputs == map[])
  {
    var cleaned := RemoveNullRows(t);
    assert GroupOutcome(cleaned).0 != Skipped;
  }

  /** The rows the `filtering` branch writes: clean, located in San Diego. */
  function CleanAtLocation(columns: seq<string>, location: string): Row -> bool {
    Both(NoNulls(columns), AtLocation(location))
  }

  /** The value `filter_by_location` makes `determine_branch` follow the filtering task. */
  lemma FilterActionSelectsFiltering()
    ensures DetermineBranch(Some("filter_by_location")) == Success(Some(TaskGraph.FilterByLocation))
  {
    assert FilterPrefix <= "filter_by_location" by {
      assert "filter_by_location"[..|FilterPrefix|] == FilterPrefix;
    }
    assert FilteringIdPrefix + "filter_by_location" == TaskGraph.FilterByLocation;
  }

  /**
   * With `transform_action = filter_by_location`, only the filtering task runs.
   * It writes a file exactly when the input has a `Location` column, and that
   * file holds, in input order, every input row that has no null cell and is
   * located in San Diego, and no other row.
   */
  lemma FilterBranchOutput(t: Table)
    ensures var r := PipelineRun(Some(t), Some("filter_by_location"));
            && r.states[TaskGraph.FilterByLocation] == Succeeded
            && r.states[TaskGraph.GroupbyTransactionType] == Skipped
            && GroupOutput !in r.outputs
            && (FilterOutput in r.outputs <==> LocationColumn in t.columns)
    ensures LocationColumn in t.columns ==>
              var out := PipelineRun(Some(t), Some("filter_by_location")).outputs[FilterOutput];
              && out.columns == t.columns
              && out.rows == Select(t.rows, CleanAtLocation(t.columns, FilterLocation))
              && IsSubsequence(out.rows, t.rows)
              && forall row :: row in out.rows <==>
                   row in t.rows && Complete(t.columns, row) && CellOf(row, LocationColumn) == Some(Str(FilterLocation))
  {
    FilterActionSelectsFiltering();
    if LocationColumn in t.columns {
      SelectThenSelect(t.rows, NoNulls(t.columns), AtLocation(FilterLocation));
      SelectIsSubsequence(t.rows, CleanAtLocation(t.columns, FilterLocation));
      SelectMembers(t.rows, CleanAtLocation(t.columns, FilterLocation));
    }
  }

  /**
   * With `transform_action = groupby_transaction_type`, only the grouping task
   * runs. Without `TransactionType` it writes nothing; without `CustomerAge` or
   * `TransactionAmount` it fails; otherwise it writes one row per distinct type
   * among the clean rows, in ascending type order, with that type's amount sum
   * and mean age.
   */
  lemma GroupBranchOutput(t: Table)
    ensures var r := PipelineRun(Some(t), Some(GroupbyAction));
            && r.states[TaskGraph.FilterByLocation] == Skipped
            && FilterOutput !in r.outputs
            && (TypeColumn !in t.columns ==> r.states[TaskGraph.GroupbyTransactionType] == Succeeded && GroupOutput !in r.outputs)
            && (TypeColumn in t.columns && (AgeColumn !in t.columns || AmountColumn !in t.columns) ==>
                  r.states[TaskGraph.GroupbyTransactionType].Failed? && GroupOutput !in r.outputs)
    ensures TypeColumn in t.columns && AgeColumn in t.columns && AmountColumn in t.columns ==>
              var r := PipelineRun(Some(t), Some(GroupbyAction));
              var clean := RemoveNullRows(t).rows;
              && r.states[TaskGraph.GroupbyTransactionType] == Succeeded
              && GroupOutput in r.outputs
              && var out := r.outputs[GroupOutput].rows;
              && (forall i, j :: 0 <= i < j < |out| ==> out[i][TypeColumn] != out[j][TypeColumn])
              && (forall k :: k in GroupKeys(clean) <==> Some(k) in set row: Row | row in out :: row[TypeColumn])
              && (forall row: Row :: row in out ==> row[TypeColumn].Some? && row == GroupRow(clean, row[TypeColumn].value))
              && TypesAscending(out)
  {
    DetermineBranchCases(GroupbyAction);
    assert !(FilterPrefix <= GroupbyAction);
    var cleaned := RemoveNullRows(t);
    if TypeColumn in t.columns && AgeColumn in t.columns && AmountColumn in t.columns {
      GroupByTransactionTypeContents(cleaned);
    }
  }

  /** Three transactions: a clean San Diego one, a clean NYC one, a San Diego one without an amount. */
  const CleanSanDiego: Row := map[LocationColumn := Some(Str("San Diego")), AmountColumn := Some(Num(10.0))]
  const CleanNyc: Row := map[LocationColumn := Some(Str("NYC")), AmountColumn := Some(Num(5.0))]
  const BlankSanDiego: Row := map[LocationColumn := Some(Str("San Diego")), AmountColumn := None]
  const ExampleTable := Table([LocationColumn, AmountColumn], [CleanSanDiego, CleanNyc, BlankSanDiego])

  /** Only the clean San Diego row passes both cleaning and the location mask. */
  lemma ExampleRowsClassified()
    ensures CleanAtLocation(ExampleTable.columns, FilterLocation)(CleanSanDiego)
    ensures !CleanAtLocation(ExampleTable.columns, FilterLocation)(CleanNyc)
    ensures !CleanAtLocation(ExampleTable.columns, FilterLocation)(BlankSanDiego)
  {
    var columns := ExampleTable.columns;
    assert forall c :: c in columns ==> c == LocationColumn || c == AmountColumn;
    assert Complete(columns, CleanSanDiego) && AtLocation(FilterLocation)(CleanSanDiego);
    assert CellOf(CleanNyc, LocationColumn) == Some(Str("NYC"));
    assert "NYC" != FilterLocation by { assert "NYC"[0] != FilterLocation[0]; }
    assert AmountColumn in columns && CellOf(BlankSanDiego, AmountColumn).None?;
    assert !Complete(columns, BlankSanDiego);
  }

  /**
   * On the filter branch, the NYC row is masked out and the San Diego row
   * without an amount is dropped as unclean: one row is written.
   */
  lemma FilterBranchExample()
    ensures PipelineRun(Some(ExampleTable), Some("filter_by_location")).outputs ==
              map[FilterOutput := Table(ExampleTable.columns, [CleanSanDiego])]
  {
    FilterBranchOutput(ExampleTable);
    ExampleRowsClassified();
    var keep := CleanAtLocation(ExampleTable.columns, FilterLocation);
    var rows := ExampleTable.rows;
    assert Select(rows[2..], keep) == [] by {
      assert rows[2..][1..] == [];
    }
    assert Select(rows[1..], keep) == [] by {
      assert rows[1..][1..] == rows[2..];
    }
    assert Select(rows, keep) == [CleanSanDiego];
  }
}
