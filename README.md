# transaction_processing_pipeline, modelled in Dafny

The modelled system is an Apache Airflow DAG, `transaction_processing_pipeline`. It
reads a CSV of bank transactions and drops every row with a null cell. Then an
Airflow Variable, `transform_action`, picks one of two branch tasks. One branch
keeps the transactions located in San Diego. The other groups them by
`TransactionType`, with the mean `CustomerAge` and the total `TransactionAmount`.
Tasks hand datasets to each other through XCom, Airflow's per-run key/value store.

The model has these modules, one file each:

- `Wrappers` (`wrappers.dfy`): `Option` and `Result`.
- `Sequences` (`sequences.dfy`): `Select`, an order-preserving filter, and its
  laws. These are counts, membership, subsequence, idempotence and composition.
- `Dataset` (`dataset.dfy`): a dataframe as a `Table` of column names and
  rows. A row maps columns to cells, and a cell is null (`None`), a string or a
  number. A row that lacks one of the table's columns holds NaN there.
- `Ordering` (`ordering.dfy`): the order `groupby` sorts its keys in.
- `Transforms` (`transforms.dfy`): `remove_null_values` (`dropna`) and the
  location mask of `filter_by_location`.
- `Grouping` (`grouping.dfy`): `groupby_transaction_type`. A one-pass fold over
  the rows is proved equal, group by group, to a reference aggregate of that
  group's rows. The groups are then sorted by key, as pandas does by default.
- `Branching` (`branching.dfy`): `determine_branch`.
- `XCom` (`xcom.dfy`): a class whose map field `Push` updates and `Pull` reads.
- `TaskGraph` (`task_graph.dfy`):
  - the five task ids, qualified by their TaskGroup;
  - a `Dag` class whose methods perform the file's task declarations and `>>`
    chains;
  - proofs that the graph has no cycle, and of the order the tasks run in.
- `Pipeline` (`pipeline.dfy`):
  - the five task callables as methods over an `XComStore`;
  - `PipelineRun`, a direct statement of a whole run: each task's final state
    and the files written;
  - `Run`, which performs the run through the store and is proved equal to
    `PipelineRun`;
  - lemmas about what each value of `transform_action` produces.

The branch operator's pruning is an assumption of the model, taken from
Airflow's documented behaviour. After `determine_branch` returns an id, only the
downstream task with exactly that id runs, and the others are skipped. When no
downstream task matches, or the callable returns `None`, every downstream task
is skipped.

## Behaviour of the code worth knowing

- A value of `transform_action` that matches neither branch makes
  `determine_branch` return `None`, which raises no error. Both branch tasks are
  then skipped and the run succeeds. Any value starting with `filter` is turned
  into a `filtering.<value>` id even when no such task exists
  (`Branching.UnknownFilterAction`).
- An unset variable is not a distinct error value. `None.startswith` raises, so
  `determine_branch` fails (`Branching.BranchError.VariableUnset`).
- A missing `Location` or `TransactionType` column makes the task print a
  message and return. The task succeeds and writes no file, rather than failing.
- A missing `CustomerAge` or `TransactionAmount` column with `TransactionType`
  present makes `agg` raise `KeyError`, so the grouping task fails.
- The location is the fixed `op_kwargs` value `"San Diego"`. It is not derived
  from the variable.

## Model

| member | source | states |
|---|---|---|
| Transforms.RemoveNullRows | dags/etl_dag.py:34 | `dropna` keeps the columns and never adds rows |
| Transforms.RemoveNullRowsContents | dags/etl_dag.py:34 | a row survives iff it is an input row with a non-null value under every column of the table; the multiplicity of each survivor is unchanged and input order is kept |
| Transforms.RemoveNullRowsDropsMissing | dags/etl_dag.py:34 | a row lacking one of the table's columns is NaN there and is dropped |
| Transforms.RemoveNullRowsIdempotent | dags/etl_dag.py:34 | cleaning a cleaned table changes nothing |
| Transforms.RemoveNullRowsWellFormed | dags/etl_dag.py:34 | cleaning keeps a well-formed table well formed, and no cell of the result is null |
| Transforms.FilterByLocation | dags/etl_dag.py:56-60 | the early return (no table) happens iff there is no `Location` column; otherwise the columns are kept and no row is added |
| Transforms.FilterByLocationContents | dags/etl_dag.py:60 | with a `Location` column, a row is kept iff its `Location` cell is the string `location`; multiplicities and order are kept |
| Transforms.FilterByLocationIdempotent | dags/etl_dag.py:60 | filtering twice by the same location equals filtering once |
| Grouping.AggregateSnoc | dags/etl_dag.py:73-76 | absorbing one more row into a type's aggregate (`Absorb`) equals aggregating the type's rows with that row appended |
| Grouping.AddRowContents | dags/etl_dag.py:73-76 | `AddRow` gives the row's type a summary (opening one when the type is new), updates that summary by `Absorb`, and leaves every other summary as it was |
| Grouping.AddRowDistinct | dags/etl_dag.py:73-76 | `AddRow` keeps one summary per type |
| Grouping.AbsorbIntoGroup | dags/etl_dag.py:73-76 | absorbing a row into the running summary of its type gives the aggregate of that type's rows, the new row included |
| Grouping.SummarizeCorrect | dags/etl_dag.py:73-76 | `Summarize`, the one-pass grouping, has one summary per distinct non-null type, each equal to the sums and counts over exactly that type's rows |
| Ordering.StrBeforeTotal | dags/etl_dag.py:73 | the string order used to sort keys is total on distinct strings and asymmetric |
| Ordering.StrBeforeTransitive | dags/etl_dag.py:73 | the string order is transitive |
| Ordering.KeyBeforeTotal | dags/etl_dag.py:73 | the key order is total on distinct keys and asymmetric |
| Ordering.KeyBeforeTransitive | dags/etl_dag.py:73 | the key order is transitive, so with `KeyBeforeTotal` it is a strict total order |
| Grouping.InsertContents | dags/etl_dag.py:73 | inserting a summary adds it and loses nothing |
| Grouping.InsertSorted | dags/etl_dag.py:73 | inserting a summary with a new key keeps the list sorted by key, with distinct keys |
| Grouping.SortByKeyContents | dags/etl_dag.py:73 | sorting keeps exactly the same summaries, and puts their keys in strictly ascending order |
| Grouping.SortedGroupsCorrect | dags/etl_dag.py:73-76 | the sorted groups still hold one correct aggregate per distinct type, and ascend by type |
| Grouping.MeanAge | dags/etl_dag.py:74 | `mean` is NaN iff the type has no numeric age; otherwise it is a number which, times the number of ages, gives their total |
| Grouping.ToRow | dags/etl_dag.py:76 | `reset_index()` turns the group key back into the `TransactionType` column, beside the two aggregate columns |
| Grouping.ToRowsSorted | dags/etl_dag.py:73-76 | summaries sorted by key give output rows in ascending `TransactionType` order |
| Grouping.MissingAggregated | dags/etl_dag.py:73-76 | lists exactly the aggregated columns (`CustomerAge`, `TransactionAmount`) absent from the table |
| Grouping.GroupByTransactionType | dags/etl_dag.py:69-76 | no output (early return) iff `TransactionType` is absent; `KeyError` failure iff it is present but an aggregated column is not, naming only absent columns |
| Grouping.GroupByTransactionTypeContents | dags/etl_dag.py:73-76 | with all three columns: output columns are type, age, amount; one row per distinct non-null type and no other, in ascending type order (numbers before strings on a mixed column, as pandas sorts it); each row is that type's mean age and amount sum |
| Branching.DetermineBranch | dags/etl_dag.py:41-49 | fails iff the variable is unset; any id returned is either `filtering.` followed by a value starting with `filter`, or the grouping task id for exactly `groupby_transaction_type` |
| Branching.DetermineBranchCases | dags/etl_dag.py:46-49 | each of the three outcomes (filtering id, grouping id, `None`) occurs iff its condition on the value holds |
| Branching.SelectsDownstreamTask | dags/etl_dag.py:46-49 | the returned id names a task downstream of `determine_branch` iff the value is `filter_by_location` or `groupby_transaction_type` |
| Branching.FilteringIds | dags/etl_dag.py:47 | a `filtering.` id is never the grouping task, and is the filtering task iff the value is `filter_by_location` |
| Branching.UnknownFilterAction | dags/etl_dag.py:46-47 | `filter_by_amount` yields `filtering.filter_by_amount`, which is not a task of the DAG |
| XCom.XComStore.Push | dags/etl_dag.py:27 | the key now maps to the pushed table; every other key is unchanged |
| XCom.XComStore.Pull | dags/etl_dag.py:31 | returns the table last pushed under the key, or `None` when nothing was |
| TaskGraph.EdgeRaisesRank | dags/etl_dag.py:123 | every declared edge goes from a lower to a higher position in the schedule |
| TaskGraph.PathRaisesRank | dags/etl_dag.py:123 | along any path of declared edges the schedule position strictly increases |
| TaskGraph.Acyclic | dags/etl_dag.py:123 | no task precedes itself: the DAG has no cycle |
| TaskGraph.ScheduleIsTopological | dags/etl_dag.py:123 | the schedule lists each task once, and every task runs after all its upstream tasks |
| TaskGraph.ChainOrder | dags/etl_dag.py:101-123 | read precedes clean, clean precedes branch, and branch precedes both branch tasks (transitively too) |
| TaskGraph.BranchesIndependent | dags/etl_dag.py:123 | neither branch task precedes the other; the successors of `determine_branch` are exactly the two branch tasks |
| TaskGraph.Qualify | dags/etl_dag.py:90-120 | a task outside any TaskGroup keeps its name; inside one, its id is one character longer than the group and the name together |
| TaskGraph.QualifyParts | dags/etl_dag.py:90-120 | a grouped id splits back into the group name, a dot and the task name |
| TaskGraph.QualifyInjective | dags/etl_dag.py:90-120 | within one group, distinct task names give distinct ids |
| TaskGraph.PreprocessingIds | dags/etl_dag.py:90-99 | the ids of the two tasks in `reading_and_preprocessing` are prefixed with the group name |
| TaskGraph.FilteringTaskId | dags/etl_dag.py:108-113 | the id of the filtering task is `filtering.filter_by_location` |
| TaskGraph.GroupingTaskId | dags/etl_dag.py:116-120 | the id of the grouping task is `grouping.groupby_transaction_type` |
| TaskGraph.Product | dags/etl_dag.py:123 | `ups >> downs` links each upstream task to each downstream task, and nothing else |
| TaskGraph.GroupLeaves | dags/etl_dag.py:123 | what `group >>` starts from: only tasks of the group |
| TaskGraph.GroupRoots | dags/etl_dag.py:123 | what `>> group` points to: only tasks of the group |
| TaskGraph.InnerEdgeHidesEnds | dags/etl_dag.py:101 | an edge inside a group removes its source from the group's leaves and its target from the group's roots |
| TaskGraph.FlatGroupEnds | dags/etl_dag.py:108-120 | in a group with no inner edge, every task of the group is both a leaf and a root |
| TaskGraph.DeclaredGroupEnds | dags/etl_dag.py:123 | the `>>` on TaskGroups links the group's last task (`remove_null_values`) and each branch group's first task, giving exactly the declared edges |
| TaskGraph.Dag.AddTask | dags/etl_dag.py:91-94 | a task gets its group-qualified id and is added when the id is new; `added` is false, with the DAG unchanged, where Airflow raises `DuplicateTaskIdFound`; edges are unchanged |
| TaskGraph.Dag.SetDownstream | dags/etl_dag.py:101 | adds every upstream-to-downstream edge and nothing else |
| TaskGraph.DeclareDag | dags/etl_dag.py:81-123 | the declarations in file order yield exactly the five tasks with their groups and the four edges; none of them reuses an id |
| Pipeline.ReadCsvFileTask | dags/etl_dag.py:22-27 | on a readable source, pushes it under `my_csv` and succeeds; otherwise fails and the store is unchanged |
| Pipeline.RemoveNullValuesTask | dags/etl_dag.py:30-38 | pushes the cleaned `my_csv` under `my_clean_csv`; fails and changes nothing when `my_csv` is absent |
| Pipeline.DetermineBranchTask | dags/etl_dag.py:41-49 | fails iff the variable is unset; on success, the id it follows is `determine_branch`'s result |
| Pipeline.FilterByLocationTask | dags/etl_dag.py:52-62 | fails without `my_clean_csv`; otherwise succeeds, and its file is the location filter of the cleaned table |
| Pipeline.GroupbyTransactionTypeTask | dags/etl_dag.py:65-78 | fails without `my_clean_csv` or on a `KeyError`; otherwise succeeds with the grouping's output |
| Pipeline.PipelineRun | dags/etl_dag.py:81-123 | encodes two Airflow rules taken as assumptions. Under `all_success`, a task downstream of a failed or upstream-failed task ends upstream-failed. Under branch pruning, a successor of `determine_branch` is skipped iff the branch task succeeded and returned another id. Every task of the DAG gets a state |
| Pipeline.Run | dags/etl_dag.py:81-123 | running the tasks in order over one store gives exactly the states and files `PipelineRun` states |
| Pipeline.RunCoversTasks | dags/etl_dag.py:90-123 | every task of the DAG ends in a state, and only the two branch files can be written |
| Pipeline.AtMostOneBranchRuns | dags/etl_dag.py:123 | the two branch tasks never both run, and at most one file is written |
| Pipeline.RunRespectsDependencies | dags/etl_dag.py:123 | a task runs only when every upstream task succeeded |
| Pipeline.UnsetVariableFailsBranch | dags/etl_dag.py:42-46 | an unset variable fails `determine_branch`; both branches end upstream-failed and nothing is written |
| Pipeline.UnmatchedActionSkipsBothBranches | dags/etl_dag.py:46-49 | both branches are skipped iff the value is neither `filter_by_location` nor `groupby_transaction_type`; then the branch task succeeds and nothing is written |
| Pipeline.FollowedBranchRuns | dags/etl_dag.py:103-106 | with the variable set, a branch task is skipped iff its id is not the one returned |
| Pipeline.FilterActionSelectsFiltering | dags/etl_dag.py:46-47 | the value `filter_by_location` makes `determine_branch` return the filtering task id |
| Pipeline.FilterBranchOutput | dags/etl_dag.py:52-62 | under `filter_by_location`: grouping is skipped; a file is written iff `Location` exists; it holds, in order, exactly the null-free input rows located in San Diego |
| Pipeline.GroupBranchOutput | dags/etl_dag.py:65-78 | under `groupby_transaction_type`: filtering is skipped; no type column gives no file; a missing aggregated column fails the task; otherwise one row per type among the clean rows, in ascending type order, with that type's aggregates |
| Pipeline.ExampleRowsClassified | dags/etl_dag.py:60 | of three sample rows, only the null-free San Diego one passes cleaning and the mask |
| Pipeline.FilterBranchExample | dags/etl_dag.py:109-113 | on the sample table, the filtering branch writes only the null-free San Diego row |

## Left out

- Reading the CSV from disk and writing the output CSVs: the source table is a parameter (`None` when unreadable). A written file is the table recorded under its output name.
- The `to_json` / `read_json` round trip through XCom: the store holds tables directly. Type coercion by `read_json` is not modelled.
- `Variable.get` is a parameter of the run. The Airflow metadata database behind it is not modelled.
- Floating point: cell values are exact reals. The rounding of `mean` and `sum` is not modelled.
- Grouping.GroupByTransactionType: a non-numeric `CustomerAge` or `TransactionAmount` cell is skipped. pandas would raise, or concatenate strings in the sum.
- The `print` calls, the edge `Label`s and the DAG metadata (owner, schedule, start date, tags) have no effect on the data, so they are left out.
- Branch pruning is an assumption, not derived from Airflow's scheduler. Newer Airflow versions also reject a returned id that names no task. The model treats such an id like `None`: every branch is skipped.
- Retries, concurrent runs, trigger rules other than the default `all_success`, and the scheduler's timing are not modelled.
