/**
 * The DAG `transaction_processing_pipeline`: its five tasks (ids qualified by
 * their TaskGroup, as Airflow does), the dependency edges the `>>` chains
 * declare, and the facts the scheduler relies on — no cycle, and the order in
 * which the tasks must run.
 */
module TaskGraph {

  type TaskId = string
  type Edge = (TaskId, TaskId)

  const PreprocessingGroup := "reading_and_preprocessing"
  const FilteringGroup := "filtering"
  const GroupingGroup := "grouping"
  /** The group of a task declared outside any TaskGroup. */
  const NoGroup := ""

  /** The id Airflow gives a task declared inside a TaskGroup: `group.name`. */
  function Qualify(group: string, name: string): (id: TaskId)
    ensures group == NoGroup ==> id == name
    ensures group != NoGroup ==> |id| == |group| + 1 + |name|
  {
    if group == NoGroup then name else group + "." + name
  }

  /** A grouped id splits back into the group, a dot, and the task name. */
  lemma QualifyParts(group: string, name: string)
    requires group != NoGroup
    ensures var id := Qualify(group, name);
            id[..|group|] == group && id[|group|] == '.' && id[|group| + 1..] == name
  {
    var id := Qualify(group, name);
    assert id == group + ("." + name);
  }

  const ReadCsvFile: TaskId := "reading_and_preprocessing.read_csv_file"
  const RemoveNullValues: TaskId := "reading_and_preprocessing.remove_null_values"
  const DetermineBranch: TaskId := "determine_branch"
  const FilterByLocation: TaskId := "filtering.filter_by_location"
  const GroupbyTransactionType: TaskId := "grouping.groupby_transaction_type"

  const Tasks: set<TaskId> := {ReadCsvFile, RemoveNullValues, DetermineBranch, FilterByLocation, GroupbyTransactionType}

  /** The edges of `read_csv_file >> remove_null_values` and of the chain at the end of the file. */
  const Edges: set<Edge> := {
    (ReadCsvFile, RemoveNullValues),
    (RemoveNullValues, DetermineBranch),
    (DetermineBranch, FilterByLocation),
    (DetermineBranch, GroupbyTransactionType)
  }

  /** The tasks in an order the scheduler may run them. */
  const Schedule: seq<TaskId> := [ReadCsvFile, RemoveNullValues, DetermineBranch, FilterByLocation, GroupbyTransactionType]

  /** The position of a task in `Schedule` (tasks outside the DAG come last). */
  function Rank(t: TaskId): nat {
    if t == ReadCsvFile then 0
    else if t == RemoveNullValues then 1
    else if t == DetermineBranch then 2
    else if t == FilterByLocation then 3
    else if t == GroupbyTransactionType then 4
    else 5
  }

  /** `p` follows declared edges from its first task to its last. */
  ghost predicate IsPath(p: seq<TaskId>) {
    |p| >= 1 && StepsIn(Edges, p)
  }

  /** Each consecutive pair of `p` is an edge of `edges`. */
  ghost predicate StepsIn(edges: set<Edge>, p: seq<TaskId>) {
    forall i :: 0 <= i < |p| - 1 ==> (p[i], p[i + 1]) in edges
  }

  /** Two walks that meet at a task join into one walk. */
  lemma StepsCompose(edges: set<Edge>, p: seq<TaskId>, q: seq<TaskId>)
    requires |p| >= 1 && |q| >= 1 && p[|p| - 1] == q[0]
    requires StepsIn(edges, p) && StepsIn(edges, q)
    ensures StepsIn(edges, p + q[1..])
  {
    var r := p + q[1..];
    forall i | 0 <= i < |r| - 1 ensures (r[i], r[i + 1]) in edges {
      if i < |p| - 1 {
        assert r[i] == p[i] && r[i + 1] == p[i + 1];
      } else {
        assert r[i] == q[i - |p| + 1] && r[i + 1] == q[i - |p| + 2];
      }
    }
  }

  /** `u` must complete before `v` can start: a path of one or more edges leads from `u` to `v`. */
  ghost predicate Precedes(u: TaskId, v: TaskId) {
    exists p :: IsPath(p) && |p| >= 2 && p[0] == u && p[|p| - 1] == v
  }

  lemma EdgeRaisesRank(u: TaskId, v: TaskId)
    requires (u, v) in Edges
    ensures Rank(u) < Rank(v)
  {
  }

  /** Along any path of at least one edge the rank strictly grows. */
  lemma {:induction false} PathRaisesRank(p: seq<TaskId>)
    requires IsPath(p) && |p| >= 2
    ensures Rank(p[0]) < Rank(p[|p| - 1])
  {
    EdgeRaisesRank(p[0], p[1]);
    if |p| > 2 {
      PathRaisesRank(p[1..]);
    }
  }

  /** The dependency graph is acyclic: no task precedes itself. */
  lemma Acyclic(t: TaskId)
    ensures !Precedes(t, t)
  {
    if Precedes(t, t) {
      var p :| IsPath(p) && |p| >= 2 && p[0] == t && p[|p| - 1] == t;
      PathRaisesRank(p);
    }
  }

  /** `Schedule` lists each task once and puts every task after all of its upstream tasks. */
  lemma ScheduleIsTopological()
    ensures |Schedule| == |Tasks| && forall t :: t in Schedule <==> t in Tasks
    ensures forall i, j :: 0 <= i < j < |Schedule| ==> Schedule[i] != Schedule[j]
    ensures forall e :: e in Edges ==> e.0 in Tasks && e.1 in Tasks && Rank(e.0) < Rank(e.1)
    ensures forall i :: 0 <= i < |Schedule| ==> Rank(Schedule[i]) == i
  {
  }

  /** A declared edge is a one-step path. */
  lemma EdgePrecedes(u: TaskId, v: TaskId)
    requires (u, v) in Edges
    ensures Precedes(u, v)
  {
    assert IsPath([u, v]);
  }

  /** Paths compose: the scheduler's ordering is transitive. */
  lemma PrecedesTransitive(u: TaskId, v: TaskId, w: TaskId)
    requires Precedes(u, v) && Precedes(v, w)
    ensures Precedes(u, w)
  {
    var p :| IsPath(p) && |p| >= 2 && p[0] == u && p[|p| - 1] == v;
    var q :| IsPath(q) && |q| >= 2 && q[0] == v && q[|q| - 1] == w;
    var r := p + q[1..];
    StepsCompose(Edges, p, q);
    assert IsPath(r) && r[0] == u && r[|r| - 1] == w;
  }

  /** The ordering chain of the DAG: read, then clean, then branch, then either branch task. */
  lemma ChainOrder()
    ensures Precedes(ReadCsvFile, RemoveNullValues)
    ensures Precedes(RemoveNullValues, DetermineBranch)
    ensures Precedes(DetermineBranch, FilterByLocation)
    ensures Precedes(DetermineBranch, GroupbyTransactionType)
    ensures Precedes(ReadCsvFile, DetermineBranch)
    ensures Precedes(ReadCsvFile, FilterByLocation) && Precedes(ReadCsvFile, GroupbyTransactionType)
  {
    EdgePrecedes(ReadCsvFile, RemoveNullValues);
    EdgePrecedes(RemoveNullValues, DetermineBranch);
    EdgePrecedes(DetermineBranch, FilterByLocation);
    EdgePrecedes(DetermineBranch, GroupbyTransactionType);
    PrecedesTransitive(ReadCsvFile, RemoveNullValues, DetermineBranch);
    PrecedesTransitive(ReadCsvFile, DetermineBranch, FilterByLocation);
    PrecedesTransitive(ReadCsvFile, DetermineBranch, GroupbyTransactionType);
  }

  /** The two branch tasks have no downstream task, so neither waits for the other. */
  lemma BranchesIndependent()
    ensures !Precedes(FilterByLocation, GroupbyTransactionType)
    ensures !Precedes(GroupbyTransactionType, FilterByLocation)
    ensures forall t :: (DetermineBranch, t) in Edges <==> t == FilterByLocation || t == GroupbyTransactionType
  {
    forall p | IsPath(p) && |p| >= 2
      ensures p[0] != FilterByLocation && p[0] != GroupbyTransactionType
    {
      assert (p[0], p[1]) in Edges;
    }
  }

  /** The ids Airflow gives the two tasks of the `reading_and_preprocessing` group. */
  lemma PreprocessingIds()
    ensures Qualify(PreprocessingGroup, "read_csv_file") == ReadCsvFile
    ensures Qualify(PreprocessingGroup, "remove_null_values") == RemoveNullValues
  {
  }

  /** The id Airflow gives the task of the `filtering` group. */
  lemma FilteringTaskId()
    ensures Qualify(FilteringGroup, "filter_by_location") == FilterByLocation
  {
  }

  /** The id Airflow gives the task of the `grouping` group. */
  lemma GroupingTaskId()
    ensures Qualify(GroupingGroup, "groupby_transaction_type") == GroupbyTransactionType
  {
  }

  /** Within one group, distinct names give distinct ids. */
  lemma QualifyInjective(group: string, a: string, b: string)
    ensures Qualify(group, a) == Qualify(group, b) ==> a == b
  {
    if group != NoGroup {
      QualifyParts(group, a);
      QualifyParts(group, b);
    }
  }

  /** Every pair of `ups` × `downs` as an edge. */
  function Product(ups: set<TaskId>, downs: set<TaskId>): (r: set<Edge>)
    ensures forall u, d :: (u, d) in r <==> u in ups && d in downs
  {
    set u, d | u in ups && d in downs :: (u, d)
  }

  /** The tasks of `group` with no downstream task inside the group (what `group >>` starts from). */
  function GroupLeaves(groupOf: map<TaskId, string>, edges: set<Edge>, group: string): (r: set<TaskId>)
    ensures forall t :: t in r ==> t in groupOf && groupOf[t] == group
  {
    set t | t in groupOf && groupOf[t] == group &&
            forall u :: u in groupOf && groupOf[u] == group ==> (t, u) !in edges
  }

  /** The tasks of `group` with no upstream task inside the group (what `>> group` points to). */
  function GroupRoots(groupOf: map<TaskId, string>, edges: set<Edge>, group: string): (r: set<TaskId>)
    ensures forall t :: t in r ==> t in groupOf && groupOf[t] == group
  {
    set t | t in groupOf && groupOf[t] == group &&
            forall u :: u in groupOf && groupOf[u] == group ==> (u, t) !in edges
  }

  /** An edge inside a group hides its source from the leaves and its target from the roots. */
  lemma InnerEdgeHidesEnds(groupOf: map<TaskId, string>, edges: set<Edge>, group: string, u: TaskId, v: TaskId)
    requires (u, v) in edges && u in groupOf && v in groupOf && groupOf[u] == group && groupOf[v] == group
    ensures u !in GroupLeaves(groupOf, edges, group)
    ensures v !in GroupRoots(groupOf, edges, group)
  {
  }

  /** A group with no edge inside it: each of its tasks is both a leaf and a root. */
  lemma FlatGroupEnds(groupOf: map<TaskId, string>, edges: set<Edge>, group: string)
    requires forall u, v :: (u, v) in edges && u in groupOf && v in groupOf ==> groupOf[u] != group || groupOf[v] != group
    ensures forall t :: t in GroupLeaves(groupOf, edges, group) <==> t in groupOf && groupOf[t] == group
    ensures forall t :: t in GroupRoots(groupOf, edges, group) <==> t in groupOf && groupOf[t] == group
  {
  }

  /** Each task of the file with its TaskGroup. */
  const Groups: map<TaskId, string> := map[
    ReadCsvFile := PreprocessingGroup, RemoveNullValues := PreprocessingGroup,
    DetermineBranch := NoGroup,
    FilterByLocation := FilteringGroup,
    GroupbyTransactionType := GroupingGroup]

  /** The edge declared inside `reading_and_preprocessing`. */
  const GroupEdges: set<Edge> := {(ReadCsvFile, RemoveNullValues)}

  /** The edges after `reading_and_preprocessing >> determine_branch`. */
  const EdgesBeforeBranches: set<Edge> := GroupEdges + {(RemoveNullValues, DetermineBranch)}

  /** What the final chain's `>>` operators resolve the three TaskGroups to, and the edges they add. */
  lemma DeclaredGroupEnds()
    ensures GroupLeaves(Groups, GroupEdges, PreprocessingGroup) == {RemoveNullValues}
    ensures GroupEdges + Product({RemoveNullValues}, {DetermineBranch}) == EdgesBeforeBranches
    ensures GroupRoots(Groups, EdgesBeforeBranches, FilteringGroup) == {FilterByLocation}
    ensures GroupRoots(Groups, EdgesBeforeBranches, GroupingGroup) == {GroupbyTransactionType}
    ensures EdgesBeforeBranches + Product({DetermineBranch}, {FilterByLocation} + {GroupbyTransactionType}) == Edges
  {
    assert ReadCsvFile !in GroupLeaves(Groups, GroupEdges, PreprocessingGroup);
  }

  /** The DAG under construction: each task's group, and the edges declared so far. */
  class Dag {
    var groupOf: map<TaskId, string>
    var edges: set<Edge>

    constructor ()
      ensures groupOf == map[] && edges == {}
    {
      groupOf := map[];
      edges := {};
    }

    /**
     * Declares task `name` inside `group`. For an id already in use Airflow
     * raises `DuplicateTaskIdFound`: `added` is then false and the DAG unchanged.
     */
    method AddTask(group: string, name: string) returns (id: TaskId, added: bool)
      modifies this
      ensures id == Qualify(group, name)
      ensures added == (id !in old(groupOf))
      ensures groupOf == if added then old(groupOf)[id := group] else old(groupOf)
      ensures edges == old(edges)
    {
      id := Qualify(group, name);
      added := id !in groupOf;
      if added {
        groupOf := groupOf[id := group];
      }
    }

    /** The tasks of `group` with no downstream task inside the group (what `group >>` starts from). */
    function Leaves(group: string): set<TaskId>
      reads this
    {
      GroupLeaves(groupOf, edges, group)
    }

    /** The tasks of `group` with no upstream task inside the group (what `>> group` points to). */
    function Roots(group: string): set<TaskId>
      reads this
    {
      GroupRoots(groupOf, edges, group)
    }

    /** `ups >> downs`: every task of `ups` becomes upstream of every task of `downs`. */
    method SetDownstream(ups: set<TaskId>, downs: set<TaskId>)
      modifies this
      ensures edges == old(edges) + Product(ups, downs)
      ensures groupOf == old(groupOf)
    {
      edges := edges + Product(ups, downs);
    }
  }

  /** Runs the DAG file's declarations in order and yields exactly `Groups` and `Edges`. */
  method DeclareDag() returns (dag: Dag)
    ensures fresh(dag)
    ensures dag.groupOf == Groups
    ensures dag.edges == Edges
  {
    PreprocessingIds();
    FilteringTaskId();
    GroupingTaskId();
    DeclaredGroupEnds();
    dag := new Dag();
    var read, added1 := dag.AddTask(PreprocessingGroup, "read_csv_file");
    var clean, added2 := dag.AddTask(PreprocessingGroup, "remove_null_values");
    dag.SetDownstream({read}, {clean});
    assert dag.edges == GroupEdges;
    var branch, added3 := dag.AddTask(NoGroup, "determine_branch");
    var filter, added4 := dag.AddTask(FilteringGroup, "filter_by_location");
    var groupby, added5 := dag.AddTask(GroupingGroup, "groupby_transaction_type");
    // no declaration of the file raises `DuplicateTaskIdFound`
    assert added1 && added2 && added3 && added4 && added5;
    assert dag.groupOf == Groups;
    dag.SetDownstream(dag.Leaves(PreprocessingGroup), {branch});
    dag.SetDownstream({branch}, dag.Roots(FilteringGroup) + dag.Roots(GroupingGroup));
  }
}
