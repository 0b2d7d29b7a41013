/**
 * `determine_branch`: maps the Airflow Variable `transform_action` to the id of
 * the task the BranchPythonOperator should follow. A value starting with
 * `filter` is tried first and is forwarded unchecked into a task id; the one
 * grouping action is matched exactly; anything else yields Python's `None`.
 */
module Branching {
  import opened Wrappers
  import TaskGraph
  type TaskId = TaskGraph.TaskId

  const FilterPrefix := "filter"
  const FilteringIdPrefix := "filtering."
  const GroupbyAction := "groupby_transaction_type"

  /** `Variable.get(..., default_var=None)` gave `None`, and `None.startswith` raised. */
  datatype BranchError = VariableUnset

  function DetermineBranch(transformAction: Option<string>): (r: Result<Option<TaskId>, BranchError>)
    ensures r.Failure? <==> transformAction.None?
    ensures r.Success? && r.value.Some? ==>
              || (&& FilterPrefix <= transformAction.value
                  && |r.value.value| == |FilteringIdPrefix| + |transformAction.value|
                  && r.value.value[..|FilteringIdPrefix|] == FilteringIdPrefix
                  && r.value.value[|FilteringIdPrefix|..] == transformAction.value)
              || (transformAction.value == GroupbyAction && r.value.value == TaskGraph.GroupbyTransactionType)
  {
    match transformAction
    case None => Failure(VariableUnset)
    case Some(action) =>
      if FilterPrefix <= action then Success(Some(FilteringIdPrefix + action))
      else if action == GroupbyAction then Success(Some(TaskGraph.GroupbyTransactionType))
      else Success(None)
  }

  /** The three outcomes for a set variable, each with the exact condition that yields it. */
  lemma DetermineBranchCases(action: string)
    ensures DetermineBranch(Some(action)) == Success(Some(FilteringIdPrefix + action)) <==> FilterPrefix <= action
    ensures DetermineBranch(Some(action)) == Success(Some(TaskGraph.GroupbyTransactionType)) <==> action == GroupbyAction
    ensures DetermineBranch(Some(action)) == Success(None) <==> !(FilterPrefix <= action) && action != GroupbyAction
  {
    if FilterPrefix <= action {
      assert (FilteringIdPrefix + action)[0] == 'f' && TaskGraph.GroupbyTransactionType[0] == 'g';
    } else {
      assert FilteringIdPrefix + action != TaskGraph.GroupbyTransactionType by {
        assert TaskGraph.GroupbyTransactionType[0] == 'g';
      }
    }
  }

  /**
   * Only two values of the variable name a task that follows `determine_branch`:
   * every other `filter...` value yields the id of a task the DAG does not have.
   */
  lemma SelectsDownstreamTask(action: string)
    ensures (DetermineBranch(Some(action)).Success? &&
             DetermineBranch(Some(action)).value.Some? &&
             (TaskGraph.DetermineBranch, DetermineBranch(Some(action)).value.value) in TaskGraph.Edges)
            <==> action == "filter_by_location" || action == GroupbyAction
  {
    TaskGraph.BranchesIndependent();
    DetermineBranchCases(action);
    if FilterPrefix <= action {
      FilteringIds(action);
    }
  }

  /** A `filtering.` id names one of the DAG's branch tasks only for `filter_by_location`. */
  lemma FilteringIds(action: string)
    ensures FilteringIdPrefix + action != TaskGraph.GroupbyTransactionType
    ensures FilteringIdPrefix + action == TaskGraph.FilterByLocation <==> action == "filter_by_location"
  {
    var id := FilteringIdPrefix + action;
    assert id[0] == 'f';
    assert TaskGraph.GroupbyTransactionType[0] == 'g';
    assert TaskGraph.FilterByLocation == FilteringIdPrefix + "filter_by_location";
    if id == TaskGraph.FilterByLocation {
      assert id[|FilteringIdPrefix|..] == action;
      assert TaskGraph.FilterByLocation[|FilteringIdPrefix|..] == "filter_by_location";
    }
  }

  /** A filtering value other than `filter_by_location` selects no existing task. */
  lemma UnknownFilterAction()
    ensures DetermineBranch(Some("filter_by_amount")) == Success(Some("filtering.filter_by_amount"))
    ensures "filtering.filter_by_amount" !in TaskGraph.Tasks
  {
    assert FilterPrefix <= "filter_by_amount" by {
      assert "filter_by_amount"[..|FilterPrefix|] == FilterPrefix;
    }
    assert FilteringIdPrefix + "filter_by_amount" == "filtering.filter_by_amount";
  }
}
