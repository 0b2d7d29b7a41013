/**
 * The row-level transforms of the DAG: `remove_null_values` (`df.dropna()`) and
 * `filter_by_location` (the boolean mask `df[df['Location'] == location]`).
 */
module Transforms {
  import opened Wrappers
  import opened Sequences
  import opened Dataset

  const LocationColumn := "Location"

  /** The test `dropna` applies to each row of a table with `columns`. */
  function NoNulls(columns: seq<string>): Row -> bool {
    row => Complete(columns, row)
  }

  /** `df.dropna()`: the rows with no null cell, in input order, same columns. */
  function RemoveNullRows(t: Table): (r: Table)
    ensures r.columns == t.columns
    ensures |r.rows| <= |t.rows|
  {
    Table(t.columns, Select(t.rows, NoNulls(t.columns)))
  }

  /** The output rows are exactly the complete input rows, none duplicated or lost. */
  lemma RemoveNullRowsContents(t: Table)
    ensures forall row :: row in RemoveNullRows(t).rows <==> row in t.rows && Complete(t.columns, row)
    ensures forall row :: multiset(RemoveNullRows(t).rows)[row] ==
                         if Complete(t.columns, row) then multiset(t.rows)[row] else 0
    ensures IsSubsequence(RemoveNullRows(t).rows, t.rows)
  {
    SelectCounts(t.rows, NoNulls(t.columns));
    SelectMembers(t.rows, NoNulls(t.columns));
    SelectIsSubsequence(t.rows, NoNulls(t.columns));
  }

  /** A row lacking one of the table's columns has NaN there, so `dropna` drops it. */
  lemma RemoveNullRowsDropsMissing(t: Table, row: Row, c: string)
    requires c in t.columns && c !in row
    ensures row !in RemoveNullRows(t).rows
  {
    RemoveNullRowsContents(t);
    assert CellOf(row, c).None?;
  }

  /** Cleaning an already clean table changes nothing. */
  lemma RemoveNullRowsIdempotent(t: Table)
    ensures RemoveNullRows(RemoveNullRows(t)) == RemoveNullRows(t)
  {
    SelectIdempotent(t.rows, NoNulls(t.columns));
  }

  /** Cleaning keeps a well-formed table well formed, and leaves no null cell. */
  lemma RemoveNullRowsWellFormed(t: Table)
    requires WellFormed(t)
    ensures WellFormed(RemoveNullRows(t))
    ensures forall row, c :: row in RemoveNullRows(t).rows && c in t.columns ==> CellOf(row, c).Some?
  {
    SelectMembers(t.rows, NoNulls(t.columns));
  }

  /**
   * The mask `df['Location'] == location`: it holds exactly for a row whose
   * `Location` cell is the string `location`. A missing, null or numeric cell
   * never matches.
   */
  function AtLocation(location: string): Row -> bool {
    row => CellOf(row, LocationColumn) == Some(Str(location))
  }

  /**
   * `filter_by_location` after its column check: `None` is the early return
   * taken when the table has no `Location` column (nothing is written).
   */
  function FilterByLocation(t: Table, location: string): (r: Option<Table>)
    ensures r.None? <==> LocationColumn !in t.columns
    ensures r.Some? ==> r.value.columns == t.columns && |r.value.rows| <= |t.rows|
  {
    if LocationColumn !in t.columns then None
    else Some(Table(t.columns, Select(t.rows, AtLocation(location))))
  }

  /**
   * With a `Location` column, the output is the order-preserving subsequence of
   * the input holding every row located at `location`, and only those.
   */
  lemma FilterByLocationContents(t: Table, location: string)
    requires LocationColumn in t.columns
    ensures FilterByLocation(t, location).Some?
    ensures forall row :: row in FilterByLocation(t, location).value.rows <==>
                          row in t.rows && CellOf(row, LocationColumn) == Some(Str(location))
    ensures forall row :: multiset(FilterByLocation(t, location).value.rows)[row] ==
                          if AtLocation(location)(row) then multiset(t.rows)[row] else 0
    ensures IsSubsequence(FilterByLocation(t, location).value.rows, t.rows)
  {
    SelectMembers(t.rows, AtLocation(location));
    SelectCounts(t.rows, AtLocation(location));
    SelectIsSubsequence(t.rows, AtLocation(location));
  }

  /** Filtering an already filtered table by the same location changes nothing. */
  lemma FilterByLocationIdempotent(t: Table, location: string)
    requires LocationColumn in t.columns
    ensures FilterByLocation(FilterByLocation(t, location).value, location) == FilterByLocation(t, location)
  {
    SelectIdempotent(t.rows, AtLocation(location));
  }
}
