/**
 * The tabular value the DAG's tasks pass around (a pandas DataFrame after the
 * JSON round trip): an ordered list of column names and an ordered list of
 * rows, each row mapping column names to a cell that may be null.
 */
module Dataset {
  import opened Wrappers

  /** A scalar cell value. Numbers are exact reals; float rounding is not modelled. */
  datatype Value = Str(s: string) | Num(x: real)

  /** `None` is pandas' NaN / missing value. */
  type Cell = Option<Value>

  type Row = map<string, Cell>

  datatype Table = Table(columns: seq<string>, rows: seq<Row>)

  /** Column names are unique and every row has exactly the table's columns. */
  ghost predicate WellFormed(t: Table) {
    && (forall i, j :: 0 <= i < j < |t.columns| ==> t.columns[i] != t.columns[j])
    && (forall row :: row in t.rows ==> row.Keys == set c | c in t.columns)
  }

  /**
   * A row with a value under every column of the table (the rows `dropna`
   * keeps): a null cell, and a column the row lacks, are both NaN.
   */
  predicate Complete(columns: seq<string>, row: Row) {
    forall c :: c in columns ==> CellOf(row, c).Some?
  }

  /** The cell of `row` under `column`, `None` when the row lacks it or it is null. */
  function CellOf(row: Row, column: string): (r: Cell)
    ensures r.Some? ==> column in row && row[column] == r
  {
    if column in row then row[column] else None
  }
}
