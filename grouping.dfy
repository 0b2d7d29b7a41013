/**
 * `groupby_transaction_type`: `df.groupby('TransactionType').agg({'CustomerAge':
 * 'mean', 'TransactionAmount': 'sum'}).reset_index()`, computed in one pass
 * over the rows and proved equal, group by group, to the aggregate of that
 * group's rows.
 */
module Grouping {
  import opened Wrappers
  import opened Sequences
  import opened Dataset
  import opened Ordering

  const TypeColumn := "TransactionType"
  const AgeColumn := "CustomerAge"
  const AmountColumn := "TransactionAmount"

  /** The numeric content of a cell; null (and non-numeric) cells are skipped by `sum` and `mean`. */
  function NumberOf(row: Row, column: string): Option<real> {
    match CellOf(row, column)
    case Some(Num(x)) => Some(x)
    case _ => None
  }

  function AmountOf(row: Row): real {
    match NumberOf(row, AmountColumn)
    case Some(x) => x
    case None => 0.0
  }

  /** The group key of a row; rows with a null key belong to no group (pandas' `dropna=True`). */
  function KeyOf(row: Row): Cell {
    CellOf(row, TypeColumn)
  }

  /** The test selecting the rows of group `k`. */
  function InGroup(k: Value): Row -> bool {
    row => KeyOf(row) == Some(k)
  }

  /** Running totals for one group: age sum and count (for the mean), amount sum. */
  datatype Summary = Summary(key: Value, ageTotal: real, ageCount: nat, amountTotal: real)

  // ---- reference definition: the aggregate of a whole group at once ----

  function AmountSum(rows: seq<Row>): real {
    if rows == [] then 0.0 else AmountSum(rows[..|rows| - 1]) + AmountOf(rows[|rows| - 1])
  }

  function AgeSum(rows: seq<Row>): real {
    if rows == [] then 0.0
    else
      var last := rows[|rows| - 1];
      AgeSum(rows[..|rows| - 1]) + (if NumberOf(last, AgeColumn).Some? then NumberOf(last, AgeColumn).value else 0.0)
  }

  function AgeCount(rows: seq<Row>): nat {
    if rows == [] then 0
    else AgeCount(rows[..|rows| - 1]) + (if NumberOf(rows[|rows| - 1], AgeColumn).Some? then 1 else 0)
  }

  /** The summary of group `k`, given exactly that group's rows. */
  function Aggregate(k: Value, group: seq<Row>): Summary {
    Summary(k, AgeSum(group), AgeCount(group), AmountSum(group))
  }

  /** The distinct non-null keys occurring in `rows`. */
  ghost function GroupKeys(rows: seq<Row>): set<Value> {
    set row | row in rows && KeyOf(row).Some? :: KeyOf(row).value
  }

  ghost function KeysOf(groups: seq<Summary>): set<Value> {
    set g | g in groups :: g.key
  }

  ghost predicate DistinctKeys(groups: seq<Summary>) {
    forall i, j :: 0 <= i < j < |groups| ==> groups[i].key != groups[j].key
  }

  /** `groups` holds one summary per distinct key of `rows`, each the aggregate of its group. */
  ghost predicate Summarizes(groups: seq<Summary>, rows: seq<Row>) {
    && DistinctKeys(groups)
    && KeysOf(groups) == GroupKeys(rows)
    && forall g :: g in groups ==> g == Aggregate(g.key, Select(rows, InGroup(g.key)))
  }

  // ---- the one-pass computation ----

  /** Adds one row to a group's running totals. */
  function Absorb(s: Summary, row: Row): Summary {
    var age := NumberOf(row, AgeColumn);
    Summary(s.key,
            s.ageTotal + (if age.Some? then age.value else 0.0),
            s.ageCount + (if age.Some? then 1 else 0),
            s.amountTotal + AmountOf(row))
  }

  /** The running totals of key `k`, or empty totals when `k` has not been seen. */
  function Find(groups: seq<Summary>, k: Value): (s: Summary)
    ensures s.key == k
    ensures s in groups || s == Summary(k, 0.0, 0, 0.0)
  {
    if groups == [] then Summary(k, 0.0, 0, 0.0)
    else if groups[0].key == k then groups[0]
    else Find(groups[1..], k)
  }

  /** Adds `row` to the group of key `k`, opening a new group at the end when `k` is new. */
  function AddRow(groups: seq<Summary>, k: Value, row: Row): seq<Summary> {
    if groups == [] then [Absorb(Summary(k, 0.0, 0, 0.0), row)]
    else if groups[0].key == k then [Absorb(groups[0], row)] + groups[1..]
    else [groups[0]] + AddRow(groups[1..], k, row)
  }

  function Accumulate(groups: seq<Summary>, row: Row): seq<Summary> {
    match KeyOf(row)
    case None => groups
    case Some(k) => AddRow(groups, k, row)
  }

  /** The groups of `rows`, built row by row. */
  function Summarize(rows: seq<Row>): seq<Summary> {
    if rows == [] then [] else Accumulate(Summarize(rows[..|rows| - 1]), rows[|rows| - 1])
  }

  // ---- proofs ----

  /** Splitting off the first summary of a list with distinct keys. */
  lemma SplitFirst(groups: seq<Summary>)
    requires groups != [] && DistinctKeys(groups)
    ensures DistinctKeys(groups[1..])
    ensures forall g :: g in groups[1..] ==> g.key != groups[0].key
    ensures KeysOf(groups) == {groups[0].key} + KeysOf(groups[1..])
  {
    var tail := groups[1..];
    assert groups == [groups[0]] + tail;
    forall i, j | 0 <= i < j < |tail| ensures tail[i].key != tail[j].key {
      assert tail[i] == groups[i + 1] && tail[j] == groups[j + 1];
    }
    forall g | g in tail ensures g.key != groups[0].key {
      var j :| 0 <= j < |tail| && tail[j] == g;
      assert groups[j + 1] == g;
    }
  }

  lemma {:induction false} FindDistinct(groups: seq<Summary>, k: Value)
    requires DistinctKeys(groups)
    ensures k in KeysOf(groups) ==> Find(groups, k) in groups
    ensures forall g :: g in groups && g.key == k ==> g == Find(groups, k)
    ensures k !in KeysOf(groups) ==> Find(groups, k) == Summary(k, 0.0, 0, 0.0)
  {
    if groups != [] {
      SplitFirst(groups);
      FindDistinct(groups[1..], k);
    }
  }

  /** Which keys `AddRow` leaves, and what the summaries under them are. */
  lemma {:induction false} AddRowContents(groups: seq<Summary>, k: Value, row: Row)
    requires DistinctKeys(groups)
    ensures KeysOf(AddRow(groups, k, row)) == KeysOf(groups) + {k}
    ensures forall g :: g in AddRow(groups, k, row) && g.key != k ==> g in groups
    ensures forall g :: g in AddRow(groups, k, row) && g.key == k ==> g == Absorb(Find(groups, k), row)
  {
    if groups != [] {
      SplitFirst(groups);
      var tail := groups[1..];
      if groups[0].key == k {
        assert AddRow(groups, k, row) == [Absorb(groups[0], row)] + tail;
        assert KeysOf(AddRow(groups, k, row)) == {k} + KeysOf(tail);
      } else {
        AddRowContents(tail, k, row);
        var rest := AddRow(tail, k, row);
        assert AddRow(groups, k, row) == [groups[0]] + rest;
        assert KeysOf(AddRow(groups, k, row)) == {groups[0].key} + KeysOf(rest);
      }
    }
  }

  /** `AddRow` keeps the keys distinct. */
  lemma {:induction false} AddRowDistinct(groups: seq<Summary>, k: Value, row: Row)
    requires DistinctKeys(groups)
    ensures DistinctKeys(AddRow(groups, k, row))
  {
    if groups != [] {
      SplitFirst(groups);
      var tail := groups[1..];
      var first := groups[0];
      if first.key == k {
        assert first.key !in KeysOf(tail);
        ConsDistinct(Absorb(first, row), tail);
      } else {
        AddRowDistinct(tail, k, row);
        AddRowContents(tail, k, row);
        assert first.key !in KeysOf(tail);
        ConsDistinct(first, AddRow(tail, k, row));
      }
    }
  }

  lemma AggregateSnoc(k: Value, group: seq<Row>, row: Row)
    ensures Aggregate(k, group + [row]) == Absorb(Aggregate(k, group), row)
  {
    assert (group + [row])[..|group|] == group;
  }

  /** The keys of `rows + [row]`: those of `rows`, plus the key of `row` if it has one. */
  lemma GroupKeysSnoc(rows: seq<Row>, row: Row)
    ensures GroupKeys(rows + [row]) ==
            GroupKeys(rows) + (if KeyOf(row).Some? then {KeyOf(row).value} else {})
  {
    assert forall r :: r in rows + [row] <==> r in rows || r == row;
  }

  /** A row without a key changes no group. */
  lemma AccumulateKeyless(groups: seq<Summary>, rows: seq<Row>, row: Row)
    requires Summarizes(groups, rows) && KeyOf(row).None?
    ensures Summarizes(groups, rows + [row])
  {
    GroupKeysSnoc(rows, row);
    forall g | g in groups ensures g == Aggregate(g.key, Select(rows + [row], InGroup(g.key))) {
      SelectSnoc(rows, row, InGroup(g.key));
      assert Kept(row, InGroup(g.key)) == [];
      assert Select(rows + [row], InGroup(g.key)) == Select(rows, InGroup(g.key));
    }
  }

  /** Adding a row with key `k` to the running summary of its group. */
  lemma AbsorbIntoGroup(groups: seq<Summary>, rows: seq<Row>, row: Row, k: Value)
    requires Summarizes(groups, rows) && KeyOf(row) == Some(k)
    ensures Absorb(Find(groups, k), row) == Aggregate(k, Select(rows + [row], InGroup(k)))
  {
    FindDistinct(groups, k);
    SelectSnoc(rows, row, InGroup(k));
    var sel := Select(rows, InGroup(k));
    if k !in KeysOf(groups) {
      NoRowsWithoutKey(rows, k);
    }
    AggregateSnoc(k, sel, row);
  }

  /** A key that no row carries has an empty group. */
  lemma {:induction false} NoRowsWithoutKey(rows: seq<Row>, k: Value)
    requires k !in GroupKeys(rows)
    ensures Select(rows, InGroup(k)) == []
  {
    if rows != [] {
      assert rows[0] in rows;
      assert Kept(rows[0], InGroup(k)) == [];
      assert GroupKeys(rows[1..]) <= GroupKeys(rows) by {
        assert forall r :: r in rows[1..] ==> r in rows;
      }
      NoRowsWithoutKey(rows[1..], k);
    }
  }

  /** A row with key `k` updates only the group of `k`. */
  lemma AccumulateKeyed(groups: seq<Summary>, rows: seq<Row>, row: Row, k: Value)
    requires Summarizes(groups, rows) && KeyOf(row) == Some(k)
    ensures Summarizes(AddRow(groups, k, row), rows + [row])
  {
    var groups', rows' := AddRow(groups, k, row), rows + [row];
    AddRowContents(groups, k, row);
    AddRowDistinct(groups, k, row);
    GroupKeysSnoc(rows, row);
    assert KeysOf(groups') == GroupKeys(rows');
    AbsorbIntoGroup(groups, rows, row, k);
    forall g | g in groups' ensures g == Aggregate(g.key, Select(rows', InGroup(g.key))) {
      if g.key != k {
        SelectSnoc(rows, row, InGroup(g.key));
        assert Kept(row, InGroup(g.key)) == [];
        assert Select(rows', InGroup(g.key)) == Select(rows, InGroup(g.key));
      }
    }
  }

  lemma AccumulateStep(groups: seq<Summary>, rows: seq<Row>, row: Row)
    requires Summarizes(groups, rows)
    ensures Summarizes(Accumulate(groups, row), rows + [row])
  {
    match KeyOf(row)
    case None => AccumulateKeyless(groups, rows, row);
    case Some(k) => AccumulateKeyed(groups, rows, row, k);
  }

  /** The one-pass grouping yields exactly the reference aggregates, one per distinct key. */
  lemma {:induction false} SummarizeCorrect(rows: seq<Row>)
    ensures Summarizes(Summarize(rows), rows)
  {
    if rows == [] {
      assert GroupKeys(rows) == {};
    } else {
      var prefix := rows[..|rows| - 1];
      SummarizeCorrect(prefix);
      assert prefix + [rows[|rows| - 1]] == rows;
      AccumulateStep(Summarize(prefix), prefix, rows[|rows| - 1]);
    }
  }

  // ---- the key order of the output (`groupby` sorts its keys) ----

  /** Each summary's key comes strictly before the next one's. */
  ghost predicate SortedByKey(groups: seq<Summary>) {
    forall i :: 0 <= i < |groups| - 1 ==> KeyBefore(groups[i].key, groups[i + 1].key)
  }

  /** Puts `g` before the first summary whose key comes after its own. */
  function Insert(g: Summary, groups: seq<Summary>): seq<Summary> {
    if groups == [] || KeyBefore(g.key, groups[0].key) then [g] + groups
    else [groups[0]] + Insert(g, groups[1..])
  }

  /** The summaries in key order, by insertion. */
  function SortByKey(groups: seq<Summary>): seq<Summary> {
    if groups == [] then [] else Insert(groups[0], SortByKey(groups[1..]))
  }

  /** The groups of `rows` as `groupby` lists them: one per key, keys ascending. */
  function SortedGroups(rows: seq<Row>): seq<Summary> {
    SortByKey(Summarize(rows))
  }

  /** A summary whose key is new in front of summaries with distinct keys. */
  lemma ConsDistinct(g: Summary, groups: seq<Summary>)
    requires DistinctKeys(groups) && g.key !in KeysOf(groups)
    ensures DistinctKeys([g] + groups)
  {
    var r := [g] + groups;
    forall i, j | 0 <= i < j < |r| ensures r[i].key != r[j].key {
      assert r[j] == groups[j - 1];
      if i > 0 { assert r[i] == groups[i - 1]; }
    }
  }

  /** `Insert` adds `g` and loses nothing; its result starts with `g` or with the old first summary. */
  lemma {:induction false} InsertContents(g: Summary, groups: seq<Summary>)
    ensures |Insert(g, groups)| == |groups| + 1
    ensures forall x :: x in Insert(g, groups) <==> x == g || x in groups
    ensures KeysOf(Insert(g, groups)) == {g.key} + KeysOf(groups)
    ensures Insert(g, groups)[0] == g || (groups != [] && Insert(g, groups)[0] == groups[0])
  {
    if groups != [] && !KeyBefore(g.key, groups[0].key) {
      InsertContents(g, groups[1..]);
      assert groups == [groups[0]] + groups[1..];
    }
  }

  /** Inserting a new key into a sorted list of distinct keys keeps it sorted and distinct. */
  lemma {:induction false} InsertSorted(g: Summary, groups: seq<Summary>)
    requires SortedByKey(groups) && DistinctKeys(groups) && g.key !in KeysOf(groups)
    ensures SortedByKey(Insert(g, groups)) && DistinctKeys(Insert(g, groups))
  {
    var r := Insert(g, groups);
    if groups == [] || KeyBefore(g.key, groups[0].key) {
      ConsDistinct(g, groups);
      forall i | 0 <= i < |r| - 1 ensures KeyBefore(r[i].key, r[i + 1].key) {
        if i > 0 { assert r[i] == groups[i - 1] && r[i + 1] == groups[i]; }
      }
    } else {
      var tail := groups[1..];
      SplitFirst(groups);
      assert SortedByKey(tail) by {
        forall i | 0 <= i < |tail| - 1 ensures KeyBefore(tail[i].key, tail[i + 1].key) {
          assert tail[i] == groups[i + 1] && tail[i + 1] == groups[i + 2];
        }
      }
      InsertSorted(g, tail);
      InsertContents(g, tail);
      var rest := Insert(g, tail);
      assert r == [groups[0]] + rest;
      KeyBeforeTotal(g.key, groups[0].key);
      assert KeyBefore(groups[0].key, rest[0].key);
      ConsDistinct(groups[0], rest);
      forall i | 0 <= i < |r| - 1 ensures KeyBefore(r[i].key, r[i + 1].key) {
        if i > 0 { assert r[i] == rest[i - 1] && r[i + 1] == rest[i]; }
      }
    }
  }

  /** Sorting summaries with distinct keys keeps exactly the same summaries and puts them in key order. */
  lemma {:induction false} SortByKeyContents(groups: seq<Summary>)
    requires DistinctKeys(groups)
    ensures |SortByKey(groups)| == |groups|
    ensures forall x :: x in SortByKey(groups) <==> x in groups
    ensures KeysOf(SortByKey(groups)) == KeysOf(groups)
    ensures SortedByKey(SortByKey(groups)) && DistinctKeys(SortByKey(groups))
  {
    if groups != [] {
      SplitFirst(groups);
      var tail := groups[1..];
      SortByKeyContents(tail);
      InsertContents(groups[0], SortByKey(tail));
      InsertSorted(groups[0], SortByKey(tail));
      assert groups == [groups[0]] + tail;
    }
  }

  /** The sorted groups are still exactly the aggregates of the rows' groups, and ascend by key. */
  lemma SortedGroupsCorrect(rows: seq<Row>)
    ensures Summarizes(SortedGroups(rows), rows)
    ensures SortedByKey(SortedGroups(rows))
  {
    SummarizeCorrect(rows);
    SortByKeyContents(Summarize(rows));
  }

  // ---- the task's output table ----

  /** `mean` over the group's numeric ages; NaN (null) when there is none. */
  function MeanAge(s: Summary): (r: Cell)
    ensures r.None? <==> s.ageCount == 0
    ensures r.Some? ==> r.value.Num? && r.value.x * (s.ageCount as real) == s.ageTotal
  {
    if s.ageCount == 0 then None else Some(Num(s.ageTotal / (s.ageCount as real)))
  }

  /** One row of `reset_index()`'s output: the group key becomes the `TransactionType` column again. */
  function ToRow(s: Summary): (r: Row)
    ensures r.Keys == {TypeColumn, AgeColumn, AmountColumn}
    ensures r[TypeColumn] == Some(s.key)
  {
    map[TypeColumn := Some(s.key), AgeColumn := MeanAge(s), AmountColumn := Some(Num(s.amountTotal))]
  }

  /** Reference: the output row of group `k`, computed from that group's rows alone. */
  ghost function GroupRow(rows: seq<Row>, k: Value): Row {
    var group := Select(rows, InGroup(k));
    map[TypeColumn := Some(k),
        AgeColumn := if AgeCount(group) == 0 then None else Some(Num(AgeSum(group) / (AgeCount(group) as real))),
        AmountColumn := Some(Num(AmountSum(group)))]
  }

  /** The aggregated columns absent from `t`, in the order of the `agg` dictionary. */
  function MissingAggregated(t: Table): (r: seq<string>)
    ensures forall c :: c in r <==> (c == AgeColumn || c == AmountColumn) && c !in t.columns
  {
    (if AgeColumn in t.columns then [] else [AgeColumn]) +
    (if AmountColumn in t.columns then [] else [AmountColumn])
  }

  /**
   * `groupby_transaction_type` after its column check: `Success(None)` is the
   * early return without `TransactionType` (nothing written); `Failure(cols)`
   * is the `KeyError` that `agg` raises for aggregated columns that do not exist.
   */
  function GroupByTransactionType(t: Table): (r: Result<Option<Table>, seq<string>>)
    ensures r == Success(None) <==> TypeColumn !in t.columns
    ensures r.Failure? <==> TypeColumn in t.columns && (AgeColumn !in t.columns || AmountColumn !in t.columns)
    ensures r.Failure? ==> r.error != [] && forall c :: c in r.error ==> c !in t.columns
  {
    if TypeColumn !in t.columns then Success(None)
    else if MissingAggregated(t) != [] then Failure(MissingAggregated(t))
    else
      Success(Some(Table([TypeColumn, AgeColumn, AmountColumn], ToRows(SortedGroups(t.rows)))))
  }

  /** The output rows of a list of summaries, one per summary, in order. */
  function ToRows(groups: seq<Summary>): (out: seq<Row>)
    ensures |out| == |groups| && forall i :: 0 <= i < |groups| ==> out[i] == ToRow(groups[i])
  {
    seq(|groups|, i requires 0 <= i < |groups| => ToRow(groups[i]))
  }

  /** Summaries with distinct keys give output rows with distinct `TransactionType`s. */
  lemma ToRowsDistinct(groups: seq<Summary>)
    requires DistinctKeys(groups)
    ensures var out := ToRows(groups);
            forall i, j :: 0 <= i < j < |out| ==> out[i][TypeColumn] != out[j][TypeColumn]
  {
  }

  /** The `TransactionType`s of the output rows are the keys of the summaries. */
  lemma ToRowsKeys(groups: seq<Summary>)
    ensures forall k :: k in KeysOf(groups) <==> Some(k) in set row: Row | row in ToRows(groups) :: row[TypeColumn]
  {
    var out := ToRows(groups);
    forall k ensures k in KeysOf(groups) <==> Some(k) in set row: Row | row in out :: row[TypeColumn] {
      if k in KeysOf(groups) {
        var i :| 0 <= i < |groups| && groups[i].key == k;
        assert out[i][TypeColumn] == Some(k);
      }
      if Some(k) in set row: Row | row in out :: row[TypeColumn] {
        var i :| 0 <= i < |out| && out[i][TypeColumn] == Some(k);
        assert groups[i] in groups;
      }
    }
  }

  /** Each output row of correct summaries is the reference row of its group. */
  lemma ToRowsAggregates(groups: seq<Summary>, rows: seq<Row>)
    requires Summarizes(groups, rows)
    ensures forall row: Row :: row in ToRows(groups) ==> row[TypeColumn].Some? && row == GroupRow(rows, row[TypeColumn].value)
  {
    var out := ToRows(groups);
    forall row: Row | row in out ensures row[TypeColumn].Some? && row == GroupRow(rows, row[TypeColumn].value) {
      var i :| 0 <= i < |out| && out[i] == row;
      assert groups[i] in groups;
    }
  }

  /** Both rows have a `TransactionType`, and the first one's comes strictly before the second's. */
  ghost predicate TypeBefore(row: Row, next: Row) {
    && TypeColumn in row && row[TypeColumn].Some?
    && TypeColumn in next && next[TypeColumn].Some?
    && KeyBefore(row[TypeColumn].value, next[TypeColumn].value)
  }

  /** The rows are in strictly ascending `TransactionType` order. */
  ghost predicate TypesAscending(out: seq<Row>) {
    forall i :: 0 <= i < |out| - 1 ==> TypeBefore(out[i], out[i + 1])
  }

  /** Key-sorted summaries give rows in ascending `TransactionType` order. */
  lemma ToRowsSorted(groups: seq<Summary>)
    requires SortedByKey(groups)
    ensures TypesAscending(ToRows(groups))
  {
  }

  /**
   * With all three columns present, the output has exactly one row per distinct
   * non-null `TransactionType`, and each row holds the sum of `TransactionAmount`
   * and the mean of `CustomerAge` over that type's rows. The rows are in
   * ascending `TransactionType` order, as `groupby` sorts its keys.
   */
  lemma GroupByTransactionTypeContents(t: Table)
    requires TypeColumn in t.columns && AgeColumn in t.columns && AmountColumn in t.columns
    ensures GroupByTransactionType(t).Success? && GroupByTransactionType(t).value.Some?
    ensures GroupByTransactionType(t).value.value.columns == [TypeColumn, AgeColumn, AmountColumn]
    ensures var out := GroupByTransactionType(t).value.value.rows;
            && (forall i, j :: 0 <= i < j < |out| ==> out[i][TypeColumn] != out[j][TypeColumn])
            && (forall k :: k in GroupKeys(t.rows) <==> Some(k) in set row: Row | row in out :: row[TypeColumn])
            && (forall row: Row :: row in out ==> row[TypeColumn].Some? && row == GroupRow(t.rows, row[TypeColumn].value))
            && TypesAscending(out)
  {
    var groups := SortedGroups(t.rows);
    SortedGroupsCorrect(t.rows);
    assert GroupByTransactionType(t).value.value.rows == ToRows(groups);
    ToRowsSorted(groups);
    ToRowsDistinct(groups);
    ToRowsKeys(groups);
    ToRowsAggregates(groups, t.rows);
  }
}
