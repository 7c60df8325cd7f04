/** `pd.concat(frames, ignore_index=True)`: the rows of every frame, one frame
    after another, under the union of their column names in order of first
    appearance, with NaN where a frame lacks a column. */
module Concatenation {
  import opened Frames

  ghost predicate NoDuplicates(cols: seq<string>) {
    forall i, j :: 0 <= i < j < |cols| ==> cols[i] != cols[j]
  }

  /** The column union `pd.concat` builds: the names of `acc`, then every new
      name of `cols` in its order of first appearance. */
  function AddNew(acc: seq<string>, cols: seq<string>): (r: seq<string>)
    ensures forall c :: c in r <==> c in acc || c in cols
    ensures NoDuplicates(acc) ==> NoDuplicates(r)
    decreases |cols|
  {
    if |cols| == 0 then acc
    else AddNew(if cols[0] in acc then acc else acc + [cols[0]], cols[1..])
  }

  function UnionFrom(acc: seq<string>, ts: seq<Table>): (r: seq<string>)
    ensures forall c :: c in acc ==> c in r
    ensures forall i, c :: 0 <= i < |ts| && c in ts[i].columns ==> c in r
    ensures NoDuplicates(acc) ==> NoDuplicates(r)
    decreases |ts|
  {
    if |ts| == 0 then acc
    else
      var r := UnionFrom(AddNew(acc, ts[0].columns), ts[1..]);
      assert forall i, c :: 1 <= i < |ts| && c in ts[i].columns ==> c in ts[1..][i - 1].columns;
      r
  }

  /** The union adds no name that is neither in `acc` nor a table's column. */
  lemma {:induction false} UnionFromOnly(acc: seq<string>, ts: seq<Table>, c: string)
    requires c in UnionFrom(acc, ts)
    ensures c in acc || exists i :: 0 <= i < |ts| && c in ts[i].columns
    decreases |ts|
  {
    if |ts| > 0 && c !in acc && c !in ts[0].columns {
      UnionFromOnly(AddNew(acc, ts[0].columns), ts[1..], c);
      var i :| 0 <= i < |ts[1..]| && c in ts[1..][i].columns;
      assert c in ts[i + 1].columns;
    }
  }

  function UnionColumns(ts: seq<Table>): (cols: seq<string>)
    ensures forall i, c :: 0 <= i < |ts| && c in ts[i].columns ==> c in cols
    ensures NoDuplicates(cols)
  {
    UnionFrom([], ts)
  }

  /** One row re-laid under the union columns, NaN where its table has no such column. */
  function Align(cols: seq<string>, row: seq<Cell>, target: seq<string>): (r: seq<Cell>)
    ensures |r| == |target|
  {
    seq(|target|, k requires 0 <= k < |target| => Lookup(cols, row, target[k]))
  }

  /** Reading an aligned row by name reads the original row. */
  lemma AlignLookup(cols: seq<string>, row: seq<Cell>, target: seq<string>, name: string)
    requires name in target
    ensures Lookup(target, Align(cols, row, target), name) == Lookup(cols, row, name)
  {
  }

  function StackRows(ts: seq<Table>, target: seq<string>): (rows: seq<seq<Cell>>)
    ensures Rectangular(|target|, rows)
    ensures |rows| == TotalRows(ts)
  {
    if |ts| == 0 then []
    else seq(|ts[0].rows|, i requires 0 <= i < |ts[0].rows| => Align(ts[0].columns, ts[0].rows[i], target))
         + StackRows(ts[1..], target)
  }

  function TotalRows(ts: seq<Table>): nat {
    if |ts| == 0 then 0 else |ts[0].rows| + TotalRows(ts[1..])
  }

  /** The rows of the tables before position `i`. */
  function RowsBefore(ts: seq<Table>, i: nat): nat
    requires i <= |ts|
  {
    if i == 0 then 0 else |ts[0].rows| + RowsBefore(ts[1..], i - 1)
  }

  /** `pd.concat(tables, ignore_index=True)`: the tables' rows one table after
      another, under the union of their columns. */
  function Concat(ts: seq<Table>): (r: Table)
    ensures WellFormed(r) && |r.rows| == TotalRows(ts)
    ensures forall i, c :: 0 <= i < |ts| && c in ts[i].columns ==> c in r.columns
  {
    var cols := UnionColumns(ts);
    Table(cols, StackRows(ts, cols))
  }

  /** The concatenation's columns are exactly the tables' columns, each once. */
  lemma ConcatColumns(ts: seq<Table>, c: string)
    ensures c in Concat(ts).columns <==> exists i :: 0 <= i < |ts| && c in ts[i].columns
    ensures NoDuplicates(Concat(ts).columns)
  {
    if c in Concat(ts).columns {
      UnionFromOnly([], ts, c);
    }
  }

  /** Row `k` of table `i` sits at position RowsBefore(i) + k of the stack. */
  lemma {:induction false} StackRowsAt(ts: seq<Table>, target: seq<string>, i: nat, k: nat)
    requires i < |ts| && k < |ts[i].rows|
    ensures RowsBefore(ts, i) + k < |StackRows(ts, target)|
    ensures StackRows(ts, target)[RowsBefore(ts, i) + k] == Align(ts[i].columns, ts[i].rows[k], target)
  {
    var head := seq(|ts[0].rows|, j requires 0 <= j < |ts[0].rows| => Align(ts[0].columns, ts[0].rows[j], target));
    assert StackRows(ts, target) == head + StackRows(ts[1..], target);
    if i > 0 {
      StackRowsAt(ts[1..], target, i - 1, k);
      assert ts[1..][i - 1] == ts[i];
      assert RowsBefore(ts, i) == |head| + RowsBefore(ts[1..], i - 1);
    }
  }

  /** The concatenation's row for row `k` of table `i` has that row's value
      under each of the table's columns. */
  lemma ConcatRow(ts: seq<Table>, i: nat, k: nat, name: string)
    requires i < |ts| && k < |ts[i].rows| && name in ts[i].columns
    ensures RowsBefore(ts, i) + k < |Concat(ts).rows|
    ensures Lookup(Concat(ts).columns, Concat(ts).rows[RowsBefore(ts, i) + k], name) == Lookup(ts[i].columns, ts[i].rows[k], name)
  {
    var cols := UnionColumns(ts);
    StackRowsAt(ts, cols, i, k);
    AlignLookup(ts[i].columns, ts[i].rows[k], cols, name);
  }


  /** The rows of the tables one after another, as they stand. */
  function AllRows(ts: seq<Table>): (rows: seq<seq<Cell>>)
    ensures |rows| == TotalRows(ts)
  {
    if |ts| == 0 then [] else ts[0].rows + AllRows(ts[1..])
  }

  lemma {:induction false} AddNewFresh(acc: seq<string>, cols: seq<string>)
    requires NoDuplicates(acc + cols)
    ensures AddNew(acc, cols) == acc + cols
    decreases |cols|
  {
    if |cols| > 0 {
      assert acc + cols == (acc + [cols[0]]) + cols[1..];
      forall j | 0 <= j < |acc| ensures acc[j] != cols[0] {
        assert (acc + cols)[j] == acc[j] && (acc + cols)[|acc|] == cols[0];
      }
      AddNewFresh(acc + [cols[0]], cols[1..]);
    }
  }

  lemma {:induction false} AddNewKnown(acc: seq<string>, cols: seq<string>)
    requires forall c :: c in cols ==> c in acc
    ensures AddNew(acc, cols) == acc
    decreases |cols|
  {
    if |cols| > 0 {
      AddNewKnown(acc, cols[1..]);
    }
  }

  lemma {:induction false} UnionFromKnown(acc: seq<string>, ts: seq<Table>)
    requires forall i, c :: 0 <= i < |ts| && c in ts[i].columns ==> c in acc
    ensures UnionFrom(acc, ts) == acc
    decreases |ts|
  {
    if |ts| > 0 {
      AddNewKnown(acc, ts[0].columns);
      assert forall i, c :: 0 <= i < |ts| - 1 && c in ts[1..][i].columns ==> c in ts[i + 1].columns;
      UnionFromKnown(acc, ts[1..]);
    }
  }

  /** Tables with the same duplicate-free columns keep those columns. */
  lemma UnionOfSame(ts: seq<Table>, cols: seq<string>)
    requires |ts| > 0 && NoDuplicates(cols)
    requires forall i :: 0 <= i < |ts| ==> ts[i].columns == cols
    ensures UnionColumns(ts) == cols
  {
    var rest := ts[1..];
    assert [] + cols == cols;
    AddNewFresh([], cols);
    assert AddNew([], ts[0].columns) == cols;
    forall i, c | 0 <= i < |rest| && c in rest[i].columns ensures c in cols {
      assert rest[i] == ts[i + 1];
    }
    UnionFromKnown(cols, rest);
    assert UnionFrom([], ts) == UnionFrom(AddNew([], ts[0].columns), rest);
  }

  /** A row aligned to its own duplicate-free columns is unchanged. */
  lemma AlignSame(cols: seq<string>, row: seq<Cell>)
    requires NoDuplicates(cols) && |row| == |cols|
    ensures Align(cols, row, cols) == row
  {
    forall k | 0 <= k < |cols| ensures Align(cols, row, cols)[k] == row[k] {
      assert cols[k] !in cols[..k];
    }
  }

  lemma {:induction false} StackSame(ts: seq<Table>, cols: seq<string>)
    requires NoDuplicates(cols)
    requires forall i :: 0 <= i < |ts| ==> ts[i].columns == cols && WellFormed(ts[i])
    ensures StackRows(ts, cols) == AllRows(ts)
    decreases |ts|
  {
    if |ts| > 0 {
      forall i | 0 <= i < |ts[0].rows| ensures Align(cols, ts[0].rows[i], cols) == ts[0].rows[i] {
        AlignSame(cols, ts[0].rows[i]);
      }
      StackSame(ts[1..], cols);
    }
  }

  /** Concatenating tables that share duplicate-free columns appends their rows. */
  lemma ConcatSame(ts: seq<Table>, cols: seq<string>)
    requires |ts| > 0 && NoDuplicates(cols)
    requires forall i :: 0 <= i < |ts| ==> ts[i].columns == cols && WellFormed(ts[i])
    ensures Concat(ts) == Table(cols, AllRows(ts))
  {
    UnionOfSame(ts, cols);
    StackSame(ts, cols);
  }
}
