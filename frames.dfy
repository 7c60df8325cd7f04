/** Values shared by every part of the model: table cells, two-level headers,
    flattened tables, the (result, error) outcome of a scraping call, column
    lookup by name and order-preserving row filtering (pandas' boolean mask). */
module Frames {

  datatype Option<T> = None | Some(value: T)

  /** One cell of a parsed table: free text, a number, or pandas' NaN. */
  datatype Cell = Text(s: string) | Num(x: real) | Missing

  /** The key of one column under a two-level header: (category, metric). */
  datatype Level = Level(top: string, bottom: string)

  /** A table as the page gives it: a two-level header and rows in page order. */
  datatype RawTable = RawTable(header: seq<Level>, rows: seq<seq<Cell>>)

  /** A table whose header has been flattened to one name per column. */
  datatype Table = Table(columns: seq<string>, rows: seq<seq<Cell>>)

  /** What a scraping function hands back: `(df, None)`, `(None, message)`,
      or an exception it lets escape (a `KeyError`, an `IndexError`). */
  datatype Outcome = Ok(df: Table) | Err(message: string) | Raised(exception: string)

  /** Every row has exactly `width` cells. */
  predicate Rectangular(width: nat, rows: seq<seq<Cell>>) {
    forall i :: 0 <= i < |rows| ==> |rows[i]| == width
  }

  predicate RawWellFormed(t: RawTable) {
    Rectangular(|t.header|, t.rows)
  }

  predicate WellFormed(t: Table) {
    Rectangular(|t.columns|, t.rows)
  }

  /** The position of the first occurrence of `name` (a column name, a row). */
  function IndexOf<T(==)>(cols: seq<T>, name: T): (r: Option<nat>)
    ensures r.Some? ==> r.value < |cols| && cols[r.value] == name && name !in cols[..r.value]
    ensures r.None? <==> name !in cols
  {
    if |cols| == 0 then None
    else if cols[0] == name then Some(0)
    else match IndexOf(cols[1..], name)
      case None => None
      case Some(j) =>
        assert cols[..j + 1] == [cols[0]] + cols[1..][..j];
        Some(j + 1)
  }

  /** `row[name]`: the cell under the first column called `name`, and NaN where
      the row has no such column (as `pd.concat` fills a column a table lacks). */
  function Lookup(cols: seq<string>, row: seq<Cell>, name: string): (c: Cell)
    ensures name !in cols ==> c == Missing
    ensures forall j :: 0 <= j < |cols| && j < |row| && cols[j] == name && name !in cols[..j] ==> c == row[j]
  {
    match IndexOf(cols, name)
    case None => Missing
    case Some(j) => if j < |row| then row[j] else Missing
  }

  /** Appending a column leaves the positions of the existing names alone. */
  lemma {:induction false} IndexOfAppend<T>(cols: seq<T>, extra: T, name: T)
    ensures name in cols ==> IndexOf(cols + [extra], name) == IndexOf(cols, name)
    ensures name !in cols && name == extra ==> IndexOf(cols + [extra], name) == Some(|cols|)
    ensures name !in cols && name != extra ==> IndexOf(cols + [extra], name) == None
  {
    if |cols| > 0 {
      assert (cols + [extra])[1..] == cols[1..] + [extra];
      IndexOfAppend(cols[1..], extra, name);
    }
  }

  /** `df[name] = values`: the values go under an existing column of that
      name (every column so named), or under a new last column. */
  function Assign(t: Table, name: string, values: seq<Cell>): (r: Table)
    requires WellFormed(t) && |values| == |t.rows|
    ensures WellFormed(r) && |r.rows| == |t.rows| && name in r.columns
    ensures forall c :: c in r.columns <==> c in t.columns || c == name
  {
    if name in t.columns then
      Table(t.columns, seq(|t.rows|, i requires 0 <= i < |t.rows| =>
        seq(|t.columns|, j requires 0 <= j < |t.columns| =>
          if t.columns[j] == name then values[i] else t.rows[i][j])))
    else
      Table(t.columns + [name], seq(|t.rows|, i requires 0 <= i < |t.rows| => t.rows[i] + [values[i]]))
  }

  /** After the assignment row `i` reads `values[i]` under `name` and its old
      value under every other name. */
  lemma AssignLookup(t: Table, name: string, values: seq<Cell>, i: nat, other: string)
    requires WellFormed(t) && |values| == |t.rows| && i < |t.rows|
    ensures Lookup(Assign(t, name, values).columns, Assign(t, name, values).rows[i], name) == values[i]
    ensures other != name ==>
              Lookup(Assign(t, name, values).columns, Assign(t, name, values).rows[i], other) == Lookup(t.columns, t.rows[i], other)
  {
    if name !in t.columns {
      IndexOfAppend(t.columns, name, name);
      IndexOfAppend(t.columns, name, other);
    }
  }

  /** `r` keeps some of the elements of `s`, in the order `s` has them. */
  ghost predicate IsSubsequence<T>(r: seq<T>, s: seq<T>)
    decreases |s|
  {
    if r == [] then true
    else if s == [] then false
    else (r[0] == s[0] && IsSubsequence(r[1..], s[1..])) || IsSubsequence(r, s[1..])
  }

  /** A subsequence stays one when `s` grows at the end. */
  lemma {:induction false} SubsequenceExtend<T>(r: seq<T>, s: seq<T>, x: T)
    requires IsSubsequence(r, s)
    ensures IsSubsequence(r, s + [x])
    decreases |s|
  {
    if r != [] {
      assert (s + [x])[0] == s[0] && (s + [x])[1..] == s[1..] + [x];
      if r[0] == s[0] && IsSubsequence(r[1..], s[1..]) {
        SubsequenceExtend(r[1..], s[1..], x);
      } else {
        SubsequenceExtend(r, s[1..], x);
      }
    }
  }

  /** Both sequences growing by the same last element keep the relation. */
  lemma {:induction false} SubsequenceSnoc<T>(r: seq<T>, s: seq<T>, x: T)
    requires IsSubsequence(r, s)
    ensures IsSubsequence(r + [x], s + [x])
    decreases |s|
  {
    if s == [] {
      assert r == [] && r + [x] == s + [x];
    } else {
      assert (s + [x])[0] == s[0] && (s + [x])[1..] == s[1..] + [x];
      if r != [] && r[0] == s[0] && IsSubsequence(r[1..], s[1..]) {
        assert (r + [x])[0] == r[0] && (r + [x])[1..] == r[1..] + [x];
        SubsequenceSnoc(r[1..], s[1..], x);
      } else {
        SubsequenceSnoc(r, s[1..], x);
      }
    }
  }

  /** The elements of `s` that `keep` accepts, in their original order:
      `df[mask].reset_index(drop=True)`. */
  function Filter<T(!new)>(s: seq<T>, keep: T -> bool): (r: seq<T>)
    ensures |r| <= |s|
    ensures forall x :: multiset(r)[x] == if keep(x) then multiset(s)[x] else 0
    ensures forall x :: x in r <==> x in s && keep(x)
    ensures IsSubsequence(r, s)
  {
    if |s| == 0 then []
    else
      var rest := Filter(s[1..], keep);
      assert s == [s[0]] + s[1..];
      if keep(s[0]) then [s[0]] + rest else rest
  }

  /** A mask that accepts every element leaves the sequence as it was. */
  lemma {:induction false} FilterKeepsAll<T(!new)>(s: seq<T>, keep: T -> bool)
    requires forall x :: x in s ==> keep(x)
    ensures Filter(s, keep) == s
  {
    if |s| > 0 {
      FilterKeepsAll(s[1..], keep);
    }
  }

  /** Two masks that agree on the elements of `s` select the same rows. */
  lemma {:induction false} FilterCongruent<T(!new)>(s: seq<T>, p: T -> bool, q: T -> bool)
    requires forall x :: x in s ==> p(x) == q(x)
    ensures Filter(s, p) == Filter(s, q)
  {
    if |s| > 0 {
      FilterCongruent(s[1..], p, q);
    }
  }

  /** Masking rows keeps the table rectangular. */
  lemma FilterRectangular(width: nat, rows: seq<seq<Cell>>, keep: seq<Cell> -> bool)
    requires Rectangular(width, rows)
    ensures Rectangular(width, Filter(rows, keep))
  {
    var r := Filter(rows, keep);
    forall i | 0 <= i < |r| ensures |r[i]| == width {
      assert r[i] in rows;
    }
  }

  /** Sum of the entries of a sequence of reals. */
  function Sum(xs: seq<real>): real {
    if |xs| == 0 then 0.0 else xs[0] + Sum(xs[1..])
  }

  /** `Series.mean()`: NaN (here None) for an empty series. */
  function Mean(xs: seq<real>): (m: Option<real>)
    ensures m.Some? <==> |xs| > 0
  {
    if |xs| == 0 then None else Some(Sum(xs) / |xs| as real)
  }

  /** A mean lies between the least and the greatest bound of its entries. */
  lemma {:induction false} SumBounds(xs: seq<real>, lo: real, hi: real)
    requires forall i :: 0 <= i < |xs| ==> lo <= xs[i] <= hi
    ensures |xs| as real * lo <= Sum(xs) <= |xs| as real * hi
  {
    if |xs| > 0 {
      SumBounds(xs[1..], lo, hi);
    }
  }
}
