/** Cleaning of a located stat table: the repeated-header mask, header
    flattening, the rank/match-report column drop, numeric coercion and the
    final NaN fill (scraper.py:61-76 for player tables, 114-123 for the
    reference table used by the eligibility join, 175-188 for team tables). */
module Normalize {
  import opened Frames

  // ---------------------------------------------------------------------------
  // Repeated header rows (scraper.py:61, 114, 175)
  // ---------------------------------------------------------------------------

  /** A Python value as the repeated-header mask compares it: a cell of the
      first column, or that column's key, which under a two-level header is a
      (category, metric) pair. */
  datatype PyValue = Scalar(c: Cell) | Pair(key: Level)

  function FirstValue(row: seq<Cell>): PyValue {
    if |row| == 0 then Scalar(Missing) else Scalar(row[0])
  }

  /** The mask `df[df.columns[0]] != df.columns[0]` AS WRITTEN: the first
      column's values are compared with the column key, a pair, which no
      cell equals, so every row is kept (see FINDINGS in README.md). */
  function DropHeaderRowsAsWritten(t: RawTable): (rows: seq<seq<Cell>>)
    requires |t.header| > 0
    ensures rows == t.rows
  {
    var keep := (row: seq<Cell>) => FirstValue(row) != Pair(t.header[0]);
    FilterKeepsAll(t.rows, keep);
    Filter(t.rows, keep)
  }

  /** A header row printed again inside the body: its first cell carries the
      first column's metric label ("Rk"). */
  predicate RepeatsHeader(row: seq<Cell>, key: Level) {
    |row| > 0 && row[0] == Text(key.bottom)
  }

  /** The mask as intended: drop exactly the rows that repeat the header,
      keep every other row in its order. */
  function DropHeaderRows(t: RawTable): (rows: seq<seq<Cell>>)
    requires |t.header| > 0
    ensures forall row :: row in rows <==> row in t.rows && !RepeatsHeader(row, t.header[0])
    ensures forall row :: multiset(rows)[row] == if RepeatsHeader(row, t.header[0]) then 0 else multiset(t.rows)[row]
    ensures IsSubsequence(rows, t.rows)
  {
    Filter(t.rows, (row: seq<Cell>) => !RepeatsHeader(row, t.header[0]))
  }

  /** The page's own shape: a repeated "Rk" row under an "Unnamed" first
      column survives the mask as written and is removed by the intended one. */
  lemma RepeatedHeaderSurvivesAsWritten()
    ensures var t := RawTable([Level("Unnamed: 0_level_0", "Rk"), Level("Unnamed: 1_level_0", "Player")],
                              [[Text("1"), Text("Ann")], [Text("Rk"), Text("Player")]]);
            [Text("Rk"), Text("Player")] in DropHeaderRowsAsWritten(t)
            && [Text("Rk"), Text("Player")] !in DropHeaderRows(t)
            && [Text("1"), Text("Ann")] in DropHeaderRows(t)
  {
  }

  // ---------------------------------------------------------------------------
  // Header flattening (scraper.py:63-67, 116-120, 177-181)
  // ---------------------------------------------------------------------------

  /** pandas names the top level of a column without a category "Unnamed: …". */
  predicate IsPlaceholder(top: string) {
    "Unnamed" <= top
  }

  /** One flattened column name: the metric alone when the category is a
      placeholder or repeats the metric, else "category_metric". */
  function FlattenName(l: Level): (name: string)
    ensures name == l.bottom <==> IsPlaceholder(l.top) || l.top == l.bottom
    ensures |l.bottom| <= |name| && name[|name| - |l.bottom|..] == l.bottom
    ensures name != l.bottom ==> l.top + "_" <= name
  {
    if IsPlaceholder(l.top) || l.top == l.bottom then l.bottom else l.top + "_" + l.bottom
  }

  /** The flattened header: one name per column, in column order. */
  function FlattenHeader(header: seq<Level>): (cols: seq<string>)
    ensures |cols| == |header|
    ensures forall j :: 0 <= j < |header| ==> cols[j] == FlattenName(header[j])
  {
    seq(|header|, j requires 0 <= j < |header| => FlattenName(header[j]))
  }

  /** Flattening does not keep names unique: a placeholder column and a column
      whose category repeats its metric end up with the same name. */
  lemma FlattenedNamesCanCollide()
    ensures FlattenName(Level("Unnamed: 4_level_0", "Gls")) == FlattenName(Level("Gls", "Gls"))
    ensures FlattenName(Level("A_B", "C")) == FlattenName(Level("A", "B_C"))
  {
  }

  // ---------------------------------------------------------------------------
  // Rank / match-report column drop (scraper.py:69)
  // ---------------------------------------------------------------------------

  function LowerChar(c: char): char {
    if 'A' <= c <= 'Z' then (c as int + 32) as char else c
  }

  /** `str.lower()` on the ASCII letters. */
  function Lower(s: string): (r: string)
    ensures |r| == |s|
    ensures forall i :: 0 <= i < |s| ==> r[i] == LowerChar(s[i])
  {
    seq(|s|, i requires 0 <= i < |s| => LowerChar(s[i]))
  }

  /** `c.lower() in ['rk', 'matches']`. */
  predicate IsRankColumn(name: string) {
    Lower(name) == "rk" || Lower(name) == "matches"
  }

  /** A column the drop leaves in place. */
  predicate IsKept(name: string) {
    !IsRankColumn(name)
  }

  /** Positions, counted from `base`, of the names of `cols` that `keep`
      accepts, in increasing order. */
  function KeptFrom(cols: seq<string>, base: nat, keep: string -> bool): (idx: seq<nat>)
    ensures forall k :: 0 <= k < |idx| ==> base <= idx[k] < base + |cols| && keep(cols[idx[k] - base])
    ensures forall k, m :: 0 <= k < m < |idx| ==> idx[k] < idx[m]
    ensures forall j :: base <= j < base + |cols| && keep(cols[j - base]) ==> j in idx
  {
    if |cols| == 0 then []
    else (if keep(cols[0]) then [base] else []) + KeptFrom(cols[1..], base + 1, keep)
  }

  /** The positions of the columns the drop keeps. */
  function KeptColumns(cols: seq<string>): seq<nat> {
    KeptFrom(cols, 0, IsKept)
  }

  /** The entries of `s` at the positions `idx`, in that order. */
  function Pick<T>(s: seq<T>, idx: seq<nat>): (r: seq<T>)
    requires forall k :: 0 <= k < |idx| ==> idx[k] < |s|
    ensures |r| == |idx|
    ensures forall k :: 0 <= k < |idx| ==> r[k] == s[idx[k]]
  {
    seq(|idx|, k requires 0 <= k < |idx| => s[idx[k]])
  }

  lemma PickAppend<T>(s: seq<T>, a: seq<nat>, b: seq<nat>)
    requires forall k :: 0 <= k < |a| ==> a[k] < |s|
    requires forall k :: 0 <= k < |b| ==> b[k] < |s|
    ensures Pick(s, a + b) == Pick(s, a) + Pick(s, b)
  {
  }

  /** The first step of the filter over a non-empty suffix. */
  lemma FilterSuffixStep(cols: seq<string>, d: nat, keep: string -> bool)
    requires d < |cols|
    ensures Filter(cols[d..], keep) == (if keep(cols[d]) then [cols[d]] else []) + Filter(cols[d + 1..], keep)
  {
    assert cols[d..][1..] == cols[d + 1..];
  }

  /** The first step of the kept positions over a non-empty suffix. */
  lemma KeptSuffixStep(cols: seq<string>, d: nat, keep: string -> bool)
    requires d < |cols|
    ensures KeptFrom(cols[d..], d, keep) == (if keep(cols[d]) then [d] else []) + KeptFrom(cols[d + 1..], d + 1, keep)
  {
    assert cols[d..][1..] == cols[d + 1..];
  }

  /** Picking the kept positions of a suffix gives the suffix's kept names. */
  lemma {:induction false} PickKeptIsFilter(cols: seq<string>, d: nat, keep: string -> bool)
    requires d <= |cols|
    ensures Pick(cols, KeptFrom(cols[d..], d, keep)) == Filter(cols[d..], keep)
    decreases |cols| - d
  {
    if d < |cols| {
      PickKeptIsFilter(cols, d + 1, keep);
      var head: seq<nat> := if keep(cols[d]) then [d] else [];
      KeptSuffixStep(cols, d, keep);
      FilterSuffixStep(cols, d, keep);
      PickAppend(cols, head, KeptFrom(cols[d + 1..], d + 1, keep));
      assert Pick(cols, head) == if keep(cols[d]) then [cols[d]] else [];
    }
  }

  /** Every row cut down to the positions `idx`. */
  function PickRows(rows: seq<seq<Cell>>, width: nat, idx: seq<nat>): (r: seq<seq<Cell>>)
    requires Rectangular(width, rows) && forall k :: 0 <= k < |idx| ==> idx[k] < width
    ensures |r| == |rows| && Rectangular(|idx|, r)
    ensures forall i :: 0 <= i < |rows| ==> r[i] == Pick(rows[i], idx)
  {
    seq(|rows|, i requires 0 <= i < |rows| => Pick(rows[i], idx))
  }

  /** The columns `keep` accepts, in order, with their cells. */
  function KeepColumns(t: Table, keep: string -> bool): (r: Table)
    requires WellFormed(t)
    ensures WellFormed(r) && |r.rows| == |t.rows|
    ensures r.columns == Filter(t.columns, keep)
    ensures r.columns == Pick(t.columns, KeptFrom(t.columns, 0, keep))
    ensures r.rows == PickRows(t.rows, |t.columns|, KeptFrom(t.columns, 0, keep))
  {
    var idx := KeptFrom(t.columns, 0, keep);
    PickKeptIsFilter(t.columns, 0, keep);
    assert t.columns[0..] == t.columns;
    Table(Pick(t.columns, idx), PickRows(t.rows, |t.columns|, idx))
  }

  /** `df.drop(columns=[c for c in df.columns if c.lower() in ['rk', 'matches']])`:
      exactly the rank and match-report columns go, and the others stay in
      order. */
  function DropRankColumns(t: Table): (r: Table)
    requires WellFormed(t)
    ensures WellFormed(r) && |r.rows| == |t.rows|
    ensures r.columns == Filter(t.columns, IsKept)
  {
    KeepColumns(t, IsKept)
  }

  /** Each column left by the drop is the original column at an increasing
      position, with its name and its cells. */
  lemma DropRankColumnsCells(t: Table, i: nat, k: nat)
    requires WellFormed(t) && i < |t.rows| && k < |DropRankColumns(t).columns|
    ensures var r := DropRankColumns(t);
            var idx := KeptColumns(t.columns);
            && |idx| == |r.columns|
            && idx[k] < |t.columns| && !IsRankColumn(t.columns[idx[k]])
            && (forall m :: k < m < |idx| ==> idx[k] < idx[m])
            && r.columns[k] == t.columns[idx[k]] && r.rows[i][k] == t.rows[i][idx[k]]
  {
  }

  // ---------------------------------------------------------------------------
  // Numeric coercion and the NaN fill (scraper.py:71-76, 121-123, 183-188)
  // ---------------------------------------------------------------------------

  /** Identity columns of player tables: never parsed. */
  const PlayerIdentity: set<string> := {"Player", "Nation", "Pos", "Squad", "Age", "Born"}

  /** Identity columns of team tables. */
  const TeamIdentity: set<string> := {"Squad", "Country"}

  /** `pd.to_numeric(x, errors='coerce')` followed by `.fillna(0)` on one cell;
      `parse` is the library's number grammar, None where it gives up. */
  function ToNumeric(parse: string -> Option<real>, c: Cell): (r: Cell)
    ensures r.Num?
    ensures c.Num? ==> r == c
    ensures c.Text? ==> r == if parse(c.s).Some? then Num(parse(c.s).value) else Num(0.0)
    ensures c.Missing? ==> r == Num(0.0)
  {
    match c
    case Num(_) => c
    case Text(s) => if parse(s).Some? then Num(parse(s).value) else Num(0.0)
    case Missing => Num(0.0)
  }

  /** One cell after the coercion loop: identity columns untouched. */
  function CoerceCell(parse: string -> Option<real>, identity: set<string>, name: string, c: Cell): Cell {
    if name in identity then c else ToNumeric(parse, c)
  }

  /** The table after the coercion loop, stated cell by cell. */
  function Coerced(t: Table, identity: set<string>, parse: string -> Option<real>): (r: Table)
    requires WellFormed(t)
    ensures WellFormed(r) && r.columns == t.columns && |r.rows| == |t.rows|
    ensures forall i, j :: 0 <= i < |t.rows| && 0 <= j < |t.columns| && t.columns[j] in identity ==>
              r.rows[i][j] == t.rows[i][j]
    ensures forall i, j :: 0 <= i < |t.rows| && 0 <= j < |t.columns| && t.columns[j] !in identity ==>
              r.rows[i][j] == ToNumeric(parse, t.rows[i][j])
  {
    Table(t.columns, seq(|t.rows|, i requires 0 <= i < |t.rows| =>
      seq(|t.columns|, j requires 0 <= j < |t.columns| => CoerceCell(parse, identity, t.columns[j], t.rows[i][j]))))
  }

  /** `df[col] = f(df[col])` for one column position. */
  function SetColumn(rows: seq<seq<Cell>>, j: nat, f: Cell -> Cell): (r: seq<seq<Cell>>)
    requires forall i :: 0 <= i < |rows| ==> j < |rows[i]|
    ensures |r| == |rows|
    ensures forall i :: 0 <= i < |rows| ==> r[i] == rows[i][j := f(rows[i][j])]
  {
    seq(|rows|, i requires 0 <= i < |rows| => rows[i][j := f(rows[i][j])])
  }

  /** The loop `for col in df.columns: if col not in non_numeric_cols:
      df[col] = pd.to_numeric(df[col], errors='coerce').fillna(0)`, one column
      reassigned per iteration. */
  method CoerceColumns(t: Table, identity: set<string>, parse: string -> Option<real>) returns (r: Table)
    requires WellFormed(t)
    ensures r == Coerced(t, identity, parse)
  {
    var rows := t.rows;
    for j := 0 to |t.columns|
      invariant |rows| == |t.rows| && Rectangular(|t.columns|, rows)
      invariant forall i, k :: 0 <= i < |rows| && 0 <= k < j ==>
                  rows[i][k] == CoerceCell(parse, identity, t.columns[k], t.rows[i][k])
      invariant forall i, k :: 0 <= i < |rows| && j <= k < |t.columns| ==> rows[i][k] == t.rows[i][k]
    {
      if t.columns[j] !in identity {
        rows := SetColumn(rows, j, (c: Cell) => ToNumeric(parse, c));
      }
    }
    var spec := Coerced(t, identity, parse);
    assert forall i :: 0 <= i < |rows| ==> rows[i] == spec.rows[i];
    r := Table(t.columns, rows);
  }

  function FillCell(c: Cell): (r: Cell)
    ensures r != Missing
    ensures c != Missing ==> r == c
  {
    if c == Missing then Num(0.0) else c
  }

  /** `df.fillna(0)`: no NaN is left, every other cell stays. */
  function FillNa(t: Table): (r: Table)
    requires WellFormed(t)
    ensures WellFormed(r) && r.columns == t.columns && |r.rows| == |t.rows|
    ensures forall i, j :: 0 <= i < |t.rows| && 0 <= j < |t.columns| ==>
              r.rows[i][j] == if t.rows[i][j] == Missing then Num(0.0) else t.rows[i][j]
  {
    Table(t.columns, seq(|t.rows|, i requires 0 <= i < |t.rows| =>
      seq(|t.columns|, j requires 0 <= j < |t.columns| => FillCell(t.rows[i][j]))))
  }

  /** Coercion followed by the fill, as scraper.py:71-76 and 183-188 do it. */
  function Normalized(t: Table, identity: set<string>, parse: string -> Option<real>): (r: Table)
    requires WellFormed(t)
    ensures WellFormed(r) && r.columns == t.columns && |r.rows| == |t.rows|
  {
    FillNa(Coerced(t, identity, parse))
  }

  /** After coercion and fill, every non-identity cell is a number, no cell is
      NaN, and an identity cell is its original text (or 0 where it was NaN). */
  lemma NormalizedCells(t: Table, identity: set<string>, parse: string -> Option<real>, i: nat, j: nat)
    requires WellFormed(t) && i < |t.rows| && j < |t.columns|
    ensures var c := Normalized(t, identity, parse).rows[i][j];
            && c != Missing
            && (t.columns[j] !in identity ==> c.Num?)
            && (t.columns[j] in identity ==> c == FillCell(t.rows[i][j]))
  {
  }

  /** Cleaning a cleaned table again changes nothing. */
  lemma NormalizedIdempotent(t: Table, identity: set<string>, parse: string -> Option<real>)
    requires WellFormed(t)
    ensures Normalized(Normalized(t, identity, parse), identity, parse) == Normalized(t, identity, parse)
  {
    var once := Normalized(t, identity, parse);
    var twice := Normalized(once, identity, parse);
    forall i, j | 0 <= i < |once.rows| && 0 <= j < |once.columns|
      ensures twice.rows[i][j] == once.rows[i][j]
    {
      NormalizedCells(t, identity, parse, i, j);
    }
    assert forall i :: 0 <= i < |once.rows| ==> twice.rows[i] == once.rows[i];
  }

  // ---------------------------------------------------------------------------
  // The three cleaning pipelines
  // ---------------------------------------------------------------------------

  /** The header-row mask and the flattening, shared by all three pipelines. */
  function Flattened(raw: RawTable): (t: Table)
    requires RawWellFormed(raw) && |raw.header| > 0
    ensures WellFormed(t) && |t.columns| == |raw.header|
    ensures t.columns == FlattenHeader(raw.header) && t.rows == DropHeaderRows(raw)
  {
    var rows := DropHeaderRows(raw);
    FilterRectangular(|raw.header|, raw.rows, (row: seq<Cell>) => !RepeatsHeader(row, raw.header[0]));
    Table(FlattenHeader(raw.header), rows)
  }

  /** A player table (scraper.py:61-76): mask, flatten, drop the rank and
      match-report columns, coerce every non-identity column, fill NaN. */
  function PlayerTable(raw: RawTable, parse: string -> Option<real>): (t: Table)
    requires RawWellFormed(raw) && |raw.header| > 0
    ensures WellFormed(t)
    ensures t.columns == Filter(FlattenHeader(raw.header), IsKept)
    ensures |t.rows| == |DropHeaderRows(raw)|
  {
    Normalized(DropRankColumns(Flattened(raw)), PlayerIdentity, parse)
  }

  /** The reference table (scraper.py:114-123): masked, flattened and coerced,
      but no column is dropped and NaN is left in identity columns. */
  function ReferenceTable(raw: RawTable, parse: string -> Option<real>): (t: Table)
    requires RawWellFormed(raw) && |raw.header| > 0
    ensures WellFormed(t) && t.columns == FlattenHeader(raw.header)
    ensures t.rows == Coerced(Flattened(raw), PlayerIdentity, parse).rows
  {
    Coerced(Flattened(raw), PlayerIdentity, parse)
  }

  /** A team table (scraper.py:175-188): no column drop, identity columns
      {Squad, Country}. */
  function TeamTable(raw: RawTable, parse: string -> Option<real>): (t: Table)
    requires RawWellFormed(raw) && |raw.header| > 0
    ensures WellFormed(t) && t.columns == FlattenHeader(raw.header)
    ensures |t.rows| == |DropHeaderRows(raw)|
  {
    Normalized(Flattened(raw), TeamIdentity, parse)
  }

  /** Every cell of a cleaned player table outside the identity columns is a
      number, no cell is NaN, and no column is a rank or match-report column. */
  lemma PlayerTableNumeric(raw: RawTable, parse: string -> Option<real>, i: nat, k: nat)
    requires RawWellFormed(raw) && |raw.header| > 0
    requires i < |PlayerTable(raw, parse).rows| && k < |PlayerTable(raw, parse).columns|
    ensures var t := PlayerTable(raw, parse);
            && t.rows[i][k] != Missing
            && !IsRankColumn(t.columns[k])
            && (t.columns[k] !in PlayerIdentity ==> t.rows[i][k].Num?)
  {
    var t := PlayerTable(raw, parse);
    NormalizedCells(DropRankColumns(Flattened(raw)), PlayerIdentity, parse, i, k);
    assert t.columns[k] in t.columns;
  }

  /** Same for team tables, with {Squad, Country} as the identity columns. */
  lemma TeamTableNumeric(raw: RawTable, parse: string -> Option<real>, i: nat, k: nat)
    requires RawWellFormed(raw) && |raw.header| > 0
    requires i < |TeamTable(raw, parse).rows| && k < |TeamTable(raw, parse).columns|
    ensures var t := TeamTable(raw, parse);
            && t.rows[i][k] != Missing
            && (t.columns[k] !in TeamIdentity ==> t.rows[i][k].Num?)
  {
    NormalizedCells(Flattened(raw), TeamIdentity, parse, i, k);
  }
}
