/** The radar charts (visuals_old.py): the population a player is ranked in,
    the `_top_pct` columns added feature by feature, and the values each trace
    is drawn from. Drawing itself (traces, labels, layout) is not modelled. */
module Radar {
  import opened Frames
  import opened Concatenation
  import opened Percentile

  // ---------------------------------------------------------------------------
  // Population (visuals_old.py:12, 111-114)
  // ---------------------------------------------------------------------------

  predicate Distinct(rows: seq<seq<Cell>>) {
    forall i, j :: 0 <= i < j < |rows| ==> rows[i] != rows[j]
  }

  /** `drop_duplicates()`: the first occurrence of every row, in the order
      of those first occurrences (DedupOrder). */
  function Dedup(rows: seq<seq<Cell>>): (r: seq<seq<Cell>>)
    ensures forall x :: x in r <==> x in rows
    ensures Distinct(r) && |r| <= |rows|
    ensures |rows| > 0 ==> |r| > 0 && r[0] == rows[0]
  {
    if |rows| == 0 then []
    else
      var n := |rows| - 1;
      var d := Dedup(rows[..n]);
      assert rows == rows[..n] + [rows[n]];
      if rows[n] in d then d else d + [rows[n]]
  }

  /** `r` lists rows of `rows` in the order of their first occurrences there. */
  predicate FirstOccurrenceOrder(r: seq<seq<Cell>>, rows: seq<seq<Cell>>) {
    forall k, m :: 0 <= k < m < |r| ==>
      r[k] in rows && r[m] in rows && IndexOf(rows, r[k]).value < IndexOf(rows, r[m]).value
  }

  /** The kept rows appear in `rows` in this order. */
  lemma {:induction false} DedupSubsequence(rows: seq<seq<Cell>>)
    ensures IsSubsequence(Dedup(rows), rows)
  {
    if |rows| > 0 {
      var n := |rows| - 1;
      var d := Dedup(rows[..n]);
      DedupSubsequence(rows[..n]);
      SubsequenceExtend(d, rows[..n], rows[n]);
      if rows[n] !in d {
        SubsequenceSnoc(d, rows[..n], rows[n]);
      }
      assert rows[..n] + [rows[n]] == rows;
    }
  }

  /** Each kept row sits before the first occurrence of every row kept after it. */
  lemma {:induction false} DedupOrder(rows: seq<seq<Cell>>)
    ensures FirstOccurrenceOrder(Dedup(rows), rows)
  {
    if |rows| > 0 {
      var n := |rows| - 1;
      var d := Dedup(rows[..n]);
      DedupOrder(rows[..n]);
      assert rows[..n] + [rows[n]] == rows;
      DedupStep(rows[..n], d, rows[n]);
    }
  }

  /** One more row: kept when it is new, at the end, after every earlier
      first occurrence. */
  lemma DedupStep(prefix: seq<seq<Cell>>, d: seq<seq<Cell>>, x: seq<Cell>)
    requires forall y :: y in d <==> y in prefix
    requires FirstOccurrenceOrder(d, prefix)
    ensures FirstOccurrenceOrder(if x in d then d else d + [x], prefix + [x])
  {
    if x in d {
      KnownRowStep(prefix, d, x);
    } else {
      NewRowStep(prefix, d, x);
    }
  }

  /** A row seen before leaves the first occurrences where they were. */
  lemma KnownRowStep(prefix: seq<seq<Cell>>, d: seq<seq<Cell>>, x: seq<Cell>)
    requires forall y :: y in d ==> y in prefix
    requires FirstOccurrenceOrder(d, prefix)
    ensures FirstOccurrenceOrder(d, prefix + [x])
  {
    var p := prefix + [x];
    forall k, m | 0 <= k < m < |d|
      ensures d[k] in p && d[m] in p && IndexOf(p, d[k]).value < IndexOf(p, d[m]).value
    {
      assert d[k] in prefix && d[m] in prefix;
      IndexOfAppend(prefix, x, d[k]);
      IndexOfAppend(prefix, x, d[m]);
    }
  }

  /** A new row has its first occurrence after all earlier ones. */
  lemma NewRowStep(prefix: seq<seq<Cell>>, d: seq<seq<Cell>>, x: seq<Cell>)
    requires forall y :: y in d ==> y in prefix
    requires x !in prefix
    requires FirstOccurrenceOrder(d, prefix)
    ensures FirstOccurrenceOrder(d + [x], prefix + [x])
  {
    var p := prefix + [x];
    var r := d + [x];
    IndexOfAppend(prefix, x, x);
    forall k, m | 0 <= k < m < |r|
      ensures r[k] in p && r[m] in p && IndexOf(p, r[k]).value < IndexOf(p, r[m]).value
    {
      assert r[k] == d[k] && d[k] in prefix;
      IndexOfAppend(prefix, x, d[k]);
      if m < |d| {
        assert r[m] == d[m] && d[m] in prefix;
        IndexOfAppend(prefix, x, d[m]);
      } else {
        assert r[m] == x;
      }
    }
  }

  /** Rows that are already distinct are left as they are. */
  lemma {:induction false} DedupDistinct(rows: seq<seq<Cell>>)
    requires Distinct(rows)
    ensures Dedup(rows) == rows
  {
    if |rows| > 0 {
      var n := |rows| - 1;
      DedupDistinct(rows[..n]);
      assert rows[n] !in rows[..n];
      assert rows == rows[..n] + [rows[n]];
    }
  }

  /** `pd.concat([selected, checkbox, comparison])`: a missing checkbox frame
      (None) is dropped from the list. */
  function FramesToConcat(subject: Table, checkbox: Option<Table>, comparison: Table): seq<Table> {
    [subject] + (if checkbox.Some? then [checkbox.value] else []) + [comparison]
  }

  /** The population of plot_radar_comparison: the three frames concatenated,
      exact duplicate rows dropped. */
  function Population(subject: Table, checkbox: Option<Table>, comparison: Table): (pop: Table)
    ensures WellFormed(pop) && Distinct(pop.rows)
  {
    var c := Concat(FramesToConcat(subject, checkbox, comparison));
    var rows := Dedup(c.rows);
    assert forall i :: 0 <= i < |rows| ==> rows[i] in c.rows;
    Table(c.columns, rows)
  }

  /** The subject's first row is row 0 of the population and appears nowhere
      else in it, so it is never part of the group slice. */
  lemma SubjectIsRowZero(subject: Table, checkbox: Option<Table>, comparison: Table)
    requires |subject.rows| > 0
    ensures var pop := Population(subject, checkbox, comparison);
            && |pop.rows| > 0
            && pop.rows[0] == Align(subject.columns, subject.rows[0], pop.columns)
            && forall k :: 1 <= k < |pop.rows| ==> pop.rows[k] != pop.rows[0]
  {
    var ts := FramesToConcat(subject, checkbox, comparison);
    StackRowsAt(ts, UnionColumns(ts), 0, 0);
  }

  /** The population is the concatenation of the three frames with each row
      kept once: the concatenation's columns, its rows and no others, in the
      order of their first occurrences there. */
  lemma PopulationRows(subject: Table, checkbox: Option<Table>, comparison: Table)
    ensures var c := Concat(FramesToConcat(subject, checkbox, comparison));
            var pop := Population(subject, checkbox, comparison);
            && pop.columns == c.columns
            && (forall row :: row in pop.rows <==> row in c.rows)
            && IsSubsequence(pop.rows, c.rows)
            && FirstOccurrenceOrder(pop.rows, c.rows)
  {
    var c := Concat(FramesToConcat(subject, checkbox, comparison));
    DedupSubsequence(c.rows);
    DedupOrder(c.rows);
  }

  /** With a checkbox frame, its first row is row 1 of the population (the
      row drawn as the second trace) whenever it differs from the subject's
      row once both are aligned to the population's columns. */
  lemma CheckboxIsRowOne(subject: Table, checkbox: Table, comparison: Table)
    requires |subject.rows| == 1 && |checkbox.rows| >= 1
    requires var cols := Population(subject, Some(checkbox), comparison).columns;
             Align(checkbox.columns, checkbox.rows[0], cols) != Align(subject.columns, subject.rows[0], cols)
    ensures var pop := Population(subject, Some(checkbox), comparison);
            && |pop.rows| >= 2
            && pop.rows[1] == Align(checkbox.columns, checkbox.rows[0], pop.columns)
  {
    var ts := FramesToConcat(subject, Some(checkbox), comparison);
    var c := Concat(ts);
    assert ts[0] == subject && ts[1] == checkbox;
    StackRowsAt(ts, c.columns, 0, 0);
    StackRowsAt(ts, c.columns, 1, 0);
    assert RowsBefore(ts, 1) == 1 by {
      assert RowsBefore(ts[1..], 0) == 0;
    }
    DedupSecond(c.rows);
  }

  /** A second row that differs from the first is kept as the second row. */
  lemma DedupSecond(rows: seq<seq<Cell>>)
    requires |rows| >= 2 && rows[1] != rows[0]
    ensures |Dedup(rows)| >= 2 && Dedup(rows)[1] == rows[1]
  {
    var two := rows[..2];
    assert two[..1] == [rows[0]] && two[1] == rows[1];
    assert Dedup([rows[0]]) == [rows[0]] by {
      assert [rows[0]][..0] == [];
    }
    assert Dedup(two) == [rows[0], rows[1]];
    DedupPrefix(rows, 2);
  }

  /** Dropping duplicates from a prefix gives a prefix of the result: rows
      already kept are never moved by later ones. */
  lemma {:induction false} DedupPrefix(rows: seq<seq<Cell>>, k: nat)
    requires k <= |rows|
    ensures Dedup(rows[..k]) <= Dedup(rows)
    decreases |rows|
  {
    if k < |rows| {
      var n := |rows| - 1;
      DedupPrefix(rows[..n], k);
      assert rows[..n][..k] == rows[..k];
    } else {
      assert rows[..k] == rows;
    }
  }

  /** Without a checkbox frame the first comparison row takes the checkbox
      position: for a one-row subject and distinct rows sharing one column
      list, row 1 is the first comparison row and the group slice is the
      comparison rows after it. */
  lemma MissingCheckboxShiftsGroup(subject: Table, comparison: Table)
    requires NoDuplicates(subject.columns) && comparison.columns == subject.columns
    requires WellFormed(subject) && WellFormed(comparison)
    requires |subject.rows| == 1 && |comparison.rows| >= 1
    requires Distinct(subject.rows + comparison.rows)
    ensures var pop := Population(subject, None, comparison);
            && pop.columns == subject.columns
            && pop.rows == subject.rows + comparison.rows
            && pop.rows[1] == comparison.rows[0]
            && pop.rows[2..] == comparison.rows[1..]
  {
    var rows := subject.rows + comparison.rows;
    TwoFramesConcat(subject, comparison);
    DedupDistinct(rows);
    var pop := Population(subject, None, comparison);
    assert pop.columns == subject.columns && pop.rows == Dedup(rows);
    assert rows[1] == comparison.rows[0];
    assert rows[2..] == comparison.rows[1..];
  }

  /** Two frames with the same columns concatenate to their rows one after
      the other under those columns. */
  lemma TwoFramesConcat(subject: Table, comparison: Table)
    requires NoDuplicates(subject.columns) && comparison.columns == subject.columns
    requires WellFormed(subject) && WellFormed(comparison)
    ensures Concat(FramesToConcat(subject, None, comparison)) == Table(subject.columns, subject.rows + comparison.rows)
  {
    var ts := FramesToConcat(subject, None, comparison);
    assert ts == [subject, comparison];
    ConcatSame(ts, subject.columns);
    assert ts[1..] == [comparison] && ts[1..][1..] == [];
    assert AllRows(ts[1..]) == comparison.rows + [];
  }

  // ---------------------------------------------------------------------------
  // Feature columns and the `_top_pct` loop (visuals_old.py:8-9, 19-21, 119-121)
  // ---------------------------------------------------------------------------

  /** `scaled_df`: a frame of real-valued columns by name. */
  type Columns = map<string, seq<real>>

  const Suffix := "_top_pct"

  /** A feature cell as a number; a cell that is not a number is read as 0. */
  function Value(c: Cell): real {
    if c.Num? then c.x else 0.0
  }

  /** One column of a table as numbers. */
  function Column(t: Table, f: string): (col: seq<real>)
    ensures |col| == |t.rows|
    ensures forall i :: 0 <= i < |t.rows| ==> col[i] == Value(Lookup(t.columns, t.rows[i], f))
  {
    seq(|t.rows|, i requires 0 <= i < |t.rows| => Value(Lookup(t.columns, t.rows[i], f)))
  }

  /** `select_dtypes(include=np.number).columns`: the columns holding only numbers. */
  function NumericColumns(t: Table): (cols: seq<string>)
    ensures forall c :: c in cols <==> c in t.columns && forall row :: row in t.rows ==> Lookup(t.columns, row, c).Num?
    ensures IsSubsequence(cols, t.columns)
  {
    Filter(t.columns, (c: string) => forall row :: row in t.rows ==> Lookup(t.columns, row, c).Num?)
  }

  predicate Uniform(m: Columns, n: nat) {
    forall key :: key in m ==> |m[key]| == n
  }

  /** `combined_df[features].copy()`. */
  function Selected(t: Table, features: seq<string>): (m: Columns)
    ensures Uniform(m, |t.rows|)
    ensures forall f :: f in m <==> f in features
    ensures forall f :: f in features ==> m[f] == Column(t, f)
  {
    map f | f in features :: Column(t, f)
  }

  /** One turn of the loop: `scaled_df[feature + "_top_pct"] = true_top_percentile(scaled_df[feature])`. */
  function ScaleStep(m: Columns, f: string): (r: Columns)
    requires f in m
    ensures forall key :: key in r <==> key in m || key == f + Suffix
    ensures r[f + Suffix] == TrueTopPercentile(m[f])
    ensures forall key :: key in m && key != f + Suffix ==> r[key] == m[key]
  {
    m[f + Suffix := TrueTopPercentile(m[f])]
  }

  /** The frame after the loop has run over `features` in order. */
  function Scaled(m: Columns, features: seq<string>): (r: Columns)
    requires forall f :: f in features ==> f in m
    ensures forall key :: key in m ==> key in r
    ensures forall f :: f in features ==> f + Suffix in r
    decreases |features|
  {
    if |features| == 0 then m
    else Scaled(ScaleStep(m, features[0]), features[1..])
  }

  /** The loop at visuals_old.py:19-21 (and 119-121), updating the frame in place. */
  method ScaleFeatures(m: Columns, features: seq<string>) returns (scaled: Columns)
    requires forall f :: f in features ==> f in m
    ensures scaled == Scaled(m, features)
  {
    scaled := m;
    for k := 0 to |features|
      invariant forall f :: f in features ==> f in scaled
      invariant Scaled(scaled, features[k..]) == Scaled(m, features)
    {
      assert features[k..][1..] == features[k + 1..];
      scaled := scaled[features[k] + Suffix := TrueTopPercentile(scaled[features[k]])];
    }
  }

  /** No feature is another feature's `_top_pct` column. */
  predicate NoCollision(features: seq<string>) {
    forall f, g :: f in features && g in features ==> f != g + Suffix
  }

  /** A column the loop never writes keeps its values. */
  lemma {:induction false} ScaledUntouched(m: Columns, features: seq<string>, key: string)
    requires forall f :: f in features ==> f in m
    requires key in m && forall g :: g in features ==> key != g + Suffix
    ensures Scaled(m, features)[key] == m[key]
    decreases |features|
  {
    if |features| > 0 {
      ScaledUntouched(ScaleStep(m, features[0]), features[1..], key);
    }
  }

  /** Without collisions each feature keeps its values and its `_top_pct`
      column holds the feature's top percentages. */
  lemma {:induction false} ScaledColumns(m: Columns, features: seq<string>, f: string)
    requires forall g :: g in features ==> g in m
    requires NoCollision(features) && f in features
    ensures Scaled(m, features)[f] == m[f]
    ensures Scaled(m, features)[f + Suffix] == TrueTopPercentile(m[f])
    decreases |features|
  {
    ScaledUntouched(m, features, f);
    var g := features[0];
    var m' := ScaleStep(m, g);
    assert NoCollision(features[1..]) by {
      forall f1, g1 | f1 in features[1..] && g1 in features[1..] ensures f1 != g1 + Suffix {
        assert f1 in features && g1 in features;
      }
    }
    if f in features[1..] {
      ScaledColumns(m', features[1..], f);
    } else {
      assert f == g;
      forall h | h in features[1..] ensures f + Suffix != h + Suffix {
        assert h != f;
        if |h| == |f| {
          assert (f + Suffix)[..|f|] == f && (h + Suffix)[..|h|] == h;
        }
      }
      ScaledUntouched(m', features[1..], f + Suffix);
    }
  }

  /** Two features whose names collide: "a" writes the column "a_top_pct",
      which the second feature then reads and ranks in place of its own
      values. */
  lemma CollidingFeatureRanksPercentiles()
    ensures var m := map["a" := [1.0, 2.0], "a_top_pct" := [9.0, 9.0]];
            Scaled(m, ["a", "a_top_pct"])["a_top_pct_top_pct"] == TrueTopPercentile(TrueTopPercentile([1.0, 2.0]))
  {
    var m := map["a" := [1.0, 2.0], "a_top_pct" := [9.0, 9.0]];
    var fs := ["a", "a_top_pct"];
    assert "a" + Suffix == "a_top_pct" && "a_top_pct" + Suffix == "a_top_pct_top_pct";
    var m1 := ScaleStep(m, "a");
    assert m1["a_top_pct"] == TrueTopPercentile([1.0, 2.0]);
    var m2 := ScaleStep(m1, "a_top_pct");
    assert m2["a_top_pct_top_pct"] == TrueTopPercentile(TrueTopPercentile([1.0, 2.0]));
    assert fs[1..] == ["a_top_pct"] && fs[1..][1..] == [];
    assert Scaled(m, fs) == Scaled(m1, ["a_top_pct"]) == Scaled(m2, []) == m2;
  }

  // ---------------------------------------------------------------------------
  // plot_radar_comparison (visuals_old.py:6-39)
  // ---------------------------------------------------------------------------

  /** The numbers the comparison chart is drawn from, one entry per feature. */
  datatype Comparison = Comparison(
    features: seq<string>,
    playerRadar: seq<real>,          // 100 - top_pct of row 0
    checkboxRadar: seq<real>,        // 100 - top_pct of row 1
    groupRadar: seq<Option<real>>,   // 100 - mean top_pct over rows 2.. (NaN when empty)
    playerActuals: seq<real>,
    checkboxActuals: seq<real>,
    groupActuals: seq<Option<real>>,
    playerTopPct: seq<real>,
    showsCheckbox: bool)

  datatype Chart<T> = Drawn(chart: T) | Failed(exception: string)

  /** The scaled frame holds every feature and its `_top_pct` column, all of
      length `n`. */
  predicate Ready(scaled: Columns, features: seq<string>, n: nat) {
    Uniform(scaled, n) && forall f :: f in features ==> f in scaled && f + Suffix in scaled
  }

  /** The loop adds columns as long as the frame's. */
  lemma {:induction false} ScaledUniform(m: Columns, features: seq<string>, n: nat)
    requires forall f :: f in features ==> f in m
    requires Uniform(m, n)
    ensures Uniform(Scaled(m, features), n)
    decreases |features|
  {
    if |features| > 0 {
      ScaledUniform(ScaleStep(m, features[0]), features[1..], n);
    }
  }

  lemma ScaledReady(t: Table, features: seq<string>)
    ensures Ready(Scaled(Selected(t, features), features), features, |t.rows|)
  {
    ScaledUniform(Selected(t, features), features, |t.rows|);
  }

  /** Row `i`'s radar values: `100 - row[feature + "_top_pct"]` per feature. */
  function RadarAt(scaled: Columns, features: seq<string>, n: nat, i: nat): (r: seq<real>)
    requires Ready(scaled, features, n) && i < n
    ensures |r| == |features|
    ensures forall k :: 0 <= k < |features| ==> r[k] == 100.0 - scaled[features[k] + Suffix][i]
  {
    seq(|features|, k requires 0 <= k < |features| => 100.0 - scaled[features[k] + Suffix][i])
  }

  /** Row `i`'s value under each feature column. */
  function ValuesAt(scaled: Columns, features: seq<string>, n: nat, i: nat): (r: seq<real>)
    requires Ready(scaled, features, n) && i < n
    ensures |r| == |features|
    ensures forall k :: 0 <= k < |features| ==> r[k] == scaled[features[k]][i]
  {
    seq(|features|, k requires 0 <= k < |features| => scaled[features[k]][i])
  }

  /** Row `i`'s top percentage per feature. */
  function TopPctAt(scaled: Columns, features: seq<string>, n: nat, i: nat): (r: seq<real>)
    requires Ready(scaled, features, n) && i < n
    ensures |r| == |features|
    ensures forall k :: 0 <= k < |features| ==> r[k] == scaled[features[k] + Suffix][i]
  {
    seq(|features|, k requires 0 <= k < |features| => scaled[features[k] + Suffix][i])
  }

  function Minus100(m: Option<real>): Option<real> {
    if m.Some? then Some(100.0 - m.value) else None
  }

  /** Per feature, the mean of a column's entries from row `from` on (NaN when
      there are none), as a radar value (`100 - mean`) or as it is. */
  function MeansFrom(scaled: Columns, features: seq<string>, n: nat, from: nat, radar: bool): (r: seq<Option<real>>)
    requires Ready(scaled, features, n) && from <= n
    ensures |r| == |features|
    ensures forall k :: 0 <= k < |features| ==> (r[k].Some? <==> from < n)
    ensures radar ==> forall k :: 0 <= k < |features| ==> r[k] == Minus100(Mean(scaled[features[k] + Suffix][from..]))
    ensures !radar ==> forall k :: 0 <= k < |features| ==> r[k] == Mean(scaled[features[k]][from..])
  {
    seq(|features|, k requires 0 <= k < |features| =>
      if radar then Minus100(Mean(scaled[features[k] + Suffix][from..])) else Mean(scaled[features[k]][from..]))
  }

  /** `plot_radar_comparison(selected, comparison, name, features, group name,
      checkbox, checkbox name)`: `features` None means the subject's numeric
      columns; a feature the population lacks is a `KeyError`; a population
      of fewer than two rows is an `IndexError` at `iloc[1]`. */
  function RadarComparison(subject: Table, comparison: Table, features: Option<seq<string>>,
                           checkbox: Option<Table>, checkboxName: Option<string>): (r: Chart<Comparison>)
    ensures var fs := if features.Some? then features.value else NumericColumns(subject);
            var pop := Population(subject, checkbox, comparison);
            && (r.Failed? <==> |pop.rows| < 2 || exists f :: f in fs && f !in pop.columns)
            && (r.Drawn? ==> r.chart.features == fs)
  {
    var fs := if features.Some? then features.value else NumericColumns(subject);
    var pop := Population(subject, checkbox, comparison);
    if exists f :: f in fs && f !in pop.columns then Failed("KeyError")
    else
      var n := |pop.rows|;
      var scaled := Scaled(Selected(pop, fs), fs);
      ScaledReady(pop, fs);
      if n < 2 then Failed("IndexError")
      else
        Drawn(Comparison(
          fs,
          RadarAt(scaled, fs, n, 0),
          RadarAt(scaled, fs, n, 1),
          MeansFrom(scaled, fs, n, 2, true),
          ValuesAt(scaled, fs, n, 0),
          ValuesAt(scaled, fs, n, 1),
          MeansFrom(scaled, fs, n, 2, false),
          TopPctAt(scaled, fs, n, 0),
          checkbox.Some? && |checkbox.value.rows| > 0 && checkboxName.Some?))
  }

  /** Without `features`, the chart uses exactly the subject's numeric columns. */
  lemma DefaultFeatures(subject: Table, comparison: Table, checkbox: Option<Table>, checkboxName: Option<string>)
    requires RadarComparison(subject, comparison, None, checkbox, checkboxName).Drawn?
    ensures forall f :: f in RadarComparison(subject, comparison, None, checkbox, checkboxName).chart.features <==>
              f in subject.columns && forall row :: row in subject.rows ==> Lookup(subject.columns, row, f).Num?
  {
  }

  /** For a feature `k` whose name collides with no other feature's
      `_top_pct` column, row `i`'s radar value is its magnitude in the
      feature's column: in (0, 100], and 100 exactly when the row holds the
      column's strict maximum. */
  lemma DrawnRadarAt(pop: Table, fs: seq<string>, k: nat, i: nat)
    requires NoCollision(fs) && k < |fs| && i < |pop.rows|
    ensures var n := |pop.rows|;
            var scaled := Scaled(Selected(pop, fs), fs);
            var col := Column(pop, fs[k]);
            && Ready(scaled, fs, n)
            && RadarAt(scaled, fs, n, i)[k] == Magnitude(RankMin(col, col[i]), n)
            && 0.0 < RadarAt(scaled, fs, n, i)[k] <= 100.0
            && (RadarAt(scaled, fs, n, i)[k] == 100.0 <==> forall j :: 0 <= j < n && j != i ==> col[j] < col[i])
  {
    var n := |pop.rows|;
    var col := Column(pop, fs[k]);
    var scaled := Scaled(Selected(pop, fs), fs);
    ScaledReady(pop, fs);
    ScaledColumns(Selected(pop, fs), fs, fs[k]);
    assert RadarAt(scaled, fs, n, i)[k] == 100.0 - TrueTopPercentile(col)[i];
    RadarMagnitude(col, i);
  }

  /** Row `i`'s actual value for feature `k` is its own value in the table,
      and its top percentage is the feature column's `true_top_percentile`. */
  lemma DrawnValueAt(pop: Table, fs: seq<string>, k: nat, i: nat)
    requires NoCollision(fs) && k < |fs| && i < |pop.rows|
    ensures var n := |pop.rows|;
            var scaled := Scaled(Selected(pop, fs), fs);
            var col := Column(pop, fs[k]);
            && Ready(scaled, fs, n)
            && ValuesAt(scaled, fs, n, i)[k] == col[i] == Value(Lookup(pop.columns, pop.rows[i], fs[k]))
            && TopPctAt(scaled, fs, n, i)[k] == TrueTopPercentile(col)[i]
  {
    ScaledReady(pop, fs);
    ScaledColumns(Selected(pop, fs), fs, fs[k]);
  }

  /** The group's radar value for feature `k` is the mean of the magnitudes
      of rows `from`.., in (0, 100], and absent exactly when there are no such
      rows. */
  lemma DrawnGroupValue(pop: Table, fs: seq<string>, k: nat, from: nat)
    requires NoCollision(fs) && k < |fs| && from <= |pop.rows|
    ensures var n := |pop.rows|;
            var scaled := Scaled(Selected(pop, fs), fs);
            var col := Column(pop, fs[k]);
            && Ready(scaled, fs, n)
            && var g := MeansFrom(scaled, fs, n, from, true)[k];
               && (g.Some? <==> from < n)
               && (g.Some? ==> g.value == Mean(Complement(TrueTopPercentile(col)[from..])).value && 0.0 < g.value <= 100.0)
  {
    var col := Column(pop, fs[k]);
    var scaled := Scaled(Selected(pop, fs), fs);
    ScaledReady(pop, fs);
    ScaledColumns(Selected(pop, fs), fs, fs[k]);
    var g := MeansFrom(scaled, fs, |pop.rows|, from, true)[k];
    assert g == Minus100(Mean(TrueTopPercentile(col)[from..]));
    if from < |pop.rows| {
      GroupRadarValue(col, from);
    }
  }

  /** A drawn comparison chart shows exactly the values above, computed over
      the assembled population. */
  lemma ComparisonValues(subject: Table, comparison: Table, features: Option<seq<string>>,
                         checkbox: Option<Table>, checkboxName: Option<string>)
    requires RadarComparison(subject, comparison, features, checkbox, checkboxName).Drawn?
    ensures var c := RadarComparison(subject, comparison, features, checkbox, checkboxName).chart;
            var pop := Population(subject, checkbox, comparison);
            var n := |pop.rows|;
            var scaled := Scaled(Selected(pop, c.features), c.features);
            && n >= 2 && Ready(scaled, c.features, n)
            && c.playerRadar == RadarAt(scaled, c.features, n, 0)
            && c.checkboxRadar == RadarAt(scaled, c.features, n, 1)
            && c.groupRadar == MeansFrom(scaled, c.features, n, 2, true)
            && c.playerActuals == ValuesAt(scaled, c.features, n, 0)
            && c.checkboxActuals == ValuesAt(scaled, c.features, n, 1)
            && c.groupActuals == MeansFrom(scaled, c.features, n, 2, false)
            && c.playerTopPct == TopPctAt(scaled, c.features, n, 0)
  {
    var pop := Population(subject, checkbox, comparison);
    var fs := if features.Some? then features.value else NumericColumns(subject);
    ScaledReady(pop, fs);
  }

  // ---------------------------------------------------------------------------
  // mini_radar_chart (visuals_old.py:102-159)
  // ---------------------------------------------------------------------------

  /** The numbers a small chart is drawn from. */
  datatype Mini = Mini(playerRadar: seq<real>, groupRadar: Option<seq<Option<real>>>)

  /** Its population: the player frame followed by the group frame, without
      dropping duplicates; the player frame alone when there is no group. */
  function MiniPopulation(player: Table, group: Option<Table>): (pop: Table)
    ensures group.None? ==> pop == player
    ensures group.Some? ==> pop == Concat([player, group.value])
  {
    if group.Some? then Concat([player, group.value]) else player
  }

  /** `mini_radar_chart(player_df, features, name, comparison_group_df)`: the
      player's radar value per feature from row 0, and with a group, the group
      value from the mean over rows 1... */
  function MiniRadar(player: Table, features: seq<string>, group: Option<Table>): (r: Chart<Mini>)
    ensures r.Drawn? ==> |r.chart.playerRadar| == |features|
    ensures r.Drawn? ==> (r.chart.groupRadar.Some? <==> group.Some?)
  {
    var pop := MiniPopulation(player, group);
    if exists f :: f in features && f !in pop.columns then Failed("KeyError")
    else
      var n := |pop.rows|;
      var scaled := Scaled(Selected(pop, features), features);
      ScaledReady(pop, features);
      if n == 0 then Failed("IndexError")
      else
        Drawn(Mini(
          RadarAt(scaled, features, n, 0),
          if group.Some? then Some(MeansFrom(scaled, features, n, 1, true)) else None))
  }

  /** With no group and a single player row every radar value is 100. */
  lemma MiniRadarAlone(player: Table, features: seq<string>)
    requires |player.rows| == 1
    requires forall f :: f in features ==> f in player.columns
    ensures MiniRadar(player, features, None).Drawn?
    ensures forall k :: 0 <= k < |features| ==> MiniRadar(player, features, None).chart.playerRadar[k] == 100.0
  {
    var m := Selected(player, features);
    ScaledSingleRow(m, features, {});
    ScaledReady(player, features);
  }

  /** Over a single row every `_top_pct` column the loop writes is [0], and
      stays so, whatever the feature names: the row ranks 1 of 1. Keys in
      `done` already hold [0] and keep it. */
  lemma {:induction false} ScaledSingleRow(m: Columns, features: seq<string>, done: set<string>)
    requires Uniform(m, 1) && forall f :: f in features ==> f in m
    requires forall key :: key in done ==> key in m && m[key] == [0.0]
    ensures var r := Scaled(m, features);
            && (forall key :: key in done ==> r[key] == [0.0])
            && (forall f :: f in features ==> r[f + Suffix] == [0.0])
    decreases |features|
  {
    if |features| > 0 {
      var f0 := features[0];
      var col := m[f0];
      assert CountLess(col, col[0]) == 0 by {
        assert col == [col[0]];
        CountLessAppend([], [col[0]], col[0]);
      }
      assert TrueTopPercentile(col) == [0.0];
      var next := ScaleStep(m, f0);
      ScaledSingleRow(next, features[1..], done + {f0 + Suffix});
      forall f | f in features
        ensures Scaled(m, features)[f + Suffix] == [0.0]
      {
        if f != f0 {
          assert f in features[1..];
        }
      }
    }
  }

  /** With a group, the group value averages the magnitudes of every row
      after the first, lies in (0, 100], and is absent exactly when the
      concatenation has a single row. */
  lemma MiniRadarGroup(player: Table, features: seq<string>, group: Table, k: nat)
    requires NoCollision(features) && k < |features|
    requires MiniRadar(player, features, Some(group)).Drawn?
    ensures var pop := Concat([player, group]);
            var col := Column(pop, features[k]);
            var g := MiniRadar(player, features, Some(group)).chart.groupRadar.value[k];
            && (g.Some? <==> |pop.rows| > 1)
            && (g.Some? ==> g.value == Mean(Complement(TrueTopPercentile(col)[1..])).value && 0.0 < g.value <= 100.0)
  {
    var pop := Concat([player, group]);
    DrawnGroupValue(pop, features, k, 1);
  }
}
