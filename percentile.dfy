/** `true_top_percentile` (visuals_old.py:15-16, 116-117): each value's
    "top X%" within its column, from its minimum-tie-break rank, and the radar
    magnitude `100 - top X%` drawn from it (visuals_old.py:29-31, 125, 141-142). */
module Percentile {
  import opened Frames

  /** How many entries of `col` are strictly smaller than `v`. */
  function CountLess(col: seq<real>, v: real): (n: nat)
    ensures n <= |col|
  {
    if |col| == 0 then 0 else (if col[0] < v then 1 else 0) + CountLess(col[1..], v)
  }

  /** `rankdata(col, method="min")` of a value: one more than the number of
      strictly smaller entries, so tied values share the lowest rank. */
  function RankMin(col: seq<real>, v: real): nat {
    1 + CountLess(col, v)
  }

  lemma {:induction false} CountLessAppend(a: seq<real>, b: seq<real>, v: real)
    ensures CountLess(a + b, v) == CountLess(a, v) + CountLess(b, v)
  {
    if |a| > 0 {
      assert (a + b)[1..] == a[1..] + b;
      CountLessAppend(a[1..], b, v);
    } else {
      assert a + b == b;
    }
  }

  /** Every entry is below `v` exactly when all of them are counted. */
  lemma {:induction false} CountLessAll(col: seq<real>, v: real)
    ensures CountLess(col, v) == |col| <==> forall j :: 0 <= j < |col| ==> col[j] < v
  {
    if |col| > 0 {
      CountLessAll(col[1..], v);
      assert forall j :: 1 <= j < |col| ==> col[j] == col[1..][j - 1];
    }
  }

  /** A larger value has at least as many entries below it. */
  lemma {:induction false} CountLessMonotone(col: seq<real>, v: real, w: real)
    requires v <= w
    ensures CountLess(col, v) <= CountLess(col, w)
  {
    if |col| > 0 {
      CountLessMonotone(col[1..], v, w);
    }
  }

  /** An entry's own rank lies in 1..N, and it is N exactly when every other
      entry is strictly smaller. */
  lemma RankOfEntry(col: seq<real>, i: nat)
    requires i < |col|
    ensures 1 <= RankMin(col, col[i]) <= |col|
    ensures RankMin(col, col[i]) == |col| <==> forall j :: 0 <= j < |col| && j != i ==> col[j] < col[i]
  {
    var v := col[i];
    assert col == col[..i] + ([col[i]] + col[i + 1..]);
    CountLessAppend(col[..i], [col[i]] + col[i + 1..], v);
    CountLessAppend([col[i]], col[i + 1..], v);
    assert CountLess([col[i]], v) == 0;
    CountLessAll(col[..i], v);
    CountLessAll(col[i + 1..], v);
    assert forall j :: 0 <= j < i ==> col[j] == col[..i][j];
    assert forall j :: i < j < |col| ==> col[j] == col[i + 1..][j - i - 1];
  }

  /** The radar magnitude of a rank among `n` values: `100 * rank / n`. */
  function Magnitude(rank: nat, n: nat): real
    requires n > 0
  {
    100.0 * (rank as real / n as real)
  }

  /** `(1 - rank/n) * 100`, the "top X%" of a rank among `n` values. */
  function TopOf(rank: nat, n: nat): real
    requires n > 0
  {
    (1.0 - rank as real / n as real) * 100.0
  }

  /** The two are complementary, and a rank in 1..n gives a top percentage in
      [0, 100) and a magnitude in (0, 100]; a larger rank gives a smaller top
      percentage. */
  lemma TopOfBounds(rank: nat, n: nat)
    requires 1 <= rank <= n
    ensures 100.0 - TopOf(rank, n) == Magnitude(rank, n)
    ensures 0.0 <= TopOf(rank, n) < 100.0
    ensures 0.0 < Magnitude(rank, n) <= 100.0
    ensures Magnitude(rank, n) == 100.0 <==> rank == n
    ensures TopOf(rank, n) == 0.0 <==> rank == n
  {
    var q := rank as real / n as real;
    assert q * n as real == rank as real;
    assert 0.0 < q <= 1.0;
    assert q == 1.0 <==> rank == n;
  }

  lemma TopOfMonotone(r1: nat, r2: nat, n: nat)
    requires n > 0 && r1 <= r2
    ensures TopOf(r2, n) <= TopOf(r1, n)
  {
    var q1 := r1 as real / n as real;
    var q2 := r2 as real / n as real;
    assert q1 * n as real == r1 as real && q2 * n as real == r2 as real;
    assert q1 <= q2;
  }

  /** `true_top_percentile(col)`. An empty column gives an empty result. */
  function TrueTopPercentile(col: seq<real>): (r: seq<real>)
    ensures |r| == |col|
    ensures forall i :: 0 <= i < |col| ==> r[i] == TopOf(RankMin(col, col[i]), |col|)
  {
    seq(|col|, i requires 0 <= i < |col| => TopOf(RankMin(col, col[i]), |col|))
  }

  /** Every value's top percentage lies in [0, 100); tied values share it, and
      a larger raw value never has a larger top percentage. */
  lemma TopPercentileProperties(col: seq<real>, i: nat, j: nat)
    requires i < |col| && j < |col|
    ensures 0.0 <= TrueTopPercentile(col)[i] < 100.0
    ensures col[i] == col[j] ==> TrueTopPercentile(col)[i] == TrueTopPercentile(col)[j]
    ensures col[i] <= col[j] ==> TrueTopPercentile(col)[j] <= TrueTopPercentile(col)[i]
  {
    RankOfEntry(col, i);
    TopOfBounds(RankMin(col, col[i]), |col|);
    if col[i] <= col[j] {
      CountLessMonotone(col, col[i], col[j]);
      TopOfMonotone(RankMin(col, col[i]), RankMin(col, col[j]), |col|);
    }
  }

  /** `100 - top_pct`: the magnitude lies in (0, 100] and is exactly 100 iff the
      value is strictly above every other entry (a maximum shared with another
      entry ranks below the top). */
  lemma RadarMagnitude(col: seq<real>, i: nat)
    requires i < |col|
    ensures 100.0 - TrueTopPercentile(col)[i] == Magnitude(RankMin(col, col[i]), |col|)
    ensures 0.0 < 100.0 - TrueTopPercentile(col)[i] <= 100.0
    ensures 100.0 - TrueTopPercentile(col)[i] == 100.0 <==> forall j :: 0 <= j < |col| && j != i ==> col[j] < col[i]
  {
    RankOfEntry(col, i);
    TopOfBounds(RankMin(col, col[i]), |col|);
  }

  /** A maximum shared by two entries ranks below 100 for both. */
  lemma TiedMaximumBelowTop()
    ensures TrueTopPercentile([30.0, 30.0]) == [50.0, 50.0]
  {
    var col := [30.0, 30.0];
    assert CountLess(col, 30.0) == 0;
  }

  /** The column [10, 20, 20, 30] has top percentages [75, 50, 50, 0], i.e.
      magnitudes [25, 50, 50, 100]. */
  lemma FourValueExample()
    ensures TrueTopPercentile([10.0, 20.0, 20.0, 30.0]) == [75.0, 50.0, 50.0, 0.0]
  {
    var col := [10.0, 20.0, 20.0, 30.0];
    assert CountLess(col, 10.0) == 0;
    assert CountLess(col, 20.0) == 1;
    assert CountLess(col, 30.0) == 3;
  }

  function Complement(xs: seq<real>): (r: seq<real>)
    ensures |r| == |xs|
    ensures forall i :: 0 <= i < |xs| ==> r[i] == 100.0 - xs[i]
  {
    seq(|xs|, i requires 0 <= i < |xs| => 100.0 - xs[i])
  }

  lemma {:induction false} SumComplement(xs: seq<real>)
    ensures Sum(Complement(xs)) == 100.0 * |xs| as real - Sum(xs)
  {
    if |xs| > 0 {
      assert Complement(xs)[1..] == Complement(xs[1..]);
      SumComplement(xs[1..]);
    }
  }

  /** `100 - mean(top_pct)` over a non-empty group is the mean of the group's
      magnitudes. */
  lemma GroupMagnitudeIsMeanMagnitude(tops: seq<real>)
    requires |tops| > 0
    ensures 100.0 - Mean(tops).value == Mean(Complement(tops)).value
  {
    SumComplement(tops);
    var n := |tops| as real;
    var x := (100.0 * n - Sum(tops)) / n;
    var y := 100.0 - Sum(tops) / n;
    assert x == y by {
      assert x * n == 100.0 * n - Sum(tops);
      assert (Sum(tops) / n) * n == Sum(tops);
      assert y * n == 100.0 * n - Sum(tops);
      assert (x - y) * n == 0.0;
    }
  }

  /** The mean of magnitudes lying in (lo, 100] with lo > 0 lies in (0, 100]. */
  lemma MeanOfMagnitudes(ms: seq<real>, lo: real)
    requires |ms| > 0 && lo > 0.0
    requires forall i :: 0 <= i < |ms| ==> lo <= ms[i] <= 100.0
    ensures 0.0 < Mean(ms).value <= 100.0
  {
    SumBounds(ms, lo, 100.0);
    var n := |ms| as real;
    assert (Sum(ms) / n) * n == Sum(ms);
  }

  lemma MagnitudeAtLeastOneRank(rank: nat, n: nat)
    requires 1 <= rank <= n
    ensures 100.0 / n as real <= Magnitude(rank, n)
  {
    assert 100.0 * rank as real >= 100.0;
  }

  /** The radar value of the rows from `from` on, `100 - mean(top_pct)`, is the
      mean of their magnitudes and lies in (0, 100]. */
  lemma GroupRadarValue(col: seq<real>, from: nat)
    requires from < |col|
    ensures var tops := TrueTopPercentile(col)[from..];
            && 100.0 - Mean(tops).value == Mean(Complement(tops)).value
            && 0.0 < 100.0 - Mean(tops).value <= 100.0
  {
    var tops := TrueTopPercentile(col)[from..];
    GroupMagnitudeIsMeanMagnitude(tops);
    var mags := Complement(tops);
    forall j | 0 <= j < |mags|
      ensures 100.0 / |col| as real <= mags[j] <= 100.0
    {
      RankOfEntry(col, j + from);
      TopOfBounds(RankMin(col, col[j + from]), |col|);
      MagnitudeAtLeastOneRank(RankMin(col, col[j + from]), |col|);
    }
    MeanOfMagnitudes(mags, 100.0 / |col| as real);
  }
}
