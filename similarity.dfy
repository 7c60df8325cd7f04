/** `get_top_similar_players` (app.py:81-87): the candidates other than the
    subject with every requested feature present, scored against the subject,
    sorted by score from high to low, the first `top_n` kept. The score
    (cosine similarity) is a parameter. */
module Similarity {
  import opened Frames
  import Eligibility
  import opened Concatenation

  const SimilarityColumn := "similarity"

  /** `top_n=3`. */
  const DefaultTopN: int := 3

  /** `dropna(subset=features)` keeps a row iff none of its features is NaN. */
  predicate Complete(cols: seq<string>, row: seq<Cell>, features: seq<string>) {
    forall f :: f in features ==> Lookup(cols, row, f) != Missing
  }

  predicate IsCandidate(cols: seq<string>, row: seq<Cell>, exclude: string, features: seq<string>) {
    Lookup(cols, row, Eligibility.PlayerColumn) != Text(exclude) && Complete(cols, row, features)
  }

  /** `candidate_df[candidate_df["Player"] != exclude_player].dropna(subset=features)`. */
  function Candidates(t: Table, exclude: string, features: seq<string>): (rows: seq<seq<Cell>>)
    requires WellFormed(t)
    ensures Rectangular(|t.columns|, rows)
    ensures forall row :: row in rows <==> row in t.rows && IsCandidate(t.columns, row, exclude, features)
    ensures IsSubsequence(rows, t.rows)
  {
    var keep := (row: seq<Cell>) => IsCandidate(t.columns, row, exclude, features);
    FilterRectangular(|t.columns|, t.rows, keep);
    Filter(t.rows, keep)
  }

  /** `selected_vec.size` for a two-dimensional array given by its rows. */
  function Size(vec: seq<seq<Cell>>): nat {
    if |vec| == 0 then 0 else |vec| * |vec[0]|
  }

  /** A candidate row (already carrying its score column) with its score. */
  datatype Scored = Scored(row: seq<Cell>, similarity: real)

  predicate SortedDescending(s: seq<Scored>) {
    forall i, j :: 0 <= i < j < |s| ==> s[i].similarity >= s[j].similarity
  }

  /** Insert `x` before the first entry whose score is not larger, so that
      `x` goes ahead of the entries it ties with. */
  function Insert(x: Scored, s: seq<Scored>): (r: seq<Scored>)
    requires SortedDescending(s)
    ensures SortedDescending(r)
    ensures multiset(r) == multiset(s) + multiset{x}
    ensures forall y :: y in r ==> y in s || y == x
    ensures |r| == |s| + 1
  {
    if |s| == 0 then [x]
    else if s[0].similarity > x.similarity then
      var rest := Insert(x, s[1..]);
      assert s == [s[0]] + s[1..];
      InsertFront(s, x, rest);
      [s[0]] + rest
    else [x] + s
  }

  /** The head of a sorted `s` stays in front of `x` inserted into the tail. */
  lemma InsertFront(s: seq<Scored>, x: Scored, rest: seq<Scored>)
    requires |s| > 0 && SortedDescending(s) && SortedDescending(rest) && s[0].similarity >= x.similarity
    requires forall y :: y in rest ==> y in s[1..] || y == x
    ensures SortedDescending([s[0]] + rest)
  {
    var r := [s[0]] + rest;
    forall i, j | 0 <= i < j < |r| ensures r[i].similarity >= r[j].similarity {
      assert r[j] == rest[j - 1] && rest[j - 1] in rest;
      if i > 0 {
        assert r[i] == rest[i - 1];
      } else if r[j] != x {
        var k :| 0 <= k < |s[1..]| && s[1..][k] == r[j];
        assert s[k + 1] == r[j];
      }
    }
  }

  /** `sort_values("similarity", ascending=False)`. */
  function SortDescending(s: seq<Scored>): (r: seq<Scored>)
    ensures SortedDescending(r)
    ensures multiset(r) == multiset(s)
    ensures |r| == |s|
  {
    if |s| == 0 then []
    else
      assert s == [s[0]] + s[1..];
      Insert(s[0], SortDescending(s[1..]))
  }

  /** Sorting keeps tied entries in their input order: of two candidates
      with the same score the earlier one stays first. */
  lemma TiedScoresKeepOrder(a: seq<Cell>, b: seq<Cell>, score: real)
    ensures SortDescending([Scored(a, score), Scored(b, score)]) == [Scored(a, score), Scored(b, score)]
  {
    var s := [Scored(a, score), Scored(b, score)];
    assert s[1..] == [Scored(b, score)];
    assert SortDescending([Scored(b, score)]) == [Scored(b, score)] by {
      assert [Scored(b, score)][1..] == [];
    }
  }

  /** `head(n)`: the first `n` entries, or for a negative `n` all but the last `-n`. */
  function Head<T>(s: seq<T>, n: int): (r: seq<T>)
    ensures n >= 0 ==> |r| == if n < |s| then n else |s|
    ensures n < 0 ==> |r| == if |s| + n > 0 then |s| + n else 0
    ensures r == s[..|r|]
  {
    if n >= 0 then (if n < |s| then s[..n] else s)
    else if |s| + n > 0 then s[..|s| + n] else []
  }

  datatype Ranking = NoneFound | Ranked(table: Table) | Fails(exception: string)

  /** The candidates with the score column assigned (`df.assign(similarity=…)`). */
  function Assigned(t: Table, cands: seq<seq<Cell>>, scores: seq<real>): (a: Table)
    requires Rectangular(|t.columns|, cands) && |scores| == |cands|
    ensures WellFormed(a) && |a.rows| == |cands|
  {
    Assign(Table(t.columns, cands), SimilarityColumn, seq(|scores|, i requires 0 <= i < |scores| => Num(scores[i])))
  }

  /** Each candidate's score against the subject's first row; a candidate's
      `df[radar_features].values` row is its cells under the feature names. */
  function Scores(t: Table, cands: seq<seq<Cell>>, subject: seq<Cell>, features: seq<string>,
                  score: (seq<Cell>, seq<Cell>) -> real): (s: seq<real>)
    ensures |s| == |cands|
    ensures forall i :: 0 <= i < |cands| ==> s[i] == score(subject, Align(t.columns, cands[i], features))
  {
    seq(|cands|, i requires 0 <= i < |cands| => score(subject, Align(t.columns, cands[i], features)))
  }

  function Pair(a: Table, scores: seq<real>): (p: seq<Scored>)
    requires |scores| == |a.rows|
    ensures |p| == |a.rows|
    ensures forall i :: 0 <= i < |p| ==> p[i] == Scored(a.rows[i], scores[i])
  {
    seq(|a.rows|, i requires 0 <= i < |a.rows| => Scored(a.rows[i], scores[i]))
  }

  function Rows(s: seq<Scored>): (rows: seq<seq<Cell>>)
    ensures |rows| == |s|
    ensures forall i :: 0 <= i < |s| ==> rows[i] == s[i].row
  {
    seq(|s|, i requires 0 <= i < |s| => s[i].row)
  }

  /** The scored candidates, before sorting. */
  function ScoredCandidates(selected: seq<seq<Cell>>, t: Table, features: seq<string>, exclude: string,
                            score: (seq<Cell>, seq<Cell>) -> real): (p: seq<Scored>)
    requires WellFormed(t) && |selected| > 0
  {
    var cands := Candidates(t, exclude, features);
    var scores := Scores(t, cands, selected[0], features, score);
    Pair(Assigned(t, cands, scores), scores)
  }

  /** `get_top_similar_players(selected_vec, candidate_df, features, exclude_player, top_n=3)`.
      A missing "Player" column or feature column is a `KeyError`. */
  function TopSimilar(selected: seq<seq<Cell>>, t: Table, features: seq<string>, exclude: string, topN: int := DefaultTopN,
                      score: (seq<Cell>, seq<Cell>) -> real): (r: Ranking)
    requires WellFormed(t)
    ensures r.Fails? <==> Eligibility.PlayerColumn !in t.columns || exists f :: f in features && f !in t.columns
    ensures r.NoneFound? <==> !r.Fails? && (|Candidates(t, exclude, features)| == 0 || Size(selected) == 0)
    ensures r.Ranked? ==> WellFormed(r.table)
  {
    if Eligibility.PlayerColumn !in t.columns then Fails("KeyError: " + Eligibility.PlayerColumn)
    else if exists f :: f in features && f !in t.columns then Fails("KeyError")
    else
      var cands := Candidates(t, exclude, features);
      if |cands| == 0 || Size(selected) == 0 then NoneFound
      else
        var scores := Scores(t, cands, selected[0], features, score);
        Ranked(Rank(Assigned(t, cands, scores), scores, topN))
  }

  /** `sort_values("similarity", ascending=False).head(top_n)` on the scored table. */
  function Rank(a: Table, scores: seq<real>, topN: int): (r: Table)
    requires WellFormed(a) && |scores| == |a.rows|
    ensures WellFormed(r) && r.columns == a.columns
  {
    var top := Head(SortDescending(Pair(a, scores)), topN);
    forall j | 0 <= j < |top| ensures top[j].row in a.rows {
      TopEntry(a, scores, topN, j);
    }
    Table(a.columns, Rows(top))
  }

  /** Every entry kept is one of the scored rows with its own score. */
  lemma TopEntry(a: Table, scores: seq<real>, topN: int, j: nat)
    requires |scores| == |a.rows| && j < |Head(SortDescending(Pair(a, scores)), topN)|
    ensures exists i :: 0 <= i < |a.rows| && Head(SortDescending(Pair(a, scores)), topN)[j] == Scored(a.rows[i], scores[i])
  {
    var p := Pair(a, scores);
    var sorted := SortDescending(p);
    assert Head(sorted, topN)[j] == sorted[j];
    assert sorted[j] in multiset(p);
    var i :| 0 <= i < |p| && p[i] == sorted[j];
  }

  /** The result's rows are the first `top_n` (pandas' `head`) of the scored
      candidates sorted by score, over the candidates' columns plus
      "similarity". */
  lemma TopSimilarRows(selected: seq<seq<Cell>>, t: Table, features: seq<string>, exclude: string, topN: int,
                       score: (seq<Cell>, seq<Cell>) -> real)
    requires WellFormed(t) && TopSimilar(selected, t, features, exclude, topN, score).Ranked?
    ensures |selected| > 0
    ensures var r := TopSimilar(selected, t, features, exclude, topN, score).table;
            var sorted := SortDescending(ScoredCandidates(selected, t, features, exclude, score));
            && r.rows == Rows(Head(sorted, topN))
            && (forall c :: c in r.columns <==> c in t.columns || c == SimilarityColumn)
  {
  }

  /** Every returned row is a candidate: not the excluded player, no feature
      missing; its "similarity" cell holds its score. */
  lemma AssignedCandidates(t: Table, cands: seq<seq<Cell>>, scores: seq<real>, exclude: string,
                           features: seq<string>)
    requires WellFormed(t) && Rectangular(|t.columns|, cands) && |scores| == |cands|
    requires forall row :: row in cands ==> IsCandidate(t.columns, row, exclude, features)
    ensures var a := Assigned(t, cands, scores);
            forall i :: 0 <= i < |a.rows| ==>
              && Lookup(a.columns, a.rows[i], SimilarityColumn) == Num(scores[i])
              && Lookup(a.columns, a.rows[i], Eligibility.PlayerColumn) != Text(exclude)
              && Complete(a.columns, a.rows[i], features)
  {
    forall i | 0 <= i < |cands| {
      AssignedCandidate(t, cands, scores, exclude, features, i);
    }
  }

  lemma AssignedCandidate(t: Table, cands: seq<seq<Cell>>, scores: seq<real>, exclude: string,
                          features: seq<string>, i: nat)
    requires WellFormed(t) && Rectangular(|t.columns|, cands) && |scores| == |cands| && i < |cands|
    requires forall row :: row in cands ==> IsCandidate(t.columns, row, exclude, features)
    ensures var a := Assigned(t, cands, scores);
            && Lookup(a.columns, a.rows[i], SimilarityColumn) == Num(scores[i])
            && Lookup(a.columns, a.rows[i], Eligibility.PlayerColumn) != Text(exclude)
            && Complete(a.columns, a.rows[i], features)
  {
    var values := seq(|scores|, j requires 0 <= j < |scores| => Num(scores[j]));
    var base := Table(t.columns, cands);
    AssignLookup(base, SimilarityColumn, values, i, Eligibility.PlayerColumn);
    assert cands[i] in cands;
    forall f | f in features ensures Lookup(Assigned(t, cands, scores).columns, Assigned(t, cands, scores).rows[i], f) != Missing {
      AssignLookup(base, SimilarityColumn, values, i, f);
    }
  }

  /** Properties of the result: the returned rows are scored candidates in
      order of non-increasing score, as many as `head(top_n)` keeps, and every
      scored candidate left out scores at most as high as every returned one. */
  lemma TopK(p: seq<Scored>, topN: int)
    ensures var sorted := SortDescending(p);
            var top := Head(sorted, topN);
            && SortedDescending(top)
            && (topN >= 0 ==> |top| == if topN < |p| then topN else |p|)
            && (forall x :: x in top ==> x in p)
            && (forall x, y :: x in p && x !in top && y in top ==> x.similarity <= y.similarity)
  {
    var sorted := SortDescending(p);
    var top := Head(sorted, topN);
    assert top == sorted[..|top|];
    forall x | x in top ensures x in p {
      assert x in sorted;
      assert x in multiset(sorted);
    }
    forall x, y | x in p && x !in top && y in top ensures x.similarity <= y.similarity {
      assert x in multiset(sorted);
      PrefixDominates(sorted, |top|, x, y);
    }
  }

  /** In a sorted sequence, an entry outside the first `k` scores at most as
      high as any entry among them. */
  lemma PrefixDominates(sorted: seq<Scored>, k: nat, x: Scored, y: Scored)
    requires SortedDescending(sorted) && k <= |sorted|
    requires x in sorted && x !in sorted[..k] && y in sorted[..k]
    ensures x.similarity <= y.similarity
  {
    var j :| 0 <= j < |sorted| && sorted[j] == x;
    var i :| 0 <= i < k && sorted[..k][i] == y;
    assert forall m :: 0 <= m < k ==> sorted[..k][m] == sorted[m];
    assert j >= k;
    assert sorted[i] == y;
  }

  /** A non-negative `top_n` returns `min(top_n, #candidates)` rows, and a
      candidate that is not returned scores at most as high as any returned one. */
  lemma TopSimilarCountAndRank(selected: seq<seq<Cell>>, t: Table, features: seq<string>, exclude: string, topN: int,
                               score: (seq<Cell>, seq<Cell>) -> real)
    requires WellFormed(t) && TopSimilar(selected, t, features, exclude, topN, score).Ranked?
    ensures |selected| > 0
    ensures var n := |Candidates(t, exclude, features)|;
            var r := TopSimilar(selected, t, features, exclude, topN, score).table;
            topN >= 0 ==> |r.rows| == if topN < n then topN else n
    ensures var p := ScoredCandidates(selected, t, features, exclude, score);
            var top := Head(SortDescending(p), topN);
            && Rows(top) == TopSimilar(selected, t, features, exclude, topN, score).table.rows
            && SortedDescending(top)
            && forall x, y :: x in p && x !in top && y in top ==> x.similarity <= y.similarity
  {
    TopK(ScoredCandidates(selected, t, features, exclude, score), topN);
  }

  /** Every returned row is a candidate row with its score assigned: it is
      not the excluded player, it has every feature, its "similarity" cell
      holds its score, and the scores do not increase down the table. */
  lemma TopSimilarReturned(selected: seq<seq<Cell>>, t: Table, features: seq<string>, exclude: string, topN: int,
                           score: (seq<Cell>, seq<Cell>) -> real, k: nat)
    requires WellFormed(t) && TopSimilar(selected, t, features, exclude, topN, score).Ranked?
    requires k < |TopSimilar(selected, t, features, exclude, topN, score).table.rows|
    ensures var r := TopSimilar(selected, t, features, exclude, topN, score).table;
            && Lookup(r.columns, r.rows[k], Eligibility.PlayerColumn) != Text(exclude)
            && Complete(r.columns, r.rows[k], features)
            && Lookup(r.columns, r.rows[k], SimilarityColumn).Num?
            && forall j :: k < j < |r.rows| ==>
                 Lookup(r.columns, r.rows[j], SimilarityColumn).Num? &&
                 Lookup(r.columns, r.rows[j], SimilarityColumn).x <= Lookup(r.columns, r.rows[k], SimilarityColumn).x
  {
    var cands := Candidates(t, exclude, features);
    var scores := Scores(t, cands, selected[0], features, score);
    var a := Assigned(t, cands, scores);
    var r := Rank(a, scores, topN);
    assert r == TopSimilar(selected, t, features, exclude, topN, score).table;
    AssignedCandidates(t, cands, scores, exclude, features);
    RankReturned(a, scores, topN, k);
    var i :| 0 <= i < |a.rows| && a.rows[i] == r.rows[k];
  }

  /** Each row kept by the ranking is a scored row, and when every scored
      row carries its score in "similarity", that column does not increase
      down the ranking. */
  lemma RankReturned(a: Table, scores: seq<real>, topN: int, k: nat)
    requires WellFormed(a) && |scores| == |a.rows| && k < |Rank(a, scores, topN).rows|
    requires forall i :: 0 <= i < |a.rows| ==> Lookup(a.columns, a.rows[i], SimilarityColumn) == Num(scores[i])
    ensures var r := Rank(a, scores, topN);
            && r.rows[k] in a.rows
            && Lookup(r.columns, r.rows[k], SimilarityColumn).Num?
            && forall j :: k < j < |r.rows| ==>
                 Lookup(r.columns, r.rows[j], SimilarityColumn).Num? &&
                 Lookup(r.columns, r.rows[j], SimilarityColumn).x <= Lookup(r.columns, r.rows[k], SimilarityColumn).x
  {
    var top := Head(SortDescending(Pair(a, scores)), topN);
    var r := Rank(a, scores, topN);
    assert r.rows == Rows(top);
    forall j | 0 <= j < |top|
      ensures r.rows[j] in a.rows && Lookup(r.columns, r.rows[j], SimilarityColumn) == Num(top[j].similarity)
    {
      TopEntry(a, scores, topN, j);
    }
    assert SortedDescending(top);
  }
}
