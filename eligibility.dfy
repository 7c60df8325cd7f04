/** The minimum-participation filter: which table decides eligibility, the
    threshold itself, and the two ways it is applied, to the table's own
    columns or through a join on player names against a reference table
    (scraper.py:79-88, 125-131). */
module Eligibility {
  import opened Frames
  import Naming

  const MatchesColumn := "Playing Time_MP"
  const MinutesColumn := "Playing Time_Min"
  const PlayerColumn := "Player"

  /** At least 5 appearances and 150 minutes. */
  const MinMatches: real := 5.0
  const MinMinutes: real := 150.0

  /** `series >= bound` on one cell: NaN compares false. */
  predicate AtLeast(c: Cell, bound: real) {
    c.Num? && c.x >= bound
  }

  /** `(df["Playing Time_MP"] >= 5) & (df["Playing Time_Min"] >= 150)` on one row. */
  predicate MeetsThreshold(cols: seq<string>, row: seq<Cell>) {
    AtLeast(Lookup(cols, row, MatchesColumn), MinMatches) && AtLeast(Lookup(cols, row, MinutesColumn), MinMinutes)
  }

  /** Where the eligibility verdict comes from: the table itself, or a
      companion table fetched from another stats page. */
  datatype Reference = OwnTable | Companion(segment: string, tableId: string)

  /** scraper.py:79-88 with 128-131: the standard and goalkeeping tables judge
      themselves, advanced goalkeeping is judged by the goalkeeping table, and
      every other stat type by the standard table. */
  function ReferenceFor(statType: string): (r: Reference)
    ensures r == OwnTable <==> statType == "standard" || statType == "keepers"
  {
    if statType == "standard" then OwnTable
    else if statType == "keepersadv" then Companion("keepers", "stats_keeper")
    else if statType == "keepers" then OwnTable
    else Companion("stats", "stats_standard")
  }

  /** The companion is exactly the page and table the scraper itself fetches
      for the goalkeeping, resp. the standard, stat type. */
  lemma ReferenceIsScrapedTable(statType: string)
    requires ReferenceFor(statType).Companion?
    ensures var key := if statType == "keepersadv" then "keepers" else "standard";
            ReferenceFor(statType) == Companion(Naming.UrlSegment(key), Naming.TableId(key))
  {
  }

  /** The threshold applied to the table's own columns (scraper.py:129, 131);
      a missing threshold column is a `KeyError` the scraper does not catch. */
  function OwnFilter(t: Table): (r: Outcome)
    requires WellFormed(t)
    ensures r.Raised? <==> MatchesColumn !in t.columns || MinutesColumn !in t.columns
    ensures !r.Err?
    ensures r.Ok? ==> WellFormed(r.df) && r.df.columns == t.columns && IsSubsequence(r.df.rows, t.rows)
    ensures r.Ok? ==> forall row :: row in r.df.rows <==> row in t.rows && MeetsThreshold(t.columns, row)
    ensures r.Ok? ==> forall row :: multiset(r.df.rows)[row] ==
                        if MeetsThreshold(t.columns, row) then multiset(t.rows)[row] else 0
  {
    if MatchesColumn !in t.columns then Raised("KeyError: " + MatchesColumn)
    else if MinutesColumn !in t.columns then Raised("KeyError: " + MinutesColumn)
    else
      var keep := (row: seq<Cell>) => MeetsThreshold(t.columns, row);
      FilterRectangular(|t.columns|, t.rows, keep);
      Ok(Table(t.columns, Filter(t.rows, keep)))
  }

  /** `valid_players`: the names of the reference rows that meet the threshold. */
  function EligibleNames(reference: Table): set<Cell> {
    set row | row in reference.rows && MeetsThreshold(reference.columns, row) :: Lookup(reference.columns, row, PlayerColumn)
  }

  /** `df[df["Player"].isin(valid_players)]` (scraper.py:125-127). The lookups
      happen in the source's order, each raising a `KeyError` when its column
      is absent. */
  function JoinFilter(target: Table, reference: Table): (r: Outcome)
    requires WellFormed(target)
    ensures r.Raised? <==> MatchesColumn !in reference.columns || MinutesColumn !in reference.columns
                           || PlayerColumn !in reference.columns || PlayerColumn !in target.columns
    ensures !r.Err?
    ensures r.Ok? ==> WellFormed(r.df) && r.df.columns == target.columns && IsSubsequence(r.df.rows, target.rows)
    ensures r.Ok? ==> forall row :: multiset(r.df.rows)[row] ==
                        if Lookup(target.columns, row, PlayerColumn) in EligibleNames(reference) then multiset(target.rows)[row] else 0
  {
    if MatchesColumn !in reference.columns then Raised("KeyError: " + MatchesColumn)
    else if MinutesColumn !in reference.columns then Raised("KeyError: " + MinutesColumn)
    else if PlayerColumn !in reference.columns then Raised("KeyError: " + PlayerColumn)
    else if PlayerColumn !in target.columns then Raised("KeyError: " + PlayerColumn)
    else
      var names := EligibleNames(reference);
      var keep := (row: seq<Cell>) => Lookup(target.columns, row, PlayerColumn) in names;
      FilterRectangular(|target.columns|, target.rows, keep);
      Ok(Table(target.columns, Filter(target.rows, keep)))
  }

  /** A target row survives the join iff some reference row that meets the
      threshold carries the same player name. */
  lemma JoinFilterSurvivors(target: Table, reference: Table, row: seq<Cell>)
    requires WellFormed(target) && JoinFilter(target, reference).Ok?
    ensures row in JoinFilter(target, reference).df.rows <==>
              row in target.rows &&
              exists ref :: ref in reference.rows && MeetsThreshold(reference.columns, ref)
                            && Lookup(reference.columns, ref, PlayerColumn) == Lookup(target.columns, row, PlayerColumn)
  {
    var name := Lookup(target.columns, row, PlayerColumn);
    if exists ref :: ref in reference.rows && MeetsThreshold(reference.columns, ref)
                     && Lookup(reference.columns, ref, PlayerColumn) == name {
      var ref :| ref in reference.rows && MeetsThreshold(reference.columns, ref)
                 && Lookup(reference.columns, ref, PlayerColumn) == name;
      assert name in EligibleNames(reference);
    }
  }

  /** When a player's rows agree on eligibility (e.g. one row per player), the
      name join of a table against itself keeps exactly what its own threshold
      keeps: the two branches of scraper.py:125-131 agree there. */
  lemma SelfJoinIsOwnFilter(t: Table)
    requires WellFormed(t) && PlayerColumn in t.columns && MatchesColumn in t.columns && MinutesColumn in t.columns
    requires forall r1, r2 :: r1 in t.rows && r2 in t.rows
               && Lookup(t.columns, r1, PlayerColumn) == Lookup(t.columns, r2, PlayerColumn)
               ==> MeetsThreshold(t.columns, r1) == MeetsThreshold(t.columns, r2)
    ensures JoinFilter(t, t) == OwnFilter(t)
  {
    var names := EligibleNames(t);
    var join := (row: seq<Cell>) => Lookup(t.columns, row, PlayerColumn) in names;
    var own := (row: seq<Cell>) => MeetsThreshold(t.columns, row);
    forall row | row in t.rows ensures join(row) == own(row) {
      if join(row) {
        var other :| other in t.rows && MeetsThreshold(t.columns, other)
                     && Lookup(t.columns, other, PlayerColumn) == Lookup(t.columns, row, PlayerColumn);
      }
    }
    FilterCongruent(t.rows, join, own);
  }

  /** The reference [(P1, 10 matches, 900 min), (P2, 3 matches, 50 min)] keeps
      P1's target row and drops P2's. */
  lemma TwoPlayerExample()
    ensures var cols := [PlayerColumn, MatchesColumn, MinutesColumn];
            var p1 := [Text("P1"), Num(10.0), Num(900.0)];
            var p2 := [Text("P2"), Num(3.0), Num(50.0)];
            var target := Table([PlayerColumn, "Gls"], [[Text("P1"), Num(4.0)], [Text("P2"), Num(1.0)]]);
            JoinFilter(target, Table(cols, [p1, p2])) == Ok(Table([PlayerColumn, "Gls"], [[Text("P1"), Num(4.0)]]))
  {
    var cols := [PlayerColumn, MatchesColumn, MinutesColumn];
    var p1 := [Text("P1"), Num(10.0), Num(900.0)];
    var p2 := [Text("P2"), Num(3.0), Num(50.0)];
    var reference := Table(cols, [p1, p2]);
    assert Lookup(cols, p1, MatchesColumn) == Num(10.0) && Lookup(cols, p1, MinutesColumn) == Num(900.0);
    assert Lookup(cols, p2, MatchesColumn) == Num(3.0);
    assert Lookup(cols, p1, PlayerColumn) == Text("P1");
    assert EligibleNames(reference) == {Text("P1")};
    var tcols := [PlayerColumn, "Gls"];
    assert Lookup(tcols, [Text("P1"), Num(4.0)], PlayerColumn) == Text("P1");
    assert Lookup(tcols, [Text("P2"), Num(1.0)], PlayerColumn) == Text("P2");
  }
}
