/** The dashboard's data layer (app.py): the stat-type labels and their
    reverse lookup, the loaders that turn a display label into a scraper call,
    and the choice of comparison group from the all-league table. */
module App {
  import opened Frames
  import Naming
  import Scraper

  /** `stat_type_dict` as its items, in order: display label, stat-type key. */
  const StatTypeItems: seq<(string, string)> := [
    ("Standard", "standard"), ("Shooting", "shooting"), ("Passing", "passing"),
    ("Pass Types", "passing_types"), ("Goal and Shot Creation", "gca"),
    ("Defensive Actions", "defense"), ("Possession", "possession"),
    ("Playing Time", "playingtime"), ("Goalkeeping", "keepers"),
    ("Goalkeeping Advanced", "keepersadv")]

  /** A dictionary built from items, a later item overwriting an earlier one
      with the same key. */
  function ToMap(items: seq<(string, string)>): (m: map<string, string>)
    ensures forall k :: k in m <==> exists i :: 0 <= i < |items| && items[i].0 == k
  {
    if |items| == 0 then map[]
    else
      var init := ToMap(items[..|items| - 1]);
      assert forall i :: 0 <= i < |items| - 1 ==> items[..|items| - 1][i] == items[i];
      init[items[|items| - 1].0 := items[|items| - 1].1]
  }

  /** The items with label and key swapped. */
  function Swap(items: seq<(string, string)>): (r: seq<(string, string)>)
    ensures |r| == |items|
    ensures forall i :: 0 <= i < |items| ==> r[i] == (items[i].1, items[i].0)
  {
    seq(|items|, i requires 0 <= i < |items| => (items[i].1, items[i].0))
  }

  predicate DistinctKeys(items: seq<(string, string)>) {
    forall i, j :: 0 <= i < j < |items| ==> items[i].0 != items[j].0
  }

  /** With distinct keys, every item is found in the dictionary. */
  lemma {:induction false} ToMapFinds(items: seq<(string, string)>, i: nat)
    requires DistinctKeys(items) && i < |items|
    ensures items[i].0 in ToMap(items) && ToMap(items)[items[i].0] == items[i].1
  {
    var n := |items| - 1;
    if i < n {
      var init := items[..n];
      assert init[i] == items[i];
      assert DistinctKeys(init) by {
        forall a, b | 0 <= a < b < |init| ensures init[a].0 != init[b].0 {
          assert init[a] == items[a] && init[b] == items[b];
        }
      }
      ToMapFinds(init, i);
      assert items[i].0 != items[n].0;
    }
  }

  /** `stat_type_dict`. */
  function StatTypeDict(): map<string, string> {
    ToMap(StatTypeItems)
  }

  /** `stat_type_reverse_dict = {v: k for k, v in stat_type_dict.items()}`. */
  function ReverseDict(): map<string, string> {
    ToMap(Swap(StatTypeItems))
  }

  /** The labels are distinct, and so are the keys. */
  lemma StatTypesDistinct()
    ensures DistinctKeys(StatTypeItems) && DistinctKeys(Swap(StatTypeItems))
  {
    var ls := seq(|StatTypeItems|, i requires 0 <= i < |StatTypeItems| => |StatTypeItems[i].0|);
    var ks := seq(|StatTypeItems|, i requires 0 <= i < |StatTypeItems| => |StatTypeItems[i].1|);
    assert ls == [8, 8, 7, 10, 22, 17, 10, 12, 11, 20];
    assert ks == [8, 8, 7, 13, 3, 7, 10, 11, 7, 10];
    assert StatTypeItems[0].0[1] != StatTypeItems[1].0[1];
    assert StatTypeItems[3].0[1] != StatTypeItems[6].0[1];
    assert StatTypeItems[0].1[1] != StatTypeItems[1].1[1];
    assert StatTypeItems[2].1[0] != StatTypeItems[5].1[0] && StatTypeItems[2].1[0] != StatTypeItems[8].1[0];
    assert StatTypeItems[5].1[0] != StatTypeItems[8].1[0];
    assert StatTypeItems[6].1[0] != StatTypeItems[9].1[0];
  }

  /** `stat_type_reverse_dict.get(key, key)` (app.py:115). */
  function StatLabel(key: string): (display: string) {
    if key in ReverseDict() then ReverseDict()[key] else key
  }

  /** The reverse dictionary inverts the forward one: a label's key maps back
      to the label, and a known key's label maps forward to the key. */
  lemma StatLabelRoundTrip(display: string, key: string)
    ensures display in StatTypeDict() ==> StatLabel(StatTypeDict()[display]) == display
    ensures key in ReverseDict() ==> ReverseDict()[key] in StatTypeDict() && StatTypeDict()[ReverseDict()[key]] == key
  {
    StatTypesDistinct();
    if display in StatTypeDict() {
      var i :| 0 <= i < |StatTypeItems| && StatTypeItems[i].0 == display;
      ToMapFinds(StatTypeItems, i);
      ToMapFinds(Swap(StatTypeItems), i);
    }
    if key in ReverseDict() {
      var i :| 0 <= i < |Swap(StatTypeItems)| && Swap(StatTypeItems)[i].0 == key;
      ToMapFinds(StatTypeItems, i);
      ToMapFinds(Swap(StatTypeItems), i);
    }
  }

  /** The forward dictionary's values are exactly the scraper's stat-type keys,
      and a key the dictionary does not know reads as itself. */
  lemma StatLabelKeys(key: string)
    ensures key in ReverseDict() <==> key in Naming.StatKeys
    ensures key !in Naming.StatKeys ==> StatLabel(key) == key
  {
    if key in Naming.StatKeys {
      var i :| 0 <= i < |Naming.StatKeys| && Naming.StatKeys[i] == key;
      assert Swap(StatTypeItems)[i].0 == key;
    }
    if key in ReverseDict() {
      var i :| 0 <= i < |Swap(StatTypeItems)| && Swap(StatTypeItems)[i].0 == key;
      assert Naming.StatKeys[i] == key;
    }
  }

  function Unsupported(display: string): string {
    "Statistic type '" + display + "' not supported."
  }

  /** `get_cached_stats` without its cache: an unknown label is reported
      without any fetching; a known one is scraped under its key. */
  function CachedStats(display: string, season: string, league: string,
                       site: Scraper.Site, parse: string -> Option<real>): (r: Outcome)
    requires Scraper.SiteWellFormed(site)
    ensures display !in StatTypeDict() ==> r == Err(Unsupported(display))
    ensures display in StatTypeDict() ==> r == Scraper.GetStats(StatTypeDict()[display], season, league, site, parse)
    ensures r.Ok? ==> WellFormed(r.df)
  {
    if display !in StatTypeDict() then Err(Unsupported(display))
    else Scraper.GetStats(StatTypeDict()[display], season, league, site, parse)
  }

  /** `get_cached_team_stats` without its cache. */
  function CachedTeamStats(display: string, season: string, league: string,
                           locate: string -> Scraper.Fetch, parse: string -> Option<real>): (r: Outcome)
    requires forall url :: Scraper.FetchWellFormed(locate(url))
    ensures display !in StatTypeDict() ==> r == Err(Unsupported(display))
    ensures display in StatTypeDict() ==> r == Scraper.GetTeamStats(StatTypeDict()[display], season, league, locate, parse)
    ensures r.Ok? ==> WellFormed(r.df)
  {
    if display !in StatTypeDict() then Err(Unsupported(display))
    else Scraper.GetTeamStats(StatTypeDict()[display], season, league, locate, parse)
  }

  /** `load_all_league_data` without its cache: all eight leagues, in the
      dictionary's order. */
  method LoadAllLeagueData(display: string, season: string,
                           site: Scraper.Site, parse: string -> Option<real>) returns (r: Outcome)
    requires Scraper.SiteWellFormed(site)
    ensures display !in StatTypeDict() ==> r == Err(Unsupported(display))
    ensures display in StatTypeDict() ==>
              r == Scraper.AllLeagues(Naming.Leagues, Scraper.Outcomes(StatTypeDict()[display], season, Naming.Leagues, site, parse))
  {
    if display !in StatTypeDict() {
      return Err(Unsupported(display));
    }
    r := Scraper.BuildAllLeagues(StatTypeDict()[display], season, Naming.Leagues, site, parse);
  }

  /** Every display label is supported, and a label outside the dictionary
      yields the same "not supported" message from the player and the team
      loader (LoadAllLeagueData states the same message in its own contract). */
  lemma UnsupportedLabel(display: string, season: string, league: string,
                         site: Scraper.Site, locate: string -> Scraper.Fetch,
                         parse: string -> Option<real>)
    requires Scraper.SiteWellFormed(site) && forall url :: Scraper.FetchWellFormed(locate(url))
    ensures forall i :: 0 <= i < |StatTypeItems| ==> StatTypeItems[i].0 in StatTypeDict()
    ensures display !in StatTypeDict() ==>
              CachedStats(display, season, league, site, parse) == CachedTeamStats(display, season, league, locate, parse)
              == Err("Statistic type '" + display + "' not supported.")
  {
  }

  const Big5Leagues: seq<string> := ["Premier League", "La Liga", "Bundesliga", "Serie A", "Ligue 1"]
  const Other3Leagues: seq<string> := ["Eredivisie", "Primeira Liga", "Belgian Pro League"]
  const Big5Label := "Big 5 Leagues"
  const Other3Label := "Eredivisie/Primeira Liga/Belgian Pro League"
  const AllLabel := "All 8 Leagues"

  /** `df["League"].isin(leagues)` on one row. */
  predicate InLeagues(cols: seq<string>, row: seq<Cell>, leagues: seq<string>) {
    var c := Lookup(cols, row, Scraper.LeagueColumn);
    c.Text? && c.s in leagues
  }

  /** `df[df["League"].isin(leagues)]`; a missing "League" column is a `KeyError`. */
  function OfLeagues(all: Table, leagues: seq<string>): (r: Outcome)
    requires WellFormed(all)
    ensures r.Raised? <==> Scraper.LeagueColumn !in all.columns
    ensures !r.Err?
    ensures r.Ok? ==> WellFormed(r.df) && r.df.columns == all.columns && IsSubsequence(r.df.rows, all.rows)
    ensures r.Ok? ==> forall row :: row in r.df.rows <==> row in all.rows && InLeagues(all.columns, row, leagues)
  {
    if Scraper.LeagueColumn !in all.columns then Raised("KeyError: " + Scraper.LeagueColumn)
    else
      var keep := (row: seq<Cell>) => InLeagues(all.columns, row, leagues);
      FilterRectangular(|all.columns|, all.rows, keep);
      Ok(Table(all.columns, Filter(all.rows, keep)))
  }

  /** The comparison group of the link-driven comparison view (app.py:127-140),
      compared in the source's order. */
  function SelectGroup(all: Table, group: string, choice: string): (r: Outcome)
    requires WellFormed(all)
    ensures r.Raised? <==> Scraper.LeagueColumn !in all.columns && (group == choice || group == Big5Label || group == Other3Label)
    ensures !r.Err?
    ensures r.Ok? ==> WellFormed(r.df) && r.df.columns == all.columns && IsSubsequence(r.df.rows, all.rows)
  {
    if group == choice then OfLeagues(all, [choice])
    else if group == Big5Label then OfLeagues(all, Big5Leagues)
    else if group == Other3Label then OfLeagues(all, Other3Leagues)
    else
      FilterKeepsAll(all.rows, (row: seq<Cell>) => true);
      Ok(all)
  }

  /** Which rows each label selects: the chosen league's, the five or the
      three listed leagues', and for any other label every row. */
  lemma SelectGroupRows(all: Table, group: string, choice: string, row: seq<Cell>)
    requires WellFormed(all) && SelectGroup(all, group, choice).Ok?
    ensures var rows := SelectGroup(all, group, choice).df.rows;
            && (group == choice ==> (row in rows <==> row in all.rows && Lookup(all.columns, row, Scraper.LeagueColumn) == Text(choice)))
            && (group != choice && group == Big5Label ==> (row in rows <==> row in all.rows && InLeagues(all.columns, row, Big5Leagues)))
            && (group != choice && group == Other3Label ==> (row in rows <==> row in all.rows && InLeagues(all.columns, row, Other3Leagues)))
            && (group != choice && group != Big5Label && group != Other3Label ==> rows == all.rows)
  {
  }

  /** The five and the three leagues are the eight the scraper knows, with no
      league in both. */
  lemma GroupsPartitionLeagues()
    ensures Big5Leagues + Other3Leagues == Naming.Leagues
    ensures forall l :: l in Big5Leagues ==> l !in Other3Leagues
  {
  }

  /** A row is among the eight leagues iff it is among the five or among the
      three, never both. */
  lemma EightIsFivePlusThree(cols: seq<string>, row: seq<Cell>)
    ensures InLeagues(cols, row, Naming.Leagues) <==> InLeagues(cols, row, Big5Leagues) || InLeagues(cols, row, Other3Leagues)
    ensures !(InLeagues(cols, row, Big5Leagues) && InLeagues(cols, row, Other3Leagues))
  {
    GroupsPartitionLeagues();
  }

  /** `league_groups` of the similarity section (app.py:217-222): the chosen
      league, the five, the three (under a "Jupiler" display), all eight. */
  function ComparisonGroups(choice: string): (groups: seq<(string, seq<string>)>)
    ensures |groups| == 4 && groups[0] == (choice, [choice])
    ensures groups[1] == (Big5Label, Big5Leagues)
    ensures groups[2] == ("Eredivisie/Primeira Liga/Jupiler", Other3Leagues)
    ensures groups[3] == (AllLabel, Naming.Leagues)
    ensures groups[1].1 + groups[2].1 == groups[3].1
  {
    [(choice, [choice]), (Big5Label, Big5Leagues),
     ("Eredivisie/Primeira Liga/Jupiler", Other3Leagues), (AllLabel, Naming.Leagues)]
  }

  /** The three-league group is named differently in the two views: the name
      the similarity section gives it selects every row in the comparison view
      (unless it happens to be the chosen league's name). */
  lemma JupilerLabelMismatch(all: Table, choice: string)
    requires WellFormed(all) && choice != ComparisonGroups(choice)[2].0
    ensures ComparisonGroups(choice)[2].1 == Other3Leagues
    ensures SelectGroup(all, ComparisonGroups(choice)[2].0, choice) == Ok(all)
  {
    var name := ComparisonGroups(choice)[2].0;
    assert |name| != |Big5Label| && |name| != |Other3Label|;
  }
}
