/** The scraper's entry points with their error paths: one league's player
    table (`get_fbref_stats`, scraper.py:19-133), one league's team table
    (`get_fbref_team_stats`, 136-190), and the union over leagues
    (`build_all_leagues_df`, 193-208). Requesting a page and searching it for
    a table are parameters: a `Site` holds the two searches get_fbref_stats
    makes, and `locate` the one get_fbref_team_stats makes. */
module Scraper {
  import opened Frames
  import opened Normalize
  import opened Naming
  import opened Eligibility
  import opened Concatenation

  /** The outcome of requesting a page and locating a table on it. */
  datatype Fetch =
    | Located(table: RawTable)   // the table, as `pd.read_html` parses it
    | PageFailed(e: string)      // the request or the HTML parse raised
    | NotFound                   // no table with the id, on the page or in a comment
    | Unparsable(e: string)      // `pd.read_html` raised on the located markup

  /** `pd.read_html` on the text "None" (no table was located). */
  const NoTablesFound := "No tables found"

  predicate FetchWellFormed(f: Fetch) {
    f.Located? ==> RawWellFormed(f.table)
  }

  /** The two searches get_fbref_stats makes on a requested page. `page` is
      the request plus `find_table_in_comments`: the table with the id in the
      page body, else in any HTML comment (scraper.py:26-54). `comments` is the
      request plus the reference search, which looks only inside the comments
      that contain the id text (scraper.py:92-104). */
  datatype Site = Site(page: (string, string) -> Fetch, comments: (string, string) -> Fetch)

  /** Every table either search hands over is rectangular (`read_html` pads rows). */
  ghost predicate SiteWellFormed(site: Site) {
    && (forall url, id :: FetchWellFormed(site.page(url, id)))
    && (forall url, id :: FetchWellFormed(site.comments(url, id)))
  }

  /** The reference step of get_fbref_stats once `df` is clean (scraper.py:79-131). */
  function Eligible(statType: string, season: string, league: string, df: Table,
                    site: Site, parse: string -> Option<real>): (r: Outcome)
    requires league in LeagueIds && WellFormed(df) && SiteWellFormed(site)
    ensures ReferenceFor(statType) == OwnTable ==> r == OwnFilter(df)
    ensures r.Ok? ==> WellFormed(r.df) && r.df.columns == df.columns && IsSubsequence(r.df.rows, df.rows)
  {
    match ReferenceFor(statType)
    case OwnTable => OwnFilter(df)
    case Companion(segment, tableId) =>
      var url := StatsUrl(LeagueIds[league], season, segment, league);
      var page := site.comments(url, tableId);
      assert FetchWellFormed(page);
      match page
      case PageFailed(e) => Err("Error loading standard stats page: " + e)
      case NotFound => Err("Standard stats table not found at " + url)
      case Unparsable(e) => Err("Error parsing standard stats table: " + e)
      case Located(raw) =>
        if |raw.header| == 0 then Raised("IndexError")
        else JoinFilter(df, ReferenceTable(raw, parse))
  }

  /** The rest of get_fbref_stats once the stats page has been requested:
      the request and parse errors, an `IndexError` at `df.columns[0]` for a
      table without columns, and otherwise the cleaning and the reference step
      (scraper.py:24-131). */
  function FromStatsPage(statType: string, season: string, league: string, page: Fetch,
                         site: Site, parse: string -> Option<real>): (r: Outcome)
    requires league in LeagueIds && FetchWellFormed(page) && SiteWellFormed(site)
    ensures r.Ok? ==> WellFormed(r.df) && page.Located? && |page.table.header| > 0
  {
    match page
    case PageFailed(e) => Err("Error loading page: " + e)
    case NotFound => Err("Error parsing table HTML: " + NoTablesFound)
    case Unparsable(e) => Err("Error parsing table HTML: " + e)
    case Located(raw) =>
      if |raw.header| == 0 then Raised("IndexError")
      else Eligible(statType, season, league, PlayerTable(raw, parse), site, parse)
  }

  /** `get_fbref_stats(stat_type, season_str, league_name)`. An unknown league
      is a `KeyError` (scraper.py:20). */
  function GetStats(statType: string, season: string, league: string,
                    site: Site, parse: string -> Option<real>): (r: Outcome)
    requires SiteWellFormed(site)
    ensures league !in LeagueIds ==> r == Raised("KeyError: " + league)
    ensures r.Ok? ==> WellFormed(r.df)
  {
    if league !in LeagueIds then Raised("KeyError: " + league)
    else
      var page := site.page(StatsUrl(LeagueIds[league], season, UrlSegment(statType), league), TableId(statType));
      assert FetchWellFormed(page);
      FromStatsPage(statType, season, league, page, site, parse)
  }

  /** A table get_fbref_stats returns comes from the located stats table: the
      league is known, the table was found and has columns, and the result is
      the reference step applied to its cleaned form. */
  lemma GetStatsLoaded(statType: string, season: string, league: string,
                       site: Site, parse: string -> Option<real>)
    requires SiteWellFormed(site)
    requires GetStats(statType, season, league, site, parse).Ok?
    ensures league in LeagueIds
    ensures var page := site.page(StatsUrl(LeagueIds[league], season, UrlSegment(statType), league), TableId(statType));
            && page.Located? && |page.table.header| > 0
            && GetStats(statType, season, league, site, parse)
               == Eligible(statType, season, league, PlayerTable(page.table, parse), site, parse)
  {
    var page := site.page(StatsUrl(LeagueIds[league], season, UrlSegment(statType), league), TableId(statType));
    assert FetchWellFormed(page);
    assert GetStats(statType, season, league, site, parse) == FromStatsPage(statType, season, league, page, site, parse);
  }

  /** A header row repeated in the body holds the label "MP" under the
      appearances column; when the number grammar gives up on "MP", cleaning
      turns it into 0 and the row fails the threshold. So on the player path a
      repeated header row that the mask keeps (scraper.py:61) is still left
      out by the eligibility filter of a table that judges itself. */
  lemma HeaderRowIneligible(t: Table, parse: string -> Option<real>, i: nat)
    requires WellFormed(t) && i < |t.rows|
    requires Lookup(t.columns, t.rows[i], MatchesColumn) == Text("MP")
    requires parse("MP").None?
    ensures !MeetsThreshold(t.columns, Normalized(t, PlayerIdentity, parse).rows[i])
  {
    var n := Normalized(t, PlayerIdentity, parse);
    var j := IndexOf(t.columns, MatchesColumn).value;
    assert t.rows[i][j] == Text("MP");
    assert MatchesColumn !in PlayerIdentity;
    assert n.rows[i][j] == Num(0.0);
    assert Lookup(n.columns, n.rows[i], MatchesColumn) == Num(0.0);
  }

  /** The reference step keeps exactly the rows of the cleaned table that meet
      the threshold: on its own columns for "standard" and "keepers", and for
      every other stat type the rows whose player name is the name of a
      reference row that meets it. */
  lemma EligibleRows(statType: string, season: string, league: string, df: Table,
                     site: Site, parse: string -> Option<real>)
    requires league in LeagueIds && WellFormed(df) && SiteWellFormed(site)
    requires Eligible(statType, season, league, df, site, parse).Ok?
    ensures var out := Eligible(statType, season, league, df, site, parse).df;
            && (ReferenceFor(statType) == OwnTable ==>
                  forall row :: row in out.rows <==> row in df.rows && MeetsThreshold(df.columns, row))
            && (ReferenceFor(statType).Companion? ==>
                  var refPage := site.comments(StatsUrl(LeagueIds[league], season, ReferenceFor(statType).segment, league),
                                               ReferenceFor(statType).tableId);
                  && refPage.Located? && |refPage.table.header| > 0
                  && forall row :: row in out.rows <==>
                       row in df.rows
                       && Lookup(df.columns, row, PlayerColumn) in EligibleNames(ReferenceTable(refPage.table, parse)))
  {
    var out := Eligible(statType, season, league, df, site, parse).df;
    if ReferenceFor(statType).Companion? {
      var refPage := site.comments(StatsUrl(LeagueIds[league], season, ReferenceFor(statType).segment, league),
                                   ReferenceFor(statType).tableId);
      assert FetchWellFormed(refPage);
      assert refPage.Located? && |refPage.table.header| > 0;
      var reference := ReferenceTable(refPage.table, parse);
      assert out == JoinFilter(df, reference).df;
      forall row
        ensures row in out.rows <==> row in df.rows && Lookup(df.columns, row, PlayerColumn) in EligibleNames(reference)
      {
        JoinFilterSurvivors(df, reference, row);
      }
    }
  }

  /** The reference step's failures end the call with their own results
      (scraper.py:93-111): the reference page's request error, the message
      naming the reference page's URL when no comment holds the table, the
      parse error, and an `IndexError` at `std_df.columns[0]` for a table
      without columns. */
  lemma ReferenceErrorMessages(statType: string, season: string, league: string,
                               site: Site, parse: string -> Option<real>)
    requires SiteWellFormed(site) && league in LeagueIds
    requires ReferenceFor(statType).Companion?
    requires var page := site.page(StatsUrl(LeagueIds[league], season, UrlSegment(statType), league), TableId(statType));
             page.Located? && |page.table.header| > 0
    ensures var url := StatsUrl(LeagueIds[league], season, ReferenceFor(statType).segment, league);
            var refPage := site.comments(url, ReferenceFor(statType).tableId);
            var r := GetStats(statType, season, league, site, parse);
            && (refPage.PageFailed? ==> r == Err("Error loading standard stats page: " + refPage.e))
            && (refPage.NotFound? ==> r == Err("Standard stats table not found at " + url))
            && (refPage.Unparsable? ==> r == Err("Error parsing standard stats table: " + refPage.e))
            && (refPage.Located? && |refPage.table.header| == 0 ==> r == Raised("IndexError"))
  {
    var page := site.page(StatsUrl(LeagueIds[league], season, UrlSegment(statType), league), TableId(statType));
    assert FetchWellFormed(page);
    assert GetStats(statType, season, league, site, parse) == FromStatsPage(statType, season, league, page, site, parse);
    assert GetStats(statType, season, league, site, parse)
           == Eligible(statType, season, league, PlayerTable(page.table, parse), site, parse);
  }

  /** `get_fbref_team_stats(stat_type, season_str, league_name)`: the page of
      the stat type's own key (no "standard" to "stats" mapping, scraper.py:139),
      the first table whose caption starts with "Squad", cleaned with the team
      identity columns and no eligibility filter. */
  function GetTeamStats(statType: string, season: string, league: string,
                        locate: string -> Fetch, parse: string -> Option<real>): (r: Outcome)
    requires forall url :: FetchWellFormed(locate(url))
    ensures league !in LeagueIds ==> r == Raised("KeyError: " + league)
    ensures r.Ok? ==> WellFormed(r.df)
  {
    if league !in LeagueIds then Raised("KeyError: " + league)
    else
      var page := locate(StatsUrl(LeagueIds[league], season, statType, league));
      assert FetchWellFormed(page);
      match page
      case PageFailed(e) => Err("Error loading team stats page: " + e)
      case NotFound => Err("No team-level table found for stat type '" + statType + "'")
      case Unparsable(e) => Err("Error parsing table HTML: " + e)
      case Located(raw) =>
        if |raw.header| == 0 then Raised("IndexError")
        else Ok(TeamTable(raw, parse))
  }

  /** A team table get_fbref_team_stats returns is the cleaned form of the
      located "Squad" table: the league is known, the table has columns, no
      cell is NaN and every column outside {Squad, Country} holds numbers. */
  lemma TeamStatsLoaded(statType: string, season: string, league: string,
                        locate: string -> Fetch, parse: string -> Option<real>, i: nat, k: nat)
    requires forall url :: FetchWellFormed(locate(url))
    requires GetTeamStats(statType, season, league, locate, parse).Ok?
    ensures league in LeagueIds
    ensures var page := locate(StatsUrl(LeagueIds[league], season, statType, league));
            && page.Located? && |page.table.header| > 0
            && GetTeamStats(statType, season, league, locate, parse).df == TeamTable(page.table, parse)
    ensures var t := GetTeamStats(statType, season, league, locate, parse).df;
            i < |t.rows| && k < |t.columns| ==> t.rows[i][k] != Missing && (t.columns[k] !in TeamIdentity ==> t.rows[i][k].Num?)
  {
    var page := locate(StatsUrl(LeagueIds[league], season, statType, league));
    assert FetchWellFormed(page);
    assert page.Located? && |page.table.header| > 0;
    var t := GetTeamStats(statType, season, league, locate, parse).df;
    assert t == TeamTable(page.table, parse);
    if i < |t.rows| && k < |t.columns| {
      TeamTableNumeric(page.table, parse, i, k);
    }
  }

  // ---------------------------------------------------------------------------
  // build_all_leagues_df (scraper.py:193-208)
  // ---------------------------------------------------------------------------

  const LeagueColumn := "League"
  const NoData := "No data could be loaded for any league."

  /** `df["League"] = league`. */
  function Tag(t: Table, league: string): (r: Table)
    requires WellFormed(t)
    ensures WellFormed(r) && |r.rows| == |t.rows| && LeagueColumn in r.columns
    ensures forall c :: c in r.columns <==> c in t.columns || c == LeagueColumn
  {
    Assign(t, LeagueColumn, seq(|t.rows|, _ => Text(league)))
  }

  /** Every tagged row reads the league's name under "League" and its old
      value under every other name. */
  lemma TagRow(t: Table, league: string, i: nat, name: string)
    requires WellFormed(t) && i < |t.rows|
    ensures Lookup(Tag(t, league).columns, Tag(t, league).rows[i], LeagueColumn) == Text(league)
    ensures name != LeagueColumn ==>
              Lookup(Tag(t, league).columns, Tag(t, league).rows[i], name) == Lookup(t.columns, t.rows[i], name)
  {
    AssignLookup(t, LeagueColumn, seq(|t.rows|, _ => Text(league)), i, name);
  }

  /** The first exception any league raised, in league order. */
  function FirstRaised(outs: seq<Outcome>): (e: Option<string>)
    ensures e.None? <==> forall i :: 0 <= i < |outs| ==> !outs[i].Raised?
  {
    if |outs| == 0 then None
    else match FirstRaised(outs[..|outs| - 1])
      case Some(e) => Some(e)
      case None => if outs[|outs| - 1].Raised? then Some(outs[|outs| - 1].exception) else None
  }

  lemma {:induction false} FirstRaisedPrefix(outs: seq<Outcome>, n: nat, e: string)
    requires n <= |outs| && FirstRaised(outs[..n]) == Some(e)
    ensures FirstRaised(outs) == Some(e)
    decreases |outs| - n
  {
    if n < |outs| {
      assert outs[..n + 1][..n] == outs[..n];
      FirstRaisedPrefix(outs, n + 1, e);
    } else {
      assert outs[..n] == outs;
    }
  }

  /** The leagues whose table loaded, with their table, in league order. */
  function Loaded(leagues: seq<string>, outs: seq<Outcome>): (r: seq<(string, Table)>)
    requires |leagues| == |outs|
    ensures (forall i :: 0 <= i < |outs| && outs[i].Ok? ==> WellFormed(outs[i].df)) ==>
              forall p :: p in r ==> WellFormed(p.1)
  {
    if |leagues| == 0 then []
    else
      var n := |leagues| - 1;
      Loaded(leagues[..n], outs[..n]) + (if outs[n].Ok? then [(leagues[n], outs[n].df)] else [])
  }

  lemma {:induction false} LoadedSpec(leagues: seq<string>, outs: seq<Outcome>)
    requires |leagues| == |outs|
    ensures forall p :: p in Loaded(leagues, outs) <==>
              exists i :: 0 <= i < |leagues| && outs[i].Ok? && p == (leagues[i], outs[i].df)
    ensures |Loaded(leagues, outs)| == 0 <==> forall i :: 0 <= i < |outs| ==> !outs[i].Ok?
  {
    if |leagues| > 0 {
      var n := |leagues| - 1;
      LoadedSpec(leagues[..n], outs[..n]);
      forall p | p in Loaded(leagues, outs)
        ensures exists i :: 0 <= i < |leagues| && outs[i].Ok? && p == (leagues[i], outs[i].df)
      {
        if p in Loaded(leagues[..n], outs[..n]) {
          var i :| 0 <= i < n && outs[..n][i].Ok? && p == (leagues[..n][i], outs[..n][i].df);
          assert outs[i].Ok? && p == (leagues[i], outs[i].df);
        } else {
          assert p == (leagues[n], outs[n].df);
        }
      }
      forall i | 0 <= i < |leagues| && outs[i].Ok?
        ensures (leagues[i], outs[i].df) in Loaded(leagues, outs)
      {
        if i < n {
          assert outs[..n][i] == outs[i] && leagues[..n][i] == leagues[i];
        }
      }
    }
  }

  /** Every loaded table with its league's tag, in league order. */
  function TagAll(loaded: seq<(string, Table)>): (ts: seq<Table>)
    requires forall p :: p in loaded ==> WellFormed(p.1)
    ensures |ts| == |loaded|
    ensures forall m :: 0 <= m < |loaded| ==> ts[m] == Tag(loaded[m].1, loaded[m].0)
  {
    seq(|loaded|, m requires 0 <= m < |loaded| => Tag(loaded[m].1, loaded[m].0))
  }

  lemma TagAllSnoc(loaded: seq<(string, Table)>, p: (string, Table))
    requires forall q :: q in loaded ==> WellFormed(q.1)
    requires WellFormed(p.1)
    ensures TagAll(loaded + [p]) == TagAll(loaded) + [Tag(p.1, p.0)]
  {
  }

  /** What build_all_leagues_df returns, given what get_fbref_stats returned
      for each league: the first escaping exception, else the error when no
      league loaded, else the tagged tables concatenated in league order. */
  function AllLeagues(leagues: seq<string>, outs: seq<Outcome>): (r: Outcome)
    requires |leagues| == |outs|
    requires forall i :: 0 <= i < |outs| && outs[i].Ok? ==> WellFormed(outs[i].df)
  {
    match FirstRaised(outs)
    case Some(e) => Raised(e)
    case None =>
      var loaded := Loaded(leagues, outs);
      if |loaded| == 0 then Err(NoData) else Ok(Concat(TagAll(loaded)))
  }

  /** The error is reported exactly when no league raised and none loaded. */
  lemma AllLeaguesNoData(leagues: seq<string>, outs: seq<Outcome>)
    requires |leagues| == |outs|
    requires forall i :: 0 <= i < |outs| && outs[i].Ok? ==> WellFormed(outs[i].df)
    ensures AllLeagues(leagues, outs) == Err(NoData) <==> forall i :: 0 <= i < |outs| ==> outs[i].Err?
  {
    LoadedSpec(leagues, outs);
  }

  /** The union has as many rows as the loaded tables together, and the row
      for row `k` of the `m`-th loaded league carries that league's name under
      "League" and its own values under every other column it had. */
  lemma AllLeaguesRows(leagues: seq<string>, outs: seq<Outcome>, m: nat, k: nat, name: string)
    requires |leagues| == |outs|
    requires forall i :: 0 <= i < |outs| && outs[i].Ok? ==> WellFormed(outs[i].df)
    requires AllLeagues(leagues, outs).Ok?
    requires m < |Loaded(leagues, outs)| && k < |Loaded(leagues, outs)[m].1.rows|
    ensures var out := AllLeagues(leagues, outs).df;
            var ts := TagAll(Loaded(leagues, outs));
            && |out.rows| == TotalRows(ts)
            && LeagueColumn in out.columns
            && RowsBefore(ts, m) + k < |out.rows|
            && Lookup(out.columns, out.rows[RowsBefore(ts, m) + k], LeagueColumn) == Text(Loaded(leagues, outs)[m].0)
            && (name in Loaded(leagues, outs)[m].1.columns && name != LeagueColumn ==>
                  Lookup(out.columns, out.rows[RowsBefore(ts, m) + k], name)
                  == Lookup(Loaded(leagues, outs)[m].1.columns, Loaded(leagues, outs)[m].1.rows[k], name))
  {
    LoadedSpec(leagues, outs);
    var loaded := Loaded(leagues, outs);
    var ts := TagAll(loaded);
    var (league, df) := loaded[m];
    TagRow(df, league, k, name);
    ConcatRow(ts, m, k, LeagueColumn);
    if name in df.columns && name != LeagueColumn {
      ConcatRow(ts, m, k, name);
    }
  }

  /** The outcome of get_fbref_stats for each league of the list. */
  function Outcomes(statType: string, season: string, leagues: seq<string>,
                    site: Site, parse: string -> Option<real>): (outs: seq<Outcome>)
    requires SiteWellFormed(site)
    ensures |outs| == |leagues|
    ensures forall i :: 0 <= i < |leagues| ==> outs[i] == GetStats(statType, season, leagues[i], site, parse)
    ensures forall i :: 0 <= i < |outs| && outs[i].Ok? ==> WellFormed(outs[i].df)
  {
    seq(|leagues|, i requires 0 <= i < |leagues| => GetStats(statType, season, leagues[i], site, parse))
  }

  /** One more league: the first exception and the loaded tables of a prefix
      one longer. */
  lemma OneMoreLeague(leagues: seq<string>, outs: seq<Outcome>, i: nat)
    requires |leagues| == |outs| && i < |outs|
    ensures FirstRaised(outs[..i + 1]) ==
              if FirstRaised(outs[..i]).Some? then FirstRaised(outs[..i])
              else if outs[i].Raised? then Some(outs[i].exception) else None
    ensures Loaded(leagues[..i + 1], outs[..i + 1]) ==
              Loaded(leagues[..i], outs[..i]) + if outs[i].Ok? then [(leagues[i], outs[i].df)] else []
  {
    assert leagues[..i + 1][..i] == leagues[..i] && outs[..i + 1][..i] == outs[..i];
  }

  /** The first league that raises decides the outcome when none before it did. */
  lemma AllLeaguesStopsAt(leagues: seq<string>, outs: seq<Outcome>, i: nat)
    requires |leagues| == |outs| && i < |outs|
    requires forall j :: 0 <= j < |outs| && outs[j].Ok? ==> WellFormed(outs[j].df)
    requires FirstRaised(outs[..i]) == None && outs[i].Raised?
    ensures AllLeagues(leagues, outs) == Raised(outs[i].exception)
  {
    OneMoreLeague(leagues, outs, i);
    FirstRaisedPrefix(outs, i + 1, outs[i].exception);
  }

  /** When no league raises, the outcome is decided by the loaded tables. */
  lemma AllLeaguesAtEnd(leagues: seq<string>, outs: seq<Outcome>)
    requires |leagues| == |outs|
    requires forall j :: 0 <= j < |outs| && outs[j].Ok? ==> WellFormed(outs[j].df)
    requires FirstRaised(outs[..|outs|]) == None
    ensures var loaded := Loaded(leagues[..|leagues|], outs[..|outs|]);
            AllLeagues(leagues, outs) == if |loaded| == 0 then Err(NoData) else Ok(Concat(TagAll(loaded)))
  {
    assert leagues[..|leagues|] == leagues && outs[..|outs|] == outs;
  }

  /** The outcome of `load` for each league of the list. */
  function Results(leagues: seq<string>, load: string -> Outcome): (outs: seq<Outcome>)
    ensures |outs| == |leagues|
    ensures forall i :: 0 <= i < |leagues| ==> outs[i] == load(leagues[i])
  {
    seq(|leagues|, i requires 0 <= i < |leagues| => load(leagues[i]))
  }

  /** The loop of build_all_leagues_df, with `load` for the per-league call:
      load each league in turn, tag and keep the tables that loaded, skip the
      leagues that reported an error; an exception escapes at once. */
  method CollectLeagues(leagues: seq<string>, load: string -> Outcome) returns (r: Outcome)
    requires forall league :: load(league).Ok? ==> WellFormed(load(league).df)
    ensures r == AllLeagues(leagues, Results(leagues, load))
  {
    ghost var outs := Results(leagues, load);
    var allDfs: seq<Table> := [];
    for i := 0 to |leagues|
      invariant FirstRaised(outs[..i]) == None
      invariant allDfs == TagAll(Loaded(leagues[..i], outs[..i]))
    {
      var result := load(leagues[i]);
      OneMoreLeague(leagues, outs, i);
      if result.Raised? {
        AllLeaguesStopsAt(leagues, outs, i);
        return Raised(result.exception);
      }
      if result.Ok? {
        TagAllSnoc(Loaded(leagues[..i], outs[..i]), (leagues[i], result.df));
        allDfs := allDfs + [Tag(result.df, leagues[i])];
      }
    }
    AllLeaguesAtEnd(leagues, outs);
    if |allDfs| == 0 {
      r := Err(NoData);
    } else {
      r := Ok(Concat(allDfs));
    }
  }

  /** `build_all_leagues_df(stat_type, season_str, league_list)`:
      get_fbref_stats for each league of the list, in its order. */
  method BuildAllLeagues(statType: string, season: string, leagues: seq<string>,
                         site: Site, parse: string -> Option<real>) returns (r: Outcome)
    requires SiteWellFormed(site)
    ensures r == AllLeagues(leagues, Outcomes(statType, season, leagues, site, parse))
  {
    var load := (league: string) => GetStats(statType, season, league, site, parse);
    r := CollectLeagues(leagues, load);
    assert Results(leagues, load) == Outcomes(statType, season, leagues, site, parse);
  }
}
