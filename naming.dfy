/** The fixed names the scraper builds its requests from: league ids, the URL
    segment and league slug of a stats page, and the id of the table to look
    for on it (scraper.py:7-16, 20-24, 36-40, 81, 87, 139-140). */
module Naming {

  /** `league_id_dict` (scraper.py:7-16). */
  const LeagueIds: map<string, nat> := map[
    "Premier League" := 9, "La Liga" := 12, "Bundesliga" := 20, "Serie A" := 11,
    "Ligue 1" := 13, "Eredivisie" := 23, "Primeira Liga" := 32, "Belgian Pro League" := 37]

  /** The leagues in the dictionary's order (`list(league_id_dict.keys())`). */
  const Leagues: seq<string> := [
    "Premier League", "La Liga", "Bundesliga", "Serie A",
    "Ligue 1", "Eredivisie", "Primeira Liga", "Belgian Pro League"]

  /** The ten stat-type keys the scraper is called with. */
  const StatKeys: seq<string> := [
    "standard", "shooting", "passing", "passing_types", "gca",
    "defense", "possession", "playingtime", "keepers", "keepersadv"]

  /** `league_name.replace(" ", "-")`. */
  function UrlLeagueName(name: string): (slug: string)
    ensures |slug| == |name|
    ensures ' ' !in slug
    ensures forall i :: 0 <= i < |name| && name[i] != ' ' ==> slug[i] == name[i]
    ensures forall i :: 0 <= i < |name| && name[i] == ' ' ==> slug[i] == '-'
  {
    if |name| == 0 then ""
    else [if name[0] == ' ' then '-' else name[0]] + UrlLeagueName(name[1..])
  }

  /** The path segment of a player stats page: "stats" for the standard table,
      the key itself otherwise (scraper.py:23). */
  function UrlSegment(statType: string): (segment: string)
    ensures segment == "stats" <==> statType == "standard" || statType == "stats"
    ensures statType != "standard" ==> segment == statType
  {
    if statType == "standard" then "stats" else statType
  }

  /** The id of the table to locate on the page (scraper.py:36-40). */
  function TableId(statType: string): (id: string)
    ensures "stats_" <= id
  {
    if statType == "playingtime" then "stats_playing_time"
    else if statType == "keepers" then "stats_keeper"
    else if statType == "keepersadv" then "stats_keeper_adv"
    else if statType == "standard" then "stats_standard"
    else "stats_" + statType
  }

  /** Outside the three dictionary entries the id is "stats_" + key; the
      explicit "standard" case gives the same id as the default would. */
  lemma TableIdDefault(statType: string)
    requires statType !in {"playingtime", "keepers", "keepersadv"}
    ensures TableId(statType) == "stats_" + statType
  {
  }

  function Digit(d: nat): (c: char)
    requires d < 10
    ensures '0' <= c <= '9'
  {
    ('0' as int + d) as char
  }

  /** `str(n)` for a natural number: its decimal digits, most significant first. */
  function Decimal(n: nat): (s: string)
    ensures |s| > 0
    ensures forall i :: 0 <= i < |s| ==> '0' <= s[i] <= '9'
    decreases n
  {
    if n < 10 then [Digit(n)] else Decimal(n / 10) + [Digit(n % 10)]
  }

  /** The number a string of decimal digits denotes. */
  function DecimalValue(s: string): nat
    requires forall i :: 0 <= i < |s| ==> '0' <= s[i] <= '9'
  {
    if |s| == 0 then 0 else DecimalValue(s[..|s| - 1]) * 10 + (s[|s| - 1] as int - '0' as int)
  }

  /** The league id written into a URL reads back as the same number. */
  lemma {:induction false} DecimalRoundTrip(n: nat)
    ensures DecimalValue(Decimal(n)) == n
    decreases n
  {
    var s := Decimal(n);
    if n >= 10 {
      DecimalRoundTrip(n / 10);
      assert s[..|s| - 1] == Decimal(n / 10);
    }
  }

  /** `https://fbref.com/en/comps/{league_id}/{season}/{segment}/{season}-{league-slug}-Stats`
      (scraper.py:24, 81, 87, 140). */
  function StatsUrl(leagueId: nat, season: string, segment: string, league: string): string {
    "https://fbref.com/en/comps/" + Decimal(leagueId) + "/" + season + "/" + segment + "/"
      + season + "-" + UrlLeagueName(league) + "-Stats"
  }

  /** The URL starts with the site's competition path, and it holds no space
      when the season and the segment hold none: the league's spaces become
      hyphens. */
  lemma StatsUrlShape(leagueId: nat, season: string, segment: string, league: string)
    requires ' ' !in season && ' ' !in segment
    ensures "https://fbref.com/en/comps/" <= StatsUrl(leagueId, season, segment, league)
    ensures ' ' !in StatsUrl(leagueId, season, segment, league)
  {
    var url := StatsUrl(leagueId, season, segment, league);
    var prefix := "https://fbref.com/en/comps/";
    assert url[..|prefix|] == prefix;
    assert forall c :: c in Decimal(leagueId) ==> '0' <= c <= '9';
  }
}
