# Football_App data core in Dafny

Football_App is a Streamlit dashboard over FBref football statistics. This
project models the parts of it that decide *which numbers* are shown:

- **scraper** (`scraper.py`). A league's player table is cleaned in several
  steps:
  - repeated header rows are meant to be masked out; the mask as written
    keeps them (see Findings), and the model applies the intended mask;
  - the two-level header is flattened to `Category_Metric` names;
  - the rank and match-report columns are dropped;
  - every non-identity column is coerced to numbers and NaN is filled with 0.

  The table is then filtered to players with at least 5 appearances and 150
  minutes. The threshold is applied either to the table itself or through a
  name join against the standard (or goalkeeping) table of the same league.
  Team tables are cleaned with their own identity columns and are not
  filtered. `build_all_leagues_df` tags each league's table with a "League"
  column and concatenates the tables that loaded.
- **radar charts** (`visuals_old.py`). A player is ranked against a population:
  - the subject, the optional checkbox player and the comparison group are
    concatenated, and exact duplicate rows are dropped;
  - each feature gets a `_top_pct` column, `(1 - rank_min / N) * 100`;
  - a trace is drawn from `100 - top_pct`.

  `mini_radar_chart` does the same without dropping duplicates.
- **app** (`app.py`):
  - the stat-type dictionary and its reverse;
  - the loaders that refuse an unknown display label;
  - the choice of comparison group from the all-league table;
  - `get_top_similar_players`, the top-K most similar candidates by a score.

Pandas frames are values: `Table(columns, rows)` with cells `Text`, `Num` or
`Missing` (NaN). The sources' uncaught exceptions (`KeyError`, `IndexError`)
become an explicit outcome (`Outcome.Raised`, `Chart.Failed`,
`Ranking.Fails`), distinct from the `(None, message)` error returns
(`Outcome.Err`). The following are parameters of the model:

- the page request together with locating a table on the page. A `Site`
  holds the two searches of get_fbref_stats: `page(url, tableId)` looks in
  the page and then in its HTML comments, and `comments(url, tableId)` looks
  in the comments only, for the reference table. Team tables use
  `locate(url)`;
- `pd.to_numeric`'s number grammar (`parse`);
- the cosine similarity (`score`).

The three loops of the sources are methods proved against the function that
specifies them:

- the column-by-column coercion is `Normalize.CoerceColumns`;
- the league loop of `build_all_leagues_df` is `Scraper.CollectLeagues`;
- the `_top_pct` loop is `Radar.ScaleFeatures`.

The comment at visuals_old.py:14 places the best player in the top 1% and
the last in the top 100%. The code computes something else, and the model
follows the code:

- **The order of top percentages.** For the column [10, 20, 20, 30] the
  percentages are [75, 50, 50, 0]. `rankdata` ranks ascending, so the largest
  value gets rank N and top 0%, and the smallest gets top (1 - 1/N)·100%,
  not 100%.
- **The maximum does not always reach 100.** The radar value is exactly 100
  only for a strict, unique maximum. A maximum shared by two rows ranks below
  it.

## Model

| member | source | states |
|---|---|---|
| Frames.Lookup | scraper.py:125-129 | `row[name]` reads the cell under the first column of that name, and NaN where the column is absent |
| Frames.Assign | scraper.py:199 | `df[name] = values` keeps the table rectangular and the row count, and adds `name` to the columns and nothing else |
| Frames.AssignLookup | scraper.py:199 | after the assignment, row i reads `values[i]` under `name` and its old value under every other name |
| Frames.Filter | scraper.py:127-131 | a boolean mask keeps exactly the rows it accepts, each as often as before, in their original order |
| Frames.FilterKeepsAll | app.py:140 | a mask that accepts every row returns the rows unchanged |
| Frames.FilterCongruent | scraper.py:125-131 | two masks that agree on the rows select the same rows |
| Frames.Mean | visuals_old.py:31 | `Series.mean()` is NaN exactly for an empty series |
| Frames.SumBounds | visuals_old.py:31 | a sum of entries in [lo, hi] lies in [n*lo, n*hi] |
| Normalize.DropHeaderRowsAsWritten | scraper.py:61 | the mask as written keeps every row of the table |
| Normalize.DropHeaderRows | scraper.py:61-62 | the intended mask drops exactly the rows repeating the first column's header label and keeps the rest in order |
| Normalize.RepeatedHeaderSurvivesAsWritten | scraper.py:61 | a repeated "Rk" header row survives the mask as written, and the intended mask removes it |
| Normalize.FlattenName | scraper.py:63-67 | the name is the metric alone iff the category is "Unnamed…" or equals the metric, and `category_metric` otherwise |
| Normalize.FlattenHeader | scraper.py:63-67 | one flattened name per column, in column order |
| Normalize.FlattenedNamesCanCollide | scraper.py:63-67 | flattening can give two columns the same name |
| Normalize.Lower | scraper.py:69 | `str.lower()` maps each ASCII capital to its small letter and keeps the length |
| Normalize.KeptFrom | scraper.py:69 | the surviving column positions are increasing, and include every non-rank column and no rank column |
| Normalize.PickKeptIsFilter | scraper.py:69 | the kept names are exactly the names whose lower case is neither "rk" nor "matches" |
| Normalize.KeepColumns | scraper.py:69 | the table keeps its row count and is well formed; its header is the filtered header, and every row is cut down to the same kept positions |
| Normalize.DropRankColumns | scraper.py:69 | exactly the rank and match-report columns go; the others keep their order |
| Normalize.DropRankColumnsCells | scraper.py:69 | each remaining column is an original non-rank column at an increasing position, with its name and its cells |
| Normalize.ToNumeric | scraper.py:74 | a coerced and filled cell is a number: a number stays as it is, text becomes its parsed value or 0, and NaN becomes 0 |
| Normalize.Coerced | scraper.py:71-74 | identity cells are unchanged; every other cell is `to_numeric(..., errors='coerce')` of the original cell |
| Normalize.SetColumn | scraper.py:74 | `df[col] = f(df[col])` changes only that column's cell in every row |
| Normalize.CoerceColumns | scraper.py:72-74 | the loop that reassigns one column per iteration produces the table `Coerced` describes |
| Normalize.FillCell | scraper.py:76 | a filled cell is never NaN, and non-NaN cells are kept |
| Normalize.FillNa | scraper.py:76 | `fillna(0)` turns exactly the NaN cells into 0 |
| Normalize.NormalizedCells | scraper.py:71-76 | after cleaning, no cell is NaN, every non-identity cell is a number, and an identity cell is its original text or 0 |
| Normalize.NormalizedIdempotent | scraper.py:71-76 | cleaning a cleaned table changes nothing |
| Normalize.Flattened | scraper.py:61-67 | the intended mask and flattening give a rectangular table: the flattened names over the rows that do not repeat the header |
| Normalize.PlayerTable | scraper.py:61-76 | a player table's columns are the flattened names minus the rank columns, with one row per non-header row |
| Normalize.ReferenceTable | scraper.py:114-123 | the reference table keeps every flattened column and the non-header rows, coerced but not NaN-filled |
| Normalize.TeamTable | scraper.py:175-188 | a team table keeps every flattened column, with one row per non-header row |
| Normalize.PlayerTableNumeric | scraper.py:61-76 | a cleaned player table has no NaN and no rank column, and every non-identity cell is a number |
| Normalize.TeamTableNumeric | scraper.py:175-188 | a cleaned team table has no NaN, and every cell outside {Squad, Country} is a number |
| Naming.UrlLeagueName | scraper.py:21 | `replace(" ", "-")`: same length, no space left, every other character kept |
| Naming.UrlSegment | scraper.py:23 | the segment is "stats" for "standard" and the key itself otherwise |
| Naming.TableId | scraper.py:36-40 | every table id starts with "stats_" |
| Naming.TableIdDefault | scraper.py:36-40 | outside the three dictionary keys the id is "stats_" + key, "standard" included |
| Naming.Decimal | scraper.py:24 | `str(league_id)` is a non-empty string of digits |
| Naming.DecimalRoundTrip | scraper.py:24 | the league id written into the URL reads back as the same number |
| Naming.StatsUrlShape | scraper.py:24 | the URL starts with the competitions path and holds no space when the season and segment hold none |
| Eligibility.ReferenceFor | scraper.py:79-88 | the table itself decides eligibility iff the stat type is "standard" or "keepers" |
| Eligibility.ReferenceIsScrapedTable | scraper.py:81-88 | the companion table is the page and table the scraper fetches for "keepers", resp. "standard" |
| Eligibility.OwnFilter | scraper.py:129-131 | raises iff a threshold column is missing; otherwise keeps exactly the rows with MP ≥ 5 and Min ≥ 150, each as often as before |
| Eligibility.JoinFilter | scraper.py:125-127 | raises iff one of the four looked-up columns is missing; otherwise keeps the target rows whose name is an eligible reference name, each as often as before |
| Eligibility.JoinFilterSurvivors | scraper.py:125-127 | a target row survives iff some reference row meeting the threshold has the same player name |
| Eligibility.SelfJoinIsOwnFilter | scraper.py:125-131 | when a player's rows agree on eligibility, joining a table with itself equals filtering it directly |
| Eligibility.TwoPlayerExample | scraper.py:125-127 | a reference with an eligible P1 and an ineligible P2 keeps only P1's target row |
| Concatenation.AddNew | scraper.py:207 | the column union holds exactly the names of both lists and stays duplicate-free |
| Concatenation.UnionColumns | scraper.py:207 | the union covers every table's columns without duplicates |
| Concatenation.UnionFromOnly | scraper.py:207 | a name in the union is in the starting list or in one of the tables' columns |
| Concatenation.AlignLookup | scraper.py:207 | an aligned row reads the same as the original row under every name |
| Concatenation.Concat | scraper.py:207 | `pd.concat` is rectangular, has the total row count and includes every table's columns |
| Concatenation.ConcatColumns | scraper.py:207 | the concatenation's columns are exactly the tables' columns, each once |
| Concatenation.StackRowsAt | scraper.py:207 | row k of table i sits at position RowsBefore(i) + k of the stack |
| Concatenation.ConcatRow | scraper.py:207 | that row reads the same as the original row under every name |
| Concatenation.ConcatSame | visuals_old.py:12 | tables with the same duplicate-free columns concatenate to their rows one after another |
| Scraper.Eligible | scraper.py:79-131 | standard/keepers filter their own table; any other type looks its reference table up in the page's comments and joins; a result is a subsequence over the same columns |
| Scraper.GetStats | scraper.py:19-133 | an unknown league is a KeyError, and every returned table is rectangular |
| Scraper.FromStatsPage | scraper.py:24-131 | a table is returned only when the stats table was located and has columns, and it is rectangular |
| Scraper.GetStatsLoaded | scraper.py:19-76 | a returned table comes from the located, non-empty table, cleaned and then passed through the reference step |
| Scraper.EligibleRows | scraper.py:125-131 | a row of the cleaned table is returned iff it meets the threshold itself (standard, keepers) or a reference row with its name meets it |
| Scraper.HeaderRowIneligible | scraper.py:61-76 | a repeated header row holding "MP" under the appearances column is cleaned to 0 there and fails the threshold when "MP" does not parse |
| Scraper.ReferenceErrorMessages | scraper.py:93-111 | a failed reference page, a missing reference table, an unparsable one and one without header give their four outcomes |
| Scraper.GetTeamStats | scraper.py:136-190 | an unknown league is a KeyError, and every returned table is rectangular |
| Scraper.TeamStatsLoaded | scraper.py:136-190 | a returned team table is the cleaned "Squad" table: no NaN, every non-identity column numeric |
| Scraper.Tag | scraper.py:199 | tagging adds the "League" column and keeps the row count |
| Scraper.TagRow | scraper.py:199 | every tagged row reads the league under "League" and its old values elsewhere |
| Scraper.FirstRaised | scraper.py:196-202 | no exception is reported iff no league raised |
| Scraper.LoadedSpec | scraper.py:196-202 | the kept tables are exactly those of the leagues that loaded, and none are kept iff none loaded |
| Scraper.AllLeaguesNoData | scraper.py:204-205 | "No data could be loaded for any league." is returned iff every league reported an error |
| Scraper.AllLeaguesRows | scraper.py:196-208 | the union's row count is the sum over the loaded leagues, and each league's row k carries its league name and own values |
| Scraper.AllLeaguesStopsAt | scraper.py:196-197 | the first league that raises decides the outcome |
| Scraper.CollectLeagues | scraper.py:193-208 | the loop returns what `AllLeagues` prescribes for the per-league outcomes |
| Scraper.BuildAllLeagues | scraper.py:193-208 | `build_all_leagues_df` equals `AllLeagues` over get_fbref_stats for each listed league |
| Percentile.CountLessAppend | visuals_old.py:16 | the count of smaller entries is additive over concatenation |
| Percentile.CountLessAll | visuals_old.py:16 | every entry is counted iff every entry is smaller |
| Percentile.CountLessMonotone | visuals_old.py:16 | a larger value has at least as many entries below it |
| Percentile.RankOfEntry | visuals_old.py:16 | an entry's min-rank lies in 1..N, and is N iff every other entry is strictly smaller |
| Percentile.TopOfBounds | visuals_old.py:15-29 | the top % lies in [0,100) and the magnitude in (0,100]; the two sum to 100 and hit 0 / 100 exactly at rank N |
| Percentile.TopOfMonotone | visuals_old.py:16 | a larger rank never gives a larger top percentage |
| Percentile.TrueTopPercentile | visuals_old.py:15-16 | one `(1 - rank_min/N)*100` per entry |
| Percentile.TopPercentileProperties | visuals_old.py:15-16 | each entry's top % lies in [0,100), ties share it, and a larger value has no larger top % |
| Percentile.RadarMagnitude | visuals_old.py:29 | `100 - top_pct` lies in (0,100], and is 100 iff the entry is a strict unique maximum |
| Percentile.TiedMaximumBelowTop | visuals_old.py:15-16 | [30, 30] gives [50, 50], so a tied maximum is not drawn at 100 |
| Percentile.FourValueExample | visuals_old.py:15-16 | [10, 20, 20, 30] gives [75, 50, 50, 0] |
| Percentile.SumComplement | visuals_old.py:31 | the complements to 100 sum to 100·n minus the sum |
| Percentile.GroupMagnitudeIsMeanMagnitude | visuals_old.py:31 | `100 - mean(top_pct)` is the mean of the magnitudes |
| Percentile.MeanOfMagnitudes | visuals_old.py:31 | a mean of magnitudes in (0,100] lies in (0,100] |
| Percentile.GroupRadarValue | visuals_old.py:26-31 | the group value over rows from..N is the mean of their magnitudes and lies in (0,100] |
| Radar.Dedup | visuals_old.py:12 | `drop_duplicates()` keeps the same set of rows, distinct, with the first row first |
| Radar.DedupSubsequence | visuals_old.py:12 | the kept rows appear in the input in the same order |
| Radar.DedupOrder | visuals_old.py:12 | the kept rows are in the order of their first occurrences |
| Radar.DedupPrefix | visuals_old.py:12 | deduplicating a prefix gives a prefix of the result |
| Radar.DedupSecond | visuals_old.py:12 | a second row that differs from the first stays the second row |
| Radar.DedupDistinct | visuals_old.py:12 | distinct rows are left as they are |
| Radar.Population | visuals_old.py:12 | the population is rectangular and has no duplicate rows |
| Radar.PopulationRows | visuals_old.py:12 | the population has the concatenation's columns and exactly its rows, each once, in the order of their first occurrences |
| Radar.CheckboxIsRowOne | visuals_old.py:12-25 | for a one-row subject, the checkbox frame's first row is row 1 of the population when it differs from the subject's row |
| Radar.SubjectIsRowZero | visuals_old.py:12-26 | the subject's first row is row 0 and appears nowhere else in the population |
| Radar.MissingCheckboxShiftsGroup | visuals_old.py:12-26 | without a checkbox frame, the first comparison row takes row 1 and the group is the rest |
| Radar.TwoFramesConcat | visuals_old.py:12 | two frames with the same columns concatenate to their rows one after the other |
| Radar.Column | visuals_old.py:19 | one number per row under the feature, read by name |
| Radar.NumericColumns | visuals_old.py:8-9 | the default features are exactly the subject's all-number columns, in order |
| Radar.Selected | visuals_old.py:19 | `combined_df[features]` holds exactly the features, each as its column |
| Radar.ScaleStep | visuals_old.py:21 | one iteration sets the feature's `_top_pct` column to the feature column's top percentiles and leaves every other column alone |
| Radar.Scaled | visuals_old.py:19-21 | after the loop every feature's `_top_pct` column exists and no column is lost |
| Radar.ScaleFeatures | visuals_old.py:19-21 | the in-place loop returns `Scaled` of its input |
| Radar.ScaledUntouched | visuals_old.py:19-21 | a column the loop never writes keeps its values |
| Radar.ScaledColumns | visuals_old.py:19-21 | without name collisions each feature keeps its values and its `_top_pct` is its top percentile |
| Radar.CollidingFeatureRanksPercentiles | visuals_old.py:19-21 | with features "a" and "a_top_pct", the second is ranked over the first's percentages |
| Radar.ScaledUniform | visuals_old.py:19-21 | every column of the scaled frame has the population's length |
| Radar.RadarComparison | visuals_old.py:6-39 | fails iff the population has under two rows or lacks a feature; a drawn chart uses exactly the given (or default) features |
| Radar.DefaultFeatures | visuals_old.py:8-9 | without `features` the chart uses exactly the subject's numeric columns |
| Radar.DrawnRadarAt | visuals_old.py:29-30 | row i's radar value is its magnitude: in (0,100], and 100 iff it is the strict maximum |
| Radar.DrawnValueAt | visuals_old.py:34-38 | the actuals are the row's own values and the top % is the column's percentile |
| Radar.DrawnGroupValue | visuals_old.py:26-36 | the group value is the mean magnitude of rows 2.., in (0,100], absent iff there are none |
| Radar.ComparisonValues | visuals_old.py:24-38 | a drawn chart holds the values above over the assembled population |
| Radar.MiniPopulation | visuals_old.py:111-114 | the population is the player frame then the group frame, with duplicates kept |
| Radar.MiniRadar | visuals_old.py:102-150 | one radar value per feature, and a group trace iff a group frame is given |
| Radar.MiniRadarAlone | visuals_old.py:114-125 | a lone one-row player is drawn at 100 on every axis, whatever the feature names |
| Radar.ScaledSingleRow | visuals_old.py:119-121 | over a single row every `_top_pct` column the loop writes is [0] |
| Radar.MiniRadarGroup | visuals_old.py:139-142 | the group value is the mean magnitude of every row after the first, in (0,100] |
| Similarity.Candidates | app.py:82 | the candidates are exactly the rows that are not the excluded player and have every feature, in order |
| Similarity.Insert | app.py:87 | inserting into a descending sequence keeps it descending and adds exactly that element |
| Similarity.SortDescending | app.py:87 | `sort_values(ascending=False)` is non-increasing and a permutation |
| Similarity.TiedScoresKeepOrder | app.py:87 | two candidates with the same score come out of the sort in their input order |
| Similarity.Head | app.py:87 | `head(n)` is the first n entries, or all but the last -n for negative n |
| Similarity.TopSimilar | app.py:81-87 | KeyError iff "Player" or a feature is missing; None iff no candidate is left or the subject vector is empty |
| Similarity.TopSimilarRows | app.py:85-87 | the result is the first `top_n` scored candidates by score, over the columns plus "similarity" |
| Similarity.AssignedCandidates | app.py:82-86 | every scored row is a candidate whose "similarity" cell holds its score |
| Similarity.TopK | app.py:87 | the top entries are sorted scored candidates, min(top_n, N) of them, and no left-out candidate scores higher |
| Similarity.PrefixDominates | app.py:87 | in a sorted sequence, an entry outside the first k is no higher than any inside |
| Similarity.TopSimilarCountAndRank | app.py:83-87 | a non-negative `top_n` returns min(top_n, #candidates) rows, and no left-out candidate outscores a returned one |
| Similarity.TopSimilarReturned | app.py:82-87 | each returned row is not the excluded player, has every feature and a numeric similarity, and no later row has a higher one |
| Similarity.RankReturned | app.py:86-87 | each ranked row is a scored row, and similarity does not increase down the table |
| App.ToMap | app.py:32-43 | a dict built from items has exactly the items' keys |
| App.ToMapFinds | app.py:32-46 | with distinct keys, every item is found under its key |
| App.StatTypesDistinct | app.py:32-43 | the labels are distinct, and so are the keys |
| App.StatLabelRoundTrip | app.py:32-46 | reverse[forward[label]] == label, and forward[reverse[key]] == key |
| App.StatLabelKeys | app.py:115 | the reverse dictionary knows exactly the scraper's ten keys; any other key looks up to itself |
| App.CachedStats | app.py:60-64 | an unknown label gives "Statistic type '<label>' not supported." without fetching; a known one is scraped under its key |
| App.CachedTeamStats | app.py:66-71 | the same for the team loader |
| App.LoadAllLeagueData | app.py:73-79 | an unknown label gives the error; otherwise the result of build_all_leagues_df over the eight leagues in order |
| App.UnsupportedLabel | app.py:61-70 | every listed label is supported, and an unsupported one gets the same message from both loaders |
| App.OfLeagues | app.py:132-136 | `isin(leagues)` raises iff "League" is missing; otherwise keeps exactly the rows of those leagues |
| App.SelectGroup | app.py:127-140 | KeyError iff "League" is missing in a filtering branch; otherwise a subsequence of the all-league rows |
| App.SelectGroupRows | app.py:131-140 | the chosen league's rows, the five's, the three's, or every row for any other label |
| App.GroupsPartitionLeagues | app.py:127-128 | the five and the three leagues are the eight, with no overlap |
| App.EightIsFivePlusThree | app.py:127-128 | a row is among the eight iff among the five or the three, never both |
| App.ComparisonGroups | app.py:217-222 | the groups are the chosen league alone, "Big 5 Leagues" with the five, "Eredivisie/Primeira Liga/Jupiler" with the three, and "All 8 Leagues" with all eight, the five and the three together making the eight |
| App.JupilerLabelMismatch | app.py:131-136 | the similarity section's "…/Jupiler" label selects every row in the comparison view |

## Left out

- HTTP requests, BeautifulSoup, the search for a table by id or caption
  (including inside HTML comments) and `pd.read_html`. These are network I/O
  and third-party parsing, so the model takes their outcome as the `Site`
  searches and the `locate` parameter (scraper.py:26-59, 90-112, 142-173).
  The error text of `pd.read_html` on a missing table is modelled as the
  fixed string "No tables found".
- `pd.to_numeric`'s number grammar is the `parse` parameter, and the cosine
  similarity is the `score` parameter (app.py:85). Both are floating point in
  foreign libraries. `score` is total, so the model assumes the similarity is
  defined on every input it gets: `cosine_similarity` raising a ValueError on
  a subject vector holding NaN, or on one whose width differs from the number
  of features, is not modelled.
- Floating-point arithmetic. Percentages and means are exact reals. NaN is the
  `Missing` cell, or `None` for an empty mean.
- Normalize.Flattened: applies the intended header mask
  (Normalize.DropHeaderRows), so it leaves out repeated header rows that the
  code as written keeps (scraper.py:61; see Findings).
- Normalize.PlayerTable: built on Normalize.Flattened, so it has no repeated
  header rows, which the code as written keeps until the eligibility filter
  (scraper.py:61). A table that judges itself drops such a row there anyway
  when "MP" does not parse (Scraper.HeaderRowIneligible).
- Normalize.ReferenceTable: built on Normalize.Flattened, so it has no
  repeated header rows, which the code as written keeps (scraper.py:114).
- Normalize.TeamTable: built on Normalize.Flattened, so it has no repeated
  header rows, which the code as written keeps and returns (scraper.py:175).
- Scraper.TeamStatsLoaded: states the cleaned team table under the intended
  header mask, not the returned table with its repeated header rows
  (scraper.py:175).
- Radar.Value: a feature cell that is not a number is read as 0. Pandas
  would rank text or NaN differently; the charts are only drawn over numeric
  columns.
- Normalize.Lower: only ASCII letters are lower-cased, not full Unicode
  `str.lower()`.
- Columns are addressed by their first occurrence. Pandas' behaviour for
  duplicate column names, which flattening can produce, is not modelled.
- Radar.NumericColumns: decides by cell content, not by dtype as
  `select_dtypes` does (visuals_old.py:9). A float column with a NaN cell is
  numeric to pandas but dropped by the model; a column of numbers stored with
  object dtype is the reverse; on a table without rows the model counts every
  column as numeric.
- App.ComparisonGroups: a list of four (label, leagues) pairs where the code
  builds a dict (app.py:217-222). The two agree because the chosen league is
  a league name and never one of the three group labels.
- Similarity.SortDescending: pandas' default quicksort is not stable. The
  model sorts stably (tied entries keep their input order, as
  Similarity.TiedScoresKeepOrder shows for two), while the proved contracts
  (order, permutation and the top-K property) hold for any tie order. At a
  `head(top_n)` cut between two tied candidates the model keeps the earlier
  one; pandas may keep either.
- Streamlit widgets, query parameters, `st.cache_data` memoisation, messages
  shown to the user, the About page and the plotting and label formatting
  (app.py:10-30, 90-124, 141-216, 223-303; visuals_old.py:42-100, 127-159).
  The `print` of a skipped league (scraper.py:202) is output only.
- `DataFrame.append` (app.py:144) and the call of `plot_radar_comparison`
  with a `comparison_player2` keyword (app.py:166). Neither exists in the
  versions the code targets: the method was removed from pandas, and the
  keyword is not a parameter of the function shown. They lie on the UI path,
  which is not modelled.
- `app_old.py` and `scraper_old.py` are earlier drafts of the same
  functions; `visuals.py` is not part of this model.

## Findings

| source | as written | input that shows it | evidently intended | confidence | as-written member | corrected member |
|---|---|---|---|---|---|---|
| scraper.py:61 (also 114, 175) | `df[df[df.columns[0]] != df.columns[0]]` compares the first column's cells with its two-level column key, a (category, metric) pair. No cell equals the pair, so every row is kept. | A table whose first column is `("Unnamed: 0_level_0", "Rk")` and whose body repeats the header row `["Rk", "Player"]`. The repeated row stays in the cleaned table, and coercion then turns its cells into 0. | Drop the rows that repeat the header, i.e. whose first cell equals the first column's metric label ("Rk"). | not executed; follows from pandas comparing a Series with a tuple as one scalar | Normalize.DropHeaderRowsAsWritten | Normalize.DropHeaderRows |
