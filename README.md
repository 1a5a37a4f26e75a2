# Cricket analysis pipeline — a verified model

This project models the feature pipeline of a cricket statistics repository in Dafny and
proves what each step guarantees. The pipeline has five steps, which the model follows.

1. **Opponent resolution** (`extract_new_columns.py`).
   - Rows are grouped by match date.
   - Every date with exactly two distinct teams writes both teams into a team-to-team
     dictionary. A later date overwrites an earlier entry.
   - Each row's `opponent_team` is looked up by its team.
   - The per-opponent means of `total_runs` and `total_wickets` are left-merged back.
   - The gaps are filled with `"Unknown"` and 0.
2. **Player form** (`feature_engineering.py`).
   - The table is sorted by (player, date).
   - Each row gets the mean of its player's last (up to) five runs and wickets.
   - The same opponent profile is merged in, without a default.
3. **Fantasy ranking and win label** (`cricket_model.py`).
   - Each row gets a fixed linear score.
   - The scores are summed per player and ranked by descending total.
   - A binary `win` label compares the batting average with the opponent's average runs.
4. **Raw-table cleaning** (`inspect_raw_data.py`). Exact duplicate rows are dropped, and
   then every column's gaps are filled by column kind.
5. **Query handlers** (`app.py`).
   - Two handlers filter teams case-insensitively and answer "not found" when a team is
     missing.
   - They build the feature vectors passed to the trained predictors. The predictors are
     function parameters.
   - A third handler selects the top-N fantasy rows of one match.

Modules:
- `Collections`: Option, de-duplication, sums and means, a generic sort, `Filter` with its
  count, sum and mean over the accepted elements, `Take`.
- `Strings`: code-point order, ASCII lower-casing and the "Unknown" placeholder.
- `Rows`: the observation record.
- `OpponentStrength`: the opponent aggregation and left merge shared by steps 1 and 2.
- One module per script: `ExtractNewColumns`, `FeatureEngineering`, `CricketModel`,
  `InspectRawData` and `App`.

Where the code works by updating state step by step, the model is imperative:
- The `opponent_dict` loop is the method `BuildOpponentDict`, with a `while` loop.
- The fill loop of `clean_dataframe` is the method `CleanDataFrame`, with a `for` loop
  over the columns.

Each method is proved equal to a pure function, and the properties are proved
about that function. The rest of the pipeline consists of table expressions and is
modelled by functions.

Four points of the code's behaviour are easy to misread. The model follows the code in
each case.
- **Opponent assignment.** The opponent is looked up by team alone
  (`extract_new_columns.py:21`), so every row of a team gets the same opponent, whatever
  its date. See `ExtractNewColumns.SameTeamSameOpponent`.
- **Window of the opponent averages.** The comment at `extract_new_columns.py:23` says
  "last 5 matches". The code averages each opponent's whole history. See
  `OpponentStrength.ProfileTable`.
- **Default in `feature_engineering.py`.** That file fills no default, so an opponent
  without a profile stays absent there.
- **Tie order of the ranking.** The one-key `sort_values` of the ranking is not stable,
  so the model promises no order among equal scores. The two-key sort by (player,
  match_date) is stable, and so is the model's (`FeatureEngineering.SortByPlayerDateStable`).
  The rolling means of rows with the same player and date depend on that order.

`clean_dataframe` removes duplicates *before* it fills gaps, so its result can still hold
two equal rows (`InspectRawData.DedupBeforeFill`). The kept rows are distinct only before
the fill.

## Model

| member | source | states |
|---|---|---|
| Collections.Dedup | data_processing/inspect_raw_data.py:11 | the result has no repeated element, and holds exactly the elements of the input |
| Collections.DedupKeepsFirstOccurrenceOrder | data_processing/inspect_raw_data.py:11 | kept elements appear in the order of their first occurrences in the input |
| Collections.SortBy | data_processing/feature_engineering.py:12 | the result is a permutation of the input (same length and multiset), ordered by the given total preorder |
| Collections.SortByKeepsLevel | data_processing/feature_engineering.py:12 | the sort is stable: for every y, the elements ranked level with y come out in their input order |
| Collections.InsertSortedKeepsLevel | data_processing/feature_engineering.py:12 | an inserted element goes after every element already level with it |
| Collections.Filter | app/app.py:25-26 | every value the mask accepts is kept as often as it occurs in the input, and no other value; the length is the number of accepted rows |
| Collections.FilterMembers | app/app.py:25-26 | every kept row is an input row, every accepted input row is kept, and the result is empty iff no row is accepted |
| Collections.FilterConcat | app/app.py:25-26 | filtering a concatenation filters each part in turn, so the kept rows stay in input order |
| Collections.FilterColumnSum | app/app.py:32 | the sum of a column of the filtered rows is the column's value added over every accepted row, counted with multiplicity |
| Collections.FilterColumnMean | app/app.py:32-35 | the mean of a column of the filtered rows is the mean over every accepted row, and absent when no row is accepted |
| Collections.Take | app/app.py:67 | head(n) for n >= 0 is the prefix of length min(n, length) |
| Collections.MeanWithinMinMax | data_processing/feature_engineering.py:15-16 | the mean of a non-empty column lies between its minimum and maximum |
| Strings.Lower | app/app.py:25 | `str.lower()`: the result has the input's length, and each character is lower-cased on its own (ASCII letters only; see Left out) |
| Strings.LexLeIsTotalPreorder | model_training/cricket_model.py:25 | code-point order on strings is total and transitive, so the groupby keys (and the sort by player) can be put in that order |
| OpponentStrength.FacedByNonEmpty | data_processing/extract_new_columns.py:24-27 | an opponent's group is non-empty iff some row names that opponent |
| OpponentStrength.Accumulate | data_processing/extract_new_columns.py:24-27 | the one-pass accumulation behind groupby: every opponent a row names gets an entry, and every entry has counted at least one row; the exact sums are in `AccumulateMeaning` |
| OpponentStrength.AccumulateMeaning | data_processing/extract_new_columns.py:24-27 | the single pass over the rows yields, for each opponent, the sums and the count of exactly its group |
| OpponentStrength.ProfileTable | data_processing/extract_new_columns.py:24-27 | the table has a key iff some row has that opponent; its value is the mean total_runs and mean total_wickets over all rows against it; missing opponents form no group |
| OpponentStrength.LookupProfile | data_processing/extract_new_columns.py:30 | the left merge attaches the key's profile, and nothing when the key is missing or has no profile |
| OpponentStrength.MergedProfileOfRow | data_processing/feature_engineering.py:19-24 | merging a table with its own profile: a row gets a profile iff its opponent is present, and it is that opponent's whole-history means |
| ExtractNewColumns.DistinctDates | data_processing/extract_new_columns.py:11 | the group keys are strictly ascending and are exactly the dates that occur |
| ExtractNewColumns.DateGroups | data_processing/extract_new_columns.py:11 | one group per date; each group is non-empty and duplicate-free, and holds exactly the teams playing on that date |
| ExtractNewColumns.BuildOpponentDict | data_processing/extract_new_columns.py:14-18 | the dictionary equals the fold over the groups; a team has an entry iff some group of exactly two teams contains it |
| ExtractNewColumns.OpponentDictOf | data_processing/extract_new_columns.py:15-18 | the dictionary after the loop: every team of a two-team group has an entry, and every entry's opponent has one too; the exact domain, the overwrite order and the entries are in `OpponentDictDomain`, `OpponentDictLastWins` and `OpponentDictEntry` |
| ExtractNewColumns.OpponentDictDomain | data_processing/extract_new_columns.py:15-18 | groups with one or with three or more teams add no entries |
| ExtractNewColumns.OpponentDictLastWins | data_processing/extract_new_columns.py:15-18 | a team's entry is its partner in the last two-team group containing it |
| ExtractNewColumns.OpponentDictEntry | data_processing/extract_new_columns.py:15-18 | an entry never maps a team to itself, and the two teams share some two-team group |
| ExtractNewColumns.OpponentDictNotSymmetric | data_processing/extract_new_columns.py:15-18 | with dates {A, B} then {B, C}: A maps to B but B maps to C |
| ExtractNewColumns.ResolvedIffTwoTeamDate | data_processing/extract_new_columns.py:11-21 | a team is resolved iff it is one of exactly two teams on some date |
| ExtractNewColumns.ResolvedOpponentSharesDate | data_processing/extract_new_columns.py:11-21 | a resolved team's opponent is another team, and the two are the only teams on some date |
| ExtractNewColumns.AssignOpponents | data_processing/extract_new_columns.py:21 | every row is kept; a row has an opponent iff its team is a key of the dictionary, and then it is that key's value; two rows of one team get the same opponent |
| ExtractNewColumns.ExtractNewColumnsScript | data_processing/extract_new_columns.py:11-35 | the script's output is the resolved table |
| ExtractNewColumns.Resolve | data_processing/extract_new_columns.py:21-35 | the script's output frame: one row per input row, in order, with every input column kept; its opponent and averages are stated by `ResolvedIffTwoTeamDate`, `ResolvedRowAverages`, `SameTeamSameOpponent` and `UnresolvedRowDefaults` |
| ExtractNewColumns.MergeAndFill | data_processing/extract_new_columns.py:30-35 | the left merge on `opponent_team` followed by the three fills: the row count and input columns are kept; a row without an opponent gets "Unknown" and 0, 0; a row with one keeps it and gets that opponent's profile means from `ProfileTable`, or 0, 0 if the opponent has no profile |
| ExtractNewColumns.ResolvePreservesRows | data_processing/extract_new_columns.py:30 | the merge keeps the row count, the order and every input column |
| ExtractNewColumns.SameTeamSameOpponent | data_processing/extract_new_columns.py:21 | two rows of one team get the same opponent and averages, whatever their dates |
| ExtractNewColumns.UnresolvedRowDefaults | data_processing/extract_new_columns.py:33-35 | a team in no two-team date gets "Unknown" and averages of exactly 0 |
| ExtractNewColumns.ResolvedRowAverages | data_processing/extract_new_columns.py:23-30 | a resolved row carries a genuine opponent and that opponent's whole-history means |
| ExtractNewColumns.FacedByOnlyResolved | data_processing/extract_new_columns.py:24-27 | an opponent's group holds only rows resolved to it, because the fill runs after the aggregation |
| FeatureEngineering.KeyLeIsTotalPreorder | data_processing/feature_engineering.py:12 | the (player, date) order is total and transitive |
| FeatureEngineering.SortByPlayerDate | data_processing/feature_engineering.py:12 | the sorted frame is a permutation of the input, ascending by player and then date |
| FeatureEngineering.SortByPlayerDateStable | data_processing/feature_engineering.py:12 | rows with equal player and match_date keep their input order, as the two-key `sort_values` (a stable lexsort) keeps them |
| FeatureEngineering.SortedIsContiguous | data_processing/feature_engineering.py:12-15 | in the sorted frame each player's rows form one block |
| FeatureEngineering.RollingColumn | data_processing/feature_engineering.py:15-16 | the rolling column of a sorted frame has one value per row; what each value is, is stated by `RollingColumnIsTrailingMean` |
| FeatureEngineering.RollingColumnIsTrailingMean | data_processing/feature_engineering.py:15-16 | on a frame in player blocks, row i's value is the trailing window mean of its own player's values up to row i |
| FeatureEngineering.RollingIsCausal | data_processing/feature_engineering.py:15 | a row's rolling value depends only on its player's rows up to that row |
| FeatureEngineering.FeatureTableIsSortedPermutation | data_processing/feature_engineering.py:12 | the output rows are the input rows, sorted by (player, date) |
| FeatureEngineering.FeatureTableRolling | data_processing/feature_engineering.py:15-16 | rolling_runs and rolling_wickets are the means of the player's last (up to) five observations ending at the row |
| FeatureEngineering.FeatureTableRollingBounds | data_processing/feature_engineering.py:15-16 | every rolling value lies between the smallest and largest value of its window |
| FeatureEngineering.FeatureTableRollingNonNegative | data_processing/feature_engineering.py:15-16 | when no row has negative total_runs or total_wickets, every rolling_runs and rolling_wickets value is non-negative |
| FeatureEngineering.FeatureTableFirstObservation | data_processing/feature_engineering.py:15-16 | a player's first observation carries its own runs and wickets |
| FeatureEngineering.FeatureTableProfile | data_processing/feature_engineering.py:19-24 | the profile is absent iff the opponent is missing; otherwise it is the opponent's means; no default is filled in |
| FeatureEngineering.FeatureTable | data_processing/feature_engineering.py:12-24 | the saved frame: one row per input row, holding exactly the input rows (as a multiset), ascending by (player, date); its columns are stated by `FeatureTableRolling`, `FeatureTableRollingBounds`, `FeatureTableFirstObservation` and `FeatureTableProfile` |
| FeatureEngineering.SortedRowColumn | data_processing/feature_engineering.py:12 | a table whose rows are the sorted frame holds the input rows in (player, date) order |
| FeatureEngineering.RollingExample | data_processing/feature_engineering.py:15 | runs 10..60: the rolling mean is 10 at the first match and 40 at the sixth |
| CricketModel.FantasyScore | model_training/cricket_model.py:16-23 | the fantasy_score of one row; the formula has no constant term, so an all-zero row scores 0; the six weights are stated by `FantasyScoreWeights` and their signs by `FantasyScoreMonotone` |
| CricketModel.FantasyScoreWeights | model_training/cricket_model.py:16-23 | a run adds 1.2 points, a wicket 25, a point of batting average 5, a point of bowling average -3, of opponent average runs -0.5 and of opponent average wickets 0.5 |
| CricketModel.FantasyScoreMonotone | model_training/cricket_model.py:16-23 | the score never drops with more runs, wickets, batting average or opponent wickets, or with less bowling average or opponent runs |
| CricketModel.RowScores | model_training/cricket_model.py:16-23 | the score column holds each row's score, in row order |
| CricketModel.DistinctPlayers | model_training/cricket_model.py:25 | the groupby keys are distinct, ascending, and exactly the players that occur |
| CricketModel.GroupByPlayer | model_training/cricket_model.py:25 | one row per player that occurs, no other players, each holding the sum of that player's row scores |
| CricketModel.PlayerTotalAbsent | model_training/cricket_model.py:25 | a player without rows has total 0 |
| CricketModel.GroupByPlayerKeepsTotal | model_training/cricket_model.py:25 | the player totals add up to the sum of all row scores |
| CricketModel.PermutationSameSum | model_training/cricket_model.py:26 | reordering the grouped table keeps its score total |
| CricketModel.PermutationKeepsPlayers | model_training/cricket_model.py:26 | reordering the grouped table keeps one row per player, and the same players |
| CricketModel.RankPlayers | model_training/cricket_model.py:26 | the ranking is a permutation of the grouped rows, non-increasing by score |
| CricketModel.FantasyRanking | model_training/cricket_model.py:25-26 | the saved table is a permutation of the grouped player totals, non-increasing by score; each player's presence and total are stated by `FantasyRankingMeaning` |
| CricketModel.FantasyRankingMeaning | model_training/cricket_model.py:25-26 | the saved ranking has each occurring player once with its total, is non-increasing, and keeps the grand total |
| CricketModel.Win | model_training/cricket_model.py:60 | the label is 0 or 1, and 1 iff batting_avg > avg_opponent_runs (a tie gives 0) |
| CricketModel.WinColumn | model_training/cricket_model.py:60 | each row's label is 1 iff its batting average strictly exceeds its opponent's run average, and 0 otherwise |
| InspectRawData.FillCell | data_processing/inspect_raw_data.py:15-18 | a missing cell becomes "Unknown" in a categorical column and 0 in a numeric one; other cells are kept; the result is never missing |
| InspectRawData.FillColumn | data_processing/inspect_raw_data.py:16-18 | filling one column changes that column's cells by the fill rule and keeps every other cell |
| InspectRawData.FillTable | data_processing/inspect_raw_data.py:14-18 | filling the whole table keeps the row count, and each row becomes `FillRow` of that row, which fills every cell by its column's kind (`FillCell`) |
| InspectRawData.CleanDataFrame | data_processing/inspect_raw_data.py:9-20 | the result is the de-duplicated table with every row filled; it has no missing cell, the same columns and no more rows |
| InspectRawData.DedupKeepsFirstOccurrences | data_processing/inspect_raw_data.py:11 | kept rows are distinct first occurrences, every input value is kept, and their order is preserved |
| InspectRawData.DedupBeforeFill | data_processing/inspect_raw_data.py:11-18 | a missing row and an "Unknown" row are both kept and become equal; two missing rows collapse into one |
| App.MeanOrAbsent | app/app.py:34-35 | the mean of an empty column is absent (NaN); otherwise it is the mean |
| App.TeamBatting | app/app.py:25-26 | every batting row whose team equals the name ignoring case is kept as often as it occurs, and no other row; the result is non-empty iff the team has a batting row |
| App.TeamBowling | app/app.py:34-35 | every bowling row whose team equals the name ignoring case is kept as often as it occurs, and no other row |
| App.TeamBattingMean | app/app.py:32-33 | a found team's column mean is the mean over every batting row of the team (ignoring case), counted with multiplicity |
| App.TeamBowlingMean | app/app.py:34-35 | a team's bowling mean is the mean over every bowling row of the team (ignoring case), counted with multiplicity, and absent when there is none |
| App.TeamBowlingMeanAbsent | app/app.py:34-35 | the bowling mean is absent exactly when no bowling row names the team |
| App.RepeatedRowsCount | app/app.py:25-32 | a team with batting runs 10, 10 and 40 averages 20: repeated rows all count, and another team's row does not |
| App.OutcomeFeatures | app/app.py:32-38 | the vector is [team 1 mean runs, team 1 mean wickets, team 2 mean runs, team 2 mean wickets], each mean taken over every row of that team (ignoring case) with multiplicity; both run means are present |
| App.PredictMatchOutcome | app/app.py:23-45 | error iff a team has no batting row (bowling is not consulted); otherwise names are echoed and the winner is team 1 iff the predictor answers 1 |
| App.MatchOutcomeIgnoresCase | app/app.py:25-35 | names that differ only in case give the same error decision and feature vector |
| App.RunsFeatures | app/app.py:54-55 | the vector is [mean runs, mean innings, mean opponent runs, mean opponent wickets], each taken over every batting row of the team (ignoring case) with multiplicity |
| App.PredictTeamRuns | app/app.py:49-58 | error iff no batting row names the team ignoring case; otherwise the name with the predictor's answer on the team's means |
| App.MatchRows | app/app.py:63 | every row with exactly this match id (case-sensitive) is kept as often as it occurs, and no other row; the count is the number of such rows |
| App.ByScoreDescending | app/app.py:67 | the sort is a permutation, non-increasing by fantasy_score |
| App.TopScores | app/app.py:67 | head(n) of the sort: min(n, #rows) rows, non-increasing, drawn from the input; no left-out row scores above a kept one |
| App.TopFantasyPlayers | app/app.py:62-68 | error iff no row has exactly this match id; otherwise the id with its top-N rows, which number min(top_n, the match's row count) |
| App.TopFantasyPlayersOfMatch | app/app.py:63-67 | every returned row belongs to the requested match |
| App.DefaultTopNAtMostTen | app/app.py:62 | with top_n left out, at most ten rows come back |

## Left out

- File input and output: CSV reads and writes, the `print` calls, `pd.to_datetime` parsing (dates are ordinal integers) and the column rename. These are I/O and parsing outside the logic.
- Model training: `model_training/cricket_model.py` lines 32-74 (train/test split, hyper-parameter search, random forests, error metrics, `joblib.dump`) is foreign library code.
- Predictors: the trained models are uninterpreted function parameters, so only how their answers are used is modelled.
- Web layer: FastAPI routing, the `home` endpoint and the module-level `joblib.load` and `read_csv` calls of `app/app.py` are framework plumbing.
- `dashboard/cricket_dashboard.py` is not part of this model. It is display code with a database query.
- Floating point: means and scores are exact reals. NaN appears only as an explicit "absent" value: a missing opponent, a missing profile, a missing cell, or the mean of an empty bowling column.
- Strings.Lower: changes only ASCII letters. It stands in for Python's Unicode `str.lower`.
- FeatureEngineering.FeatureTableRolling: the source assigns the rolling column with `reset_index(drop=True)`, which aligns by index label. The model states the values by sorted position. This matches the source only when the rows are already in (player, date) order with a default index.
- FeatureEngineering.FeatureTableRollingBounds: states the bounds by sorted position, so it has the same label-alignment gap as `FeatureTableRolling`.
- FeatureEngineering.FeatureTableFirstObservation: states a player's first rolling value by sorted position, so it has the same gap. On rows [player B, runs 5; player A, runs 7] with the default index 0, 1, the label-aligned assignment gives row 0 (B) the value 7 and row 1 (A) the value 5; the model gives A 7.
- InspectRawData.CleanDataFrame: models the intended fill. Under copy-on-write, chained `fillna(..., inplace=True)` on a column can leave the frame unchanged.
- ExtractNewColumns.UnresolvedRowDefaults: models the intended fill of `opponent_team`, `avg_opponent_runs` and `avg_opponent_wickets` (`extract_new_columns.py:33-35`), as do `ExtractNewColumns.FillRow`, `ExtractNewColumns.MergeAndFill` and `ExtractNewColumns.Resolve`. These lines use the same chained `fillna(..., inplace=True)`, which under copy-on-write can leave the frame unchanged.
- InspectRawData.CleanDataFrame: a column's kind (`object` or not) is an input, since dtype inference is not modelled.
- App.TopFantasyPlayers: assumes the fantasy table has a `match` column, named `matchId` here. The file `cricket_model.py` writes does not have one.
- App.TopFantasyPlayers: `top_n` is a natural number. Negative values, where `head` drops rows from the end, are not modelled.
- CricketModel.RankPlayers: the model sorts with an insertion sort. Only the permutation and the descending order are promised, since the source's sort does not fix an order among equal scores.
