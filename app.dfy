/** The query handlers (app/app.py): case-insensitive team filters over the batting and
    bowling tables, "not found" results, the feature vectors handed to the trained
    predictors, and the top-N fantasy players of one match. The predictors are
    parameters: only the way their answers are used is modelled. */
module App {
  import opened Collections
  import opened Strings

  /** A row of batting_data.csv. */
  datatype BattingRow = BattingRow(team: string, runs: real, innings: real, opponentRuns: real, opponentWickets: real)

  /** A row of bowling_data.csv. */
  datatype BowlingRow = BowlingRow(team: string, wickets: real)

  /** A row of fantasy_scores.csv; the match column is matchId here. */
  datatype FantasyRow = FantasyRow(player: string, matchId: string, fantasyScore: real)

  /** A handler's answer: the payload, or the {"error": ...} body. */
  datatype Response<T> = Ok(value: T) | Failure(error: string)

  const TeamsNotFound: string := "One or both teams not found in dataset"
  const TeamNotFound: string := "Team not found"
  const MatchNotFound: string := "Match not found"

  /** top_n when the query leaves it out. */
  const DefaultTopN: nat := 10

  /** Series.mean: the mean of a non-empty column, absent (NaN) for an empty one. */
  function MeanOrAbsent(xs: seq<real>): (m: Option<real>)
    ensures m.None? <==> |xs| == 0
    ensures m.Some? ==> m.value == Mean(xs)
  {
    if |xs| == 0 then None else Some(Mean(xs))
  }

  /** Whether some batting row names the team, ignoring case. */
  predicate HasBatting(batting: seq<BattingRow>, team: string) {
    exists i :: 0 <= i < |batting| && SameIgnoringCase(batting[i].team, team)
  }

  /** The mask batting_df["team"].str.lower() == key. */
  function BattingTeamIs(key: string): BattingRow -> bool {
    (b: BattingRow) => Lower(b.team) == key
  }

  /** The mask bowling_df["team"].str.lower() == key. */
  function BowlingTeamIs(key: string): BowlingRow -> bool {
    (b: BowlingRow) => Lower(b.team) == key
  }

  function RunsOf(b: BattingRow): real { b.runs }
  function InningsOf(b: BattingRow): real { b.innings }
  function OpponentRunsOf(b: BattingRow): real { b.opponentRuns }
  function OpponentWicketsOf(b: BattingRow): real { b.opponentWickets }
  function WicketsOf(b: BowlingRow): real { b.wickets }

  /** batting_df[batting_df["team"].str.lower() == team.lower()]: every batting row whose
      team equals the name ignoring case, as often as it occurs, and no other row. */
  function TeamBatting(batting: seq<BattingRow>, team: string): (r: seq<BattingRow>)
    ensures forall x :: multiset(r)[x] == if SameIgnoringCase(x.team, team) then multiset(batting)[x] else 0
    ensures forall k :: 0 <= k < |r| ==> SameIgnoringCase(r[k].team, team) && r[k] in batting
    ensures forall i :: 0 <= i < |batting| && SameIgnoringCase(batting[i].team, team) ==> batting[i] in r
    ensures |r| > 0 <==> HasBatting(batting, team)
  {
    FilterMembers(batting, BattingTeamIs(Lower(team)));
    Filter(batting, BattingTeamIs(Lower(team)))
  }

  /** bowling_df[bowling_df["team"].str.lower() == team.lower()]: every bowling row whose
      team equals the name ignoring case, as often as it occurs, and no other row. */
  function TeamBowling(bowling: seq<BowlingRow>, team: string): (r: seq<BowlingRow>)
    ensures forall x :: multiset(r)[x] == if SameIgnoringCase(x.team, team) then multiset(bowling)[x] else 0
    ensures forall k :: 0 <= k < |r| ==> SameIgnoringCase(r[k].team, team) && r[k] in bowling
    ensures forall i :: 0 <= i < |bowling| && SameIgnoringCase(bowling[i].team, team) ==> bowling[i] in r
  {
    FilterMembers(bowling, BowlingTeamIs(Lower(team)));
    Filter(bowling, BowlingTeamIs(Lower(team)))
  }

  /** The payload of predict_match_outcome. */
  datatype MatchPrediction = MatchPrediction(team1: string, team2: string, predictedWinner: string)

  /** [[team_1_avg_runs, team_1_avg_wickets, team_2_avg_runs, team_2_avg_wickets]]: each
      entry is the mean over every row of the team (ignoring case), counted with
      multiplicity; the batting means are present because both teams were found, and a
      bowling mean is absent when the bowling table has no row for that team. */
  function OutcomeFeatures(batting: seq<BattingRow>, bowling: seq<BowlingRow>, team1: string, team2: string): (v: seq<Option<real>>)
    requires HasBatting(batting, team1) && HasBatting(batting, team2)
    ensures v == [MeanWhere(batting, BattingTeamIs(Lower(team1)), RunsOf), MeanWhere(bowling, BowlingTeamIs(Lower(team1)), WicketsOf),
                  MeanWhere(batting, BattingTeamIs(Lower(team2)), RunsOf), MeanWhere(bowling, BowlingTeamIs(Lower(team2)), WicketsOf)]
    ensures v[0].Some? && v[2].Some?
  {
    [Some(TeamBattingMean(batting, team1, RunsOf)), TeamBowlingMean(bowling, team1, WicketsOf),
     Some(TeamBattingMean(batting, team2, RunsOf)), TeamBowlingMean(bowling, team2, WicketsOf)]
  }

  /** batting_df[mask][column].mean() for a found team: the mean of f over every
      batting row of the team, counted with multiplicity. */
  function TeamBattingMean(batting: seq<BattingRow>, team: string, f: BattingRow -> real): (m: real)
    requires HasBatting(batting, team)
    ensures MeanWhere(batting, BattingTeamIs(Lower(team)), f) == Some(m)
  {
    FilterColumnMean(batting, BattingTeamIs(Lower(team)), f);
    Mean(Column(TeamBatting(batting, team), f))
  }

  /** bowling_df[mask][column].mean(): the mean of f over every bowling row of the team,
      counted with multiplicity, and absent (NaN) when the team has no bowling row. */
  function TeamBowlingMean(bowling: seq<BowlingRow>, team: string, f: BowlingRow -> real): (m: Option<real>)
    ensures m == MeanWhere(bowling, BowlingTeamIs(Lower(team)), f)
  {
    FilterColumnMean(bowling, BowlingTeamIs(Lower(team)), f);
    MeanOrAbsent(Column(TeamBowling(bowling, team), f))
  }

  /** A bowling mean is absent exactly when no bowling row names the team. */
  lemma TeamBowlingMeanAbsent(bowling: seq<BowlingRow>, team: string, f: BowlingRow -> real)
    ensures TeamBowlingMean(bowling, team, f).None? <==>
            forall i :: 0 <= i < |bowling| ==> !SameIgnoringCase(bowling[i].team, team)
  {
    FilterColumnMean(bowling, BowlingTeamIs(Lower(team)), f);
    FilterMembers(bowling, BowlingTeamIs(Lower(team)));
  }

  /** Repeated rows all count: a team with batting runs 10, 10 and 40 averages 20, and a
      row of another team is not counted. */
  lemma RepeatedRowsCount()
    ensures var row, other := BattingRow("x", 10.0, 1.0, 0.0, 0.0), BattingRow("y", 90.0, 1.0, 0.0, 0.0);
      var batting := [row, row, other, BattingRow("x", 40.0, 1.0, 0.0, 0.0)];
      HasBatting(batting, "x") && TeamBattingMean(batting, "x", RunsOf) == 20.0
  {
    var row, other, last := BattingRow("x", 10.0, 1.0, 0.0, 0.0), BattingRow("y", 90.0, 1.0, 0.0, 0.0), BattingRow("x", 40.0, 1.0, 0.0, 0.0);
    var batting := [row, row, other, last];
    assert Lower("x") == "x";
    assert SameIgnoringCase(batting[0].team, "x");
    RepeatedRowsTotals(row, other, last);
  }

  lemma RepeatedRowsTotals(row: BattingRow, other: BattingRow, last: BattingRow)
    requires row == BattingRow("x", 10.0, 1.0, 0.0, 0.0) && other == BattingRow("y", 90.0, 1.0, 0.0, 0.0)
    requires last == BattingRow("x", 40.0, 1.0, 0.0, 0.0)
    ensures CountWhere([row, row, other, last], BattingTeamIs("x")) == 3
    ensures SumWhere([row, row, other, last], BattingTeamIs("x"), RunsOf) == 60.0
  {
    var keep := BattingTeamIs("x");
    assert Lower("x") == "x" && Lower("y") == "y";
    var b1, b2, b3, b4 := [row], [row, row], [row, row, other], [row, row, other, last];
    assert b2[..1] == b1 && b3[..2] == b2 && b4[..3] == b3;
    assert CountWhere(b1, keep) == 1 && SumWhere(b1, keep, RunsOf) == 10.0 by { assert b1[..0] == []; }
    assert CountWhere(b2, keep) == 2 && SumWhere(b2, keep, RunsOf) == 20.0;
    assert CountWhere(b3, keep) == 2 && SumWhere(b3, keep, RunsOf) == 20.0;
  }

  /** predict_match_outcome: an error exactly when one of the teams has no batting row
      (the bowling table is not consulted for this); otherwise both names are echoed and
      the winner is team_1 when the predictor answers 1 and team_2 for any other answer. */
  function PredictMatchOutcome(batting: seq<BattingRow>, bowling: seq<BowlingRow>, team1: string, team2: string,
                               outcome: seq<Option<real>> -> int): (r: Response<MatchPrediction>)
    ensures r.Failure? <==> !HasBatting(batting, team1) || !HasBatting(batting, team2)
    ensures r.Failure? ==> r.error == TeamsNotFound
    ensures r.Ok? ==> r.value.team1 == team1 && r.value.team2 == team2
    ensures r.Ok? ==> (r.value.predictedWinner == if outcome(OutcomeFeatures(batting, bowling, team1, team2)) == 1 then team1 else team2)
  {
    if |TeamBatting(batting, team1)| == 0 || |TeamBatting(batting, team2)| == 0 then Failure(TeamsNotFound)
    else
      var answer := outcome(OutcomeFeatures(batting, bowling, team1, team2));
      Ok(MatchPrediction(team1, team2, if answer == 1 then team1 else team2))
  }

  /** Team names are matched without regard to case: asking for "INDIA" or "india" gives
      the same answer, apart from the echoed names. */
  lemma MatchOutcomeIgnoresCase(batting: seq<BattingRow>, bowling: seq<BowlingRow>, team1: string, team2: string,
                                other1: string, other2: string, outcome: seq<Option<real>> -> int)
    requires SameIgnoringCase(team1, other1) && SameIgnoringCase(team2, other2)
    ensures PredictMatchOutcome(batting, bowling, team1, team2, outcome).Failure? <==>
            PredictMatchOutcome(batting, bowling, other1, other2, outcome).Failure?
    ensures HasBatting(batting, team1) && HasBatting(batting, team2) ==>
      OutcomeFeatures(batting, bowling, team1, team2) == OutcomeFeatures(batting, bowling, other1, other2)
  {
    assert TeamBatting(batting, team1) == TeamBatting(batting, other1);
    assert TeamBatting(batting, team2) == TeamBatting(batting, other2);
    assert TeamBowling(bowling, team1) == TeamBowling(bowling, other1);
    assert TeamBowling(bowling, team2) == TeamBowling(bowling, other2);
  }

  /** The payload of predict_team_runs. */
  datatype RunsPrediction = RunsPrediction(team: string, predictedRuns: real)

  /** [[avg_runs, mean innings, mean opponent_runs, mean opponent_wickets]]: each the
      mean over every batting row of the team (ignoring case), counted with multiplicity. */
  function RunsFeatures(batting: seq<BattingRow>, team: string): (v: seq<real>)
    requires HasBatting(batting, team)
    ensures |v| == 4
    ensures MeanWhere(batting, BattingTeamIs(Lower(team)), RunsOf) == Some(v[0])
    ensures MeanWhere(batting, BattingTeamIs(Lower(team)), InningsOf) == Some(v[1])
    ensures MeanWhere(batting, BattingTeamIs(Lower(team)), OpponentRunsOf) == Some(v[2])
    ensures MeanWhere(batting, BattingTeamIs(Lower(team)), OpponentWicketsOf) == Some(v[3])
  {
    [TeamBattingMean(batting, team, RunsOf), TeamBattingMean(batting, team, InningsOf),
     TeamBattingMean(batting, team, OpponentRunsOf), TeamBattingMean(batting, team, OpponentWicketsOf)]
  }

  /** predict_team_runs: an error exactly when no batting row names the team (ignoring
      case); otherwise the name is echoed with the predictor's answer for the team's
      four means. */
  function PredictTeamRuns(batting: seq<BattingRow>, team: string, runsModel: seq<real> -> real): (r: Response<RunsPrediction>)
    ensures r.Failure? <==> !HasBatting(batting, team)
    ensures r.Failure? ==> r.error == TeamNotFound
    ensures r.Ok? ==> r.value == RunsPrediction(team, runsModel(RunsFeatures(batting, team)))
  {
    if |TeamBatting(batting, team)| == 0 then Failure(TeamNotFound)
    else Ok(RunsPrediction(team, runsModel(RunsFeatures(batting, team))))
  }

  /** The payload of get_top_fantasy_players. */
  datatype MatchTop = MatchTop(matchId: string, topFantasyPlayers: seq<FantasyRow>)

  /** The mask fantasy_scores_df["match"] == matchId: an exact, case-sensitive comparison. */
  function InMatch(matchId: string): FantasyRow -> bool {
    (f: FantasyRow) => f.matchId == matchId
  }

  /** fantasy_scores_df[fantasy_scores_df["match"] == match]: every row with exactly this
      match id, as often as it occurs, and no other row. */
  function MatchRows(scores: seq<FantasyRow>, matchId: string): (r: seq<FantasyRow>)
    ensures forall x :: multiset(r)[x] == if x.matchId == matchId then multiset(scores)[x] else 0
    ensures |r| == CountWhere(scores, InMatch(matchId))
    ensures forall k :: 0 <= k < |r| ==> r[k].matchId == matchId && r[k] in scores
    ensures forall i :: 0 <= i < |scores| && scores[i].matchId == matchId ==> scores[i] in r
    ensures |r| == 0 <==> forall i :: 0 <= i < |scores| ==> scores[i].matchId != matchId
  {
    FilterMembers(scores, InMatch(matchId));
    Filter(scores, InMatch(matchId))
  }

  predicate ScoreGe(a: FantasyRow, b: FantasyRow) {
    a.fantasyScore >= b.fantasyScore
  }

  /** sort_values(by="fantasy_score", ascending=False): a permutation, non-increasing by
      score, with no promised order among equal scores. */
  function ByScoreDescending(rows: seq<FantasyRow>): (r: seq<FantasyRow>)
    ensures |r| == |rows| && multiset(r) == multiset(rows)
    ensures forall i, j :: 0 <= i < j < |r| ==> r[i].fantasyScore >= r[j].fantasyScore
  {
    assert TotalPreorder(ScoreGe);
    SortBy(rows, ScoreGe)
  }

  /** sort_values(...).head(n) for n >= 0: min(n, #rows) rows of the table, best first;
      what it leaves out scores no higher than anything it keeps. */
  function TopScores(rows: seq<FantasyRow>, n: nat): (top: seq<FantasyRow>)
    ensures |top| == if n <= |rows| then n else |rows|
    ensures forall i, j :: 0 <= i < j < |top| ==> top[i].fantasyScore >= top[j].fantasyScore
    ensures multiset(top) <= multiset(rows)
    ensures forall x, k :: x in multiset(rows) - multiset(top) && 0 <= k < |top| ==> x.fantasyScore <= top[k].fantasyScore
  {
    var sorted := ByScoreDescending(rows);
    TakeOfSortedIsTop(sorted, n);
    Take(sorted, n)
  }

  /** get_top_fantasy_players for top_n >= 0: an error exactly when no row has the match
      id; otherwise the match id is echoed with the top_n best rows of that match. */
  function TopFantasyPlayers(scores: seq<FantasyRow>, matchId: string, topN: nat := DefaultTopN): (r: Response<MatchTop>)
    ensures r.Failure? <==> forall i :: 0 <= i < |scores| ==> scores[i].matchId != matchId
    ensures r.Failure? ==> r.error == MatchNotFound
    ensures r.Ok? ==> r.value == MatchTop(matchId, TopScores(MatchRows(scores, matchId), topN))
    ensures r.Ok? ==> |r.value.topFantasyPlayers| ==
                      if topN <= CountWhere(scores, InMatch(matchId)) then topN else CountWhere(scores, InMatch(matchId))
  {
    var all := MatchRows(scores, matchId);
    if |all| == 0 then Failure(MatchNotFound) else Ok(MatchTop(matchId, TopScores(all, topN)))
  }

  /** Every row returned belongs to the requested match. */
  lemma TopFantasyPlayersOfMatch(scores: seq<FantasyRow>, matchId: string, topN: nat)
    ensures TopFantasyPlayers(scores, matchId, topN).Ok? ==>
      var top := TopFantasyPlayers(scores, matchId, topN).value.topFantasyPlayers;
      forall k :: 0 <= k < |top| ==> top[k].matchId == matchId && top[k] in scores
  {
    var all := MatchRows(scores, matchId);
    var top := TopScores(all, topN);
    forall k | 0 <= k < |top| ensures top[k] in all {
      assert top[k] in multiset(all);
    }
  }

  /** A prefix of a score-descending table: what it leaves out scores no higher than
      anything it keeps. */
  lemma TakeOfSortedIsTop(sorted: seq<FantasyRow>, n: nat)
    requires forall i, j :: 0 <= i < j < |sorted| ==> sorted[i].fantasyScore >= sorted[j].fantasyScore
    ensures multiset(Take(sorted, n)) <= multiset(sorted)
    ensures forall x, k :: x in multiset(sorted) - multiset(Take(sorted, n)) && 0 <= k < |Take(sorted, n)| ==>
      x.fantasyScore <= Take(sorted, n)[k].fantasyScore
  {
    var top := Take(sorted, n);
    var rest := sorted[|top|..];
    PrefixSplit(sorted, |top|);
    forall x: FantasyRow, k: int | x in multiset(rest) && 0 <= k < |top| ensures x.fantasyScore <= top[k].fantasyScore {
      var m :| 0 <= m < |rest| && rest[m] == x;
      assert sorted[|top| + m] == x;
    }
  }

  /** A prefix and the rest split a table's multiset. */
  lemma PrefixSplit(s: seq<FantasyRow>, m: nat)
    requires m <= |s|
    ensures multiset(s[..m]) <= multiset(s)
    ensures multiset(s) - multiset(s[..m]) == multiset(s[m..])
  {
    assert s == s[..m] + s[m..];
  }

  /** With top_n left out, at most ten rows come back. */
  lemma DefaultTopNAtMostTen(scores: seq<FantasyRow>, matchId: string)
    ensures TopFantasyPlayers(scores, matchId).Ok? ==>
      |TopFantasyPlayers(scores, matchId).value.topFantasyPlayers| <= 10
  {
  }
}
