/** The row store: one record per player per match, as the performance tables hold them. */
module Rows {
  import opened Collections

  /** One player's line for one match. Dates are ordinal day numbers, so that their
      order is the calendar order pd.to_datetime gives. */
  datatype Observation = Observation(
    player: string,
    team: string,
    matchDate: int,
    totalRuns: int,
    totalWickets: int,
    battingAvg: real,
    bowlingAvg: real,
    battingInnings: int,
    bowlingInnings: int)

  /** The two per-match counts that the rolling and opponent aggregates average. */
  datatype Stat = Runs | Wickets

  function StatOf(o: Observation, stat: Stat): real {
    match stat
    case Runs => o.totalRuns as real
    case Wickets => o.totalWickets as real
  }

  /** A stat column of some rows, in row order. */
  function StatValues(rows: seq<Observation>, stat: Stat): (vs: seq<real>)
    ensures |vs| == |rows|
    ensures forall k :: 0 <= k < |rows| ==> vs[k] == StatOf(rows[k], stat)
    decreases |rows|
  {
    if rows == [] then [] else StatValues(rows[..|rows| - 1], stat) + [StatOf(rows[|rows| - 1], stat)]
  }

  /** An observation with its opponent_team cell; None is the missing value left by a
      failed dictionary lookup or an empty cell in the input file. */
  datatype Tagged = Tagged(obs: Observation, opponent: Option<string>)
}
