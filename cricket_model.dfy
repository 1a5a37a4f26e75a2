/** Fantasy ranking and the win label (model_training/cricket_model.py): a fixed linear
    score per row, summed per player and ranked by descending total, and a binary label
    comparing the batting average with the opponent's average runs. */
module CricketModel {
  import opened Collections
  import opened Strings
  import opened Rows
  import opened ExtractNewColumns

  /** The fantasy_score column expression, one row at a time. The formula has no
      constant term: a row whose six inputs are all zero scores zero. */
  function FantasyScore(r: ResolvedRow): (score: real)
    ensures && r.obs.totalRuns == 0 && r.obs.totalWickets == 0
            && r.obs.battingAvg == 0.0 && r.obs.bowlingAvg == 0.0
            && r.avgOpponentRuns == 0.0 && r.avgOpponentWickets == 0.0
            ==> score == 0.0
  {
    r.obs.totalRuns as real * 1.2
    + r.obs.totalWickets as real * 25.0
    + r.obs.battingAvg * 5.0
    + r.obs.bowlingAvg * -3.0
    + r.avgOpponentRuns * -0.5
    + r.avgOpponentWickets * 0.5
  }

  /** What one more unit of each input is worth: a run 1.2 points, a wicket 25, a point of
      batting average 5, a point of bowling average -3, a point of the opponent's average
      runs -0.5 and a point of its average wickets 0.5. */
  lemma FantasyScoreWeights(r: ResolvedRow)
    ensures var o := r.obs;
      && FantasyScore(r.(obs := o.(totalRuns := o.totalRuns + 1))) == FantasyScore(r) + 1.2
      && FantasyScore(r.(obs := o.(totalWickets := o.totalWickets + 1))) == FantasyScore(r) + 25.0
      && FantasyScore(r.(obs := o.(battingAvg := o.battingAvg + 1.0))) == FantasyScore(r) + 5.0
      && FantasyScore(r.(obs := o.(bowlingAvg := o.bowlingAvg + 1.0))) == FantasyScore(r) - 3.0
      && FantasyScore(r.(avgOpponentRuns := r.avgOpponentRuns + 1.0)) == FantasyScore(r) - 0.5
      && FantasyScore(r.(avgOpponentWickets := r.avgOpponentWickets + 1.0)) == FantasyScore(r) + 0.5
  {
  }

  /** A row that is at least as good in every input scores at least as much: more runs,
      wickets, batting average or opponent wickets never lower the score, and a higher
      bowling average or opponent run average never raises it. */
  lemma FantasyScoreMonotone(a: ResolvedRow, b: ResolvedRow)
    requires a.obs.totalRuns <= b.obs.totalRuns && a.obs.totalWickets <= b.obs.totalWickets
    requires a.obs.battingAvg <= b.obs.battingAvg && a.obs.bowlingAvg >= b.obs.bowlingAvg
    requires a.avgOpponentRuns >= b.avgOpponentRuns && a.avgOpponentWickets <= b.avgOpponentWickets
    ensures FantasyScore(a) <= FantasyScore(b)
  {
  }

  /** The fantasy_score column. */
  function RowScores(rows: seq<ResolvedRow>): (vs: seq<real>)
    ensures |vs| == |rows|
    ensures forall k :: 0 <= k < |rows| ==> vs[k] == FantasyScore(rows[k])
    decreases |rows|
  {
    if rows == [] then [] else RowScores(rows[..|rows| - 1]) + [FantasyScore(rows[|rows| - 1])]
  }

  /** The sum of the scores of p's rows. */
  function PlayerTotal(rows: seq<ResolvedRow>, p: string): real
    decreases |rows|
  {
    if rows == [] then 0.0
    else
      var last := rows[|rows| - 1];
      PlayerTotal(rows[..|rows| - 1], p) + (if last.obs.player == p then FantasyScore(last) else 0.0)
  }

  /** The player column. */
  function Players(rows: seq<ResolvedRow>): (ps: seq<string>)
    ensures |ps| == |rows|
    ensures forall k :: 0 <= k < |rows| ==> ps[k] == rows[k].obs.player
  {
    seq(|rows|, k requires 0 <= k < |rows| => rows[k].obs.player)
  }

  /** The keys of groupby("player"): every player that occurs, once, in ascending order. */
  function DistinctPlayers(rows: seq<ResolvedRow>): (ps: seq<string>)
    ensures NoDup(ps)
    ensures forall j, k :: 0 <= j < k < |ps| ==> LexLe(ps[j], ps[k])
    ensures forall p :: p in ps <==> exists i :: 0 <= i < |rows| && rows[i].obs.player == p
  {
    LexLeIsTotalPreorder();
    var all := Players(rows);
    var u := Dedup(all);
    var ps := SortBy(u, LexLe);
    NoDupOfPermutation(u, ps);
    forall p ensures p in ps <==> exists i :: 0 <= i < |rows| && rows[i].obs.player == p {
      assert p in ps <==> p in multiset(ps);
      assert p in u <==> p in multiset(u);
      assert p in all <==> exists i :: 0 <= i < |rows| && rows[i].obs.player == p;
    }
    ps
  }

  /** One row of fantasy_scores.csv. */
  datatype PlayerScore = PlayerScore(player: string, fantasyScore: real)

  /** The total of each key in ks, in the order of ks. */
  function TotalsFor(ks: seq<string>, rows: seq<ResolvedRow>): (g: seq<PlayerScore>)
    ensures |g| == |ks|
    ensures forall k :: 0 <= k < |ks| ==> g[k] == PlayerScore(ks[k], PlayerTotal(rows, ks[k]))
    decreases |ks|
  {
    if ks == [] then []
    else TotalsFor(ks[..|ks| - 1], rows) + [PlayerScore(ks[|ks| - 1], PlayerTotal(rows, ks[|ks| - 1]))]
  }

  /** The player column of a grouped table. */
  function PlayersOf(g: seq<PlayerScore>): (ps: seq<string>)
    ensures |ps| == |g|
    ensures forall k :: 0 <= k < |g| ==> ps[k] == g[k].player
  {
    seq(|g|, k requires 0 <= k < |g| => g[k].player)
  }

  /** df.groupby("player")["fantasy_score"].sum().reset_index(): one row per player that
      occurs, in ascending player order, holding the sum of that player's row scores. */
  function GroupByPlayer(rows: seq<ResolvedRow>): (g: seq<PlayerScore>)
    ensures NoDup(PlayersOf(g))
    ensures forall j, k :: 0 <= j < k < |g| ==> LexLe(g[j].player, g[k].player)
    ensures forall p :: p in PlayersOf(g) <==> p in Players(rows)
    ensures forall k :: 0 <= k < |g| ==> g[k].fantasyScore == PlayerTotal(rows, g[k].player)
  {
    var ps := DistinctPlayers(rows);
    var g := TotalsFor(ps, rows);
    assert PlayersOf(g) == ps;
    g
  }

  /** The fantasy_score column of a grouped table. */
  function ScoreColumn(g: seq<PlayerScore>): (vs: seq<real>)
    ensures |vs| == |g|
    ensures forall k :: 0 <= k < |g| ==> vs[k] == g[k].fantasyScore
  {
    seq(|g|, k requires 0 <= k < |g| => g[k].fantasyScore)
  }

  /** The totals of the keys ks added up. */
  function KeySum(ks: seq<string>, rows: seq<ResolvedRow>): real
    decreases |ks|
  {
    if ks == [] then 0.0 else KeySum(ks[..|ks| - 1], rows) + PlayerTotal(rows, ks[|ks| - 1])
  }

  lemma SumAppend(xs: seq<real>, x: real)
    ensures Sum(xs + [x]) == Sum(xs) + x
  {
    assert (xs + [x])[..|xs|] == xs;
  }

  lemma {:induction false} ScoreColumnSum(ks: seq<string>, rows: seq<ResolvedRow>)
    ensures Sum(ScoreColumn(TotalsFor(ks, rows))) == KeySum(ks, rows)
    decreases |ks|
  {
    if ks != [] {
      var init := ks[..|ks| - 1];
      var g := TotalsFor(ks, rows);
      var last := PlayerScore(ks[|ks| - 1], PlayerTotal(rows, ks[|ks| - 1]));
      assert g == TotalsFor(init, rows) + [last];
      assert g[..|g| - 1] == TotalsFor(init, rows);
      ScoreColumnSum(init, rows);
      assert ScoreColumn(g) == ScoreColumn(TotalsFor(init, rows)) + [last.fantasyScore];
      SumAppend(ScoreColumn(TotalsFor(init, rows)), last.fantasyScore);
    }
  }

  lemma PlayerTotalAppend(init: seq<ResolvedRow>, r: ResolvedRow, p: string)
    ensures PlayerTotal(init + [r], p) == PlayerTotal(init, p) + (if r.obs.player == p then FantasyScore(r) else 0.0)
  {
    assert (init + [r])[..|init|] == init;
  }

  /** Adding a row adds its score to exactly one of the distinct keys, if any. */
  lemma {:induction false} KeySumAppendRow(ks: seq<string>, init: seq<ResolvedRow>, r: ResolvedRow)
    requires NoDup(ks)
    ensures KeySum(ks, init + [r]) == KeySum(ks, init) + (if r.obs.player in ks then FantasyScore(r) else 0.0)
    decreases |ks|
  {
    if ks != [] {
      var ks' := ks[..|ks| - 1];
      var k := ks[|ks| - 1];
      assert ks == ks' + [k];
      assert NoDup(ks') && k !in ks';
      KeySumAppendRow(ks', init, r);
      PlayerTotalAppend(init, r, k);
    }
  }

  lemma {:induction false} KeySumOfNoRows(ks: seq<string>)
    ensures KeySum(ks, []) == 0.0
    decreases |ks|
  {
    if ks != [] { KeySumOfNoRows(ks[..|ks| - 1]); }
  }

  /** Distinct keys that cover every row's player share out all the row scores. */
  lemma {:induction false} KeySumCoversRows(ks: seq<string>, rows: seq<ResolvedRow>)
    requires NoDup(ks)
    requires forall i :: 0 <= i < |rows| ==> rows[i].obs.player in ks
    ensures KeySum(ks, rows) == Sum(RowScores(rows))
    decreases |rows|
  {
    if rows == [] {
      KeySumOfNoRows(ks);
    } else {
      var init := rows[..|rows| - 1];
      var r := rows[|rows| - 1];
      assert rows == init + [r];
      KeySumCoversRows(ks, init);
      KeySumAppendRow(ks, init, r);
      assert RowScores(rows)[..|rows| - 1] == RowScores(init);
    }
  }

  /** Grouping neither loses nor invents points: the per-player totals add up to the sum
      of all row scores. */
  lemma GroupByPlayerKeepsTotal(rows: seq<ResolvedRow>)
    ensures Sum(ScoreColumn(GroupByPlayer(rows))) == Sum(RowScores(rows))
  {
    var ps := DistinctPlayers(rows);
    ScoreColumnSum(ps, rows);
    KeySumCoversRows(ps, rows);
  }

  /** A player with no rows has no points. */
  lemma {:induction false} PlayerTotalAbsent(rows: seq<ResolvedRow>, p: string)
    requires forall i :: 0 <= i < |rows| ==> rows[i].obs.player != p
    ensures PlayerTotal(rows, p) == 0.0
    decreases |rows|
  {
    if rows != [] { PlayerTotalAbsent(rows[..|rows| - 1], p); }
  }

  predicate ScoreGe(a: PlayerScore, b: PlayerScore) {
    a.fantasyScore >= b.fantasyScore
  }

  /** sort_values(by="fantasy_score", ascending=False): a permutation, non-increasing by
      score. The sort is not stable, so no order among equal scores is promised. */
  function RankPlayers(g: seq<PlayerScore>): (r: seq<PlayerScore>)
    ensures multiset(r) == multiset(g)
    ensures forall i, j :: 0 <= i < j < |r| ==> r[i].fantasyScore >= r[j].fantasyScore
  {
    assert TotalPreorder(ScoreGe);
    SortBy(g, ScoreGe)
  }

  /** The table written to fantasy_scores.csv: the grouped player totals, reordered
      so that the scores never increase. */
  function FantasyRanking(rows: seq<ResolvedRow>): (r: seq<PlayerScore>)
    ensures multiset(r) == multiset(GroupByPlayer(rows))
    ensures forall i, j :: 0 <= i < j < |r| ==> r[i].fantasyScore >= r[j].fantasyScore
  {
    RankPlayers(GroupByPlayer(rows))
  }

  /** Every row of a permutation is a row of the original, and the other way round. */
  lemma PermutationSameRows(g: seq<PlayerScore>, r: seq<PlayerScore>)
    requires multiset(g) == multiset(r)
    ensures forall k :: 0 <= k < |r| ==> r[k] in g
    ensures forall m :: 0 <= m < |g| ==> g[m] in r
  {
    forall k | 0 <= k < |r| ensures r[k] in g {
      assert r[k] in multiset(g);
    }
    forall m | 0 <= m < |g| ensures g[m] in r {
      assert g[m] in multiset(r);
    }
  }

  /** Reordering a table with one row per player keeps one row per player, and the same
      players. */
  lemma PermutationKeepsPlayers(g: seq<PlayerScore>, r: seq<PlayerScore>)
    requires multiset(g) == multiset(r) && NoDup(PlayersOf(g))
    ensures NoDup(PlayersOf(r))
    ensures forall p :: p in PlayersOf(r) <==> p in PlayersOf(g)
  {
    PermutationSameRows(g, r);
    var pg, pr := PlayersOf(g), PlayersOf(r);
    forall j, k | 0 <= j < k < |r| ensures pr[j] != pr[k] {
      var a :| 0 <= a < |g| && g[a] == r[j];
      var b :| 0 <= b < |g| && g[b] == r[k];
      if a == b {
        assert NoDup(g) by {
          forall x, y | 0 <= x < y < |g| ensures g[x] != g[y] { assert pg[x] != pg[y]; }
        }
        NoDupOfPermutation(g, r);
      } else {
        assert pg[a] != pg[b];
      }
    }
    forall p ensures p in pr <==> p in pg {
      if p in pr {
        var k :| 0 <= k < |r| && pr[k] == p;
        var a :| 0 <= a < |g| && g[a] == r[k];
        assert pg[a] == p;
      }
      if p in pg {
        var a :| 0 <= a < |g| && pg[a] == p;
        var k :| 0 <= k < |r| && r[k] == g[a];
        assert pr[k] == p;
      }
    }
  }

  /** The ranking holds each player that occurs exactly once, with the total of that
      player's row scores, and is ordered by descending total; the totals add up to the
      sum of all row scores. */
  lemma FantasyRankingMeaning(rows: seq<ResolvedRow>)
    ensures var r := FantasyRanking(rows);
      && NoDup(PlayersOf(r))
      && (forall p :: p in PlayersOf(r) <==> p in Players(rows))
      && (forall k :: 0 <= k < |r| ==> r[k].fantasyScore == PlayerTotal(rows, r[k].player))
      && (forall j, k :: 0 <= j < k < |r| ==> r[j].fantasyScore >= r[k].fantasyScore)
      && Sum(ScoreColumn(r)) == Sum(RowScores(rows))
  {
    var g := GroupByPlayer(rows);
    var r := FantasyRanking(rows);
    PermutationKeepsPlayers(g, r);
    PermutationSameRows(g, r);
    PermutationSameSum(g, r);
    GroupByPlayerKeepsTotal(rows);
  }

  lemma SumWithout(l: seq<real>, v: real, h: seq<real>)
    ensures Sum(l + [v] + h) == Sum(l + h) + v
  {
    SumConcat(l + [v], h);
    SumConcat(l, h);
    SumAppend(l, v);
  }

  /** A row of a permuted table splits the other table around one of its occurrences;
      the rest of the two tables are again permutations of each other. */
  lemma SplitAtOccurrence(rest: seq<PlayerScore>, x: PlayerScore, b: seq<PlayerScore>)
      returns (l: seq<PlayerScore>, h: seq<PlayerScore>)
    requires multiset(rest + [x]) == multiset(b)
    ensures b == l + [x] + h
    ensures multiset(rest) == multiset(l + h)
  {
    assert x in multiset(b);
    var k :| 0 <= k < |b| && b[k] == x;
    l, h := b[..k], b[k + 1..];
    assert b == l + [x] + h;
    assert multiset(l + h) == multiset(b) - multiset{x};
  }

  /** Taking a row out of a table takes its score out of the total. */
  lemma RemoveRowSum(l: seq<PlayerScore>, x: PlayerScore, h: seq<PlayerScore>)
    ensures Sum(ScoreColumn(l + [x] + h)) == Sum(ScoreColumn(l + h)) + x.fantasyScore
  {
    ScoreColumnConcat(l + [x], h);
    ScoreColumnConcat(l, [x]);
    assert ScoreColumn([x]) == [x.fantasyScore];
    ScoreColumnConcat(l, h);
    SumWithout(ScoreColumn(l), x.fantasyScore, ScoreColumn(h));
  }

  lemma ScoreColumnConcat(u: seq<PlayerScore>, w: seq<PlayerScore>)
    ensures ScoreColumn(u + w) == ScoreColumn(u) + ScoreColumn(w)
  {
  }

  /** Reordering a table does not change its score total. */
  lemma {:induction false} PermutationSameSum(a: seq<PlayerScore>, b: seq<PlayerScore>)
    requires multiset(a) == multiset(b)
    ensures Sum(ScoreColumn(a)) == Sum(ScoreColumn(b))
    decreases |a|
  {
    if a != [] {
      var x := a[|a| - 1];
      var a' := a[..|a| - 1];
      assert a == a' + [x];
      var l, h := SplitAtOccurrence(a', x, b);
      RemoveRowSum(l, x, h);
      PermutationSameSum(a', l + h);
      ScoreColumnConcat(a', [x]);
      assert ScoreColumn([x]) == [x.fantasyScore];
      SumAppend(ScoreColumn(a'), x.fantasyScore);
    }
  }

  /** np.where(batting_avg > avg_opponent_runs, 1, 0): 1 exactly when the batting average
      strictly exceeds the opponent's average runs; a tie gives 0. */
  function Win(r: ResolvedRow): (w: int)
    ensures w == 0 || w == 1
    ensures w == 1 <==> r.obs.battingAvg > r.avgOpponentRuns
  {
    if r.obs.battingAvg > r.avgOpponentRuns then 1 else 0
  }

  /** The win column: one label per row, in row order. */
  function WinColumn(rows: seq<ResolvedRow>): (ws: seq<int>)
    ensures |ws| == |rows|
    ensures forall k :: 0 <= k < |rows| ==> (ws[k] == 1 <==> rows[k].obs.battingAvg > rows[k].avgOpponentRuns)
    ensures forall k :: 0 <= k < |rows| ==> (ws[k] == 0 <==> rows[k].obs.battingAvg <= rows[k].avgOpponentRuns)
  {
    seq(|rows|, k requires 0 <= k < |rows| => Win(rows[k]))
  }
}
