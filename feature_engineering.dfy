/** Player form and opponent strength (data_processing/feature_engineering.py): sort by
    (player, match_date), attach each player's trailing five-match means of runs and
    wickets, and left-merge the opponent profile without filling absent values. */
module FeatureEngineering {
  import opened Collections
  import opened Strings
  import opened Rows
  import opened OpponentStrength

  /** The order of sort_values(["player", "match_date"]): by player, then by date. */
  predicate KeyLe(a: Tagged, b: Tagged) {
    LexLe(a.obs.player, b.obs.player) && (a.obs.player == b.obs.player ==> a.obs.matchDate <= b.obs.matchDate)
  }

  lemma KeyLeIsTotalPreorder()
    ensures TotalPreorder(KeyLe)
  {
    forall a: Tagged, b: Tagged ensures KeyLe(a, b) || KeyLe(b, a) {
      LexLeTotal(a.obs.player, b.obs.player);
      LexLeReflexive(a.obs.player);
    }
    forall a: Tagged, b: Tagged, c: Tagged | KeyLe(a, b) && KeyLe(b, c) ensures KeyLe(a, c) {
      LexLeTransitive(a.obs.player, b.obs.player, c.obs.player);
      if a.obs.player == c.obs.player {
        LexLeAntisymmetric(a.obs.player, b.obs.player);
      }
    }
  }

  /** The sorted frame: a permutation of the input, ascending by player and then date. */
  function SortByPlayerDate(rows: seq<Tagged>): (s: seq<Tagged>)
    ensures |s| == |rows| && multiset(s) == multiset(rows)
    ensures forall i, j :: 0 <= i < j < |s| ==> KeyLe(s[i], s[j])
  {
    KeyLeIsTotalPreorder();
    SortBy(rows, KeyLe)
  }

  /** The rows that share y's player and match_date. */
  function SameKey(y: Tagged): Tagged -> bool {
    (z: Tagged) => z.obs.player == y.obs.player && z.obs.matchDate == y.obs.matchDate
  }

  /** The sort is stable, as the two-key sort_values is: rows with equal player and
      match_date keep their input order. */
  lemma SortByPlayerDateStable(rows: seq<Tagged>, y: Tagged)
    ensures Filter(SortByPlayerDate(rows), SameKey(y)) == Filter(rows, SameKey(y))
  {
    KeyLeIsTotalPreorder();
    SortByKeepsLevel(rows, KeyLe, y);
    SameKeyIsLevel(y);
    FilterSameMask(SortByPlayerDate(rows), LevelWith(KeyLe, y), SameKey(y));
    FilterSameMask(rows, LevelWith(KeyLe, y), SameKey(y));
  }

  /** Rows level with y under KeyLe are exactly those with y's player and date. */
  lemma SameKeyIsLevel(y: Tagged)
    ensures forall z :: LevelWith(KeyLe, y)(z) == SameKey(y)(z)
  {
    forall z ensures LevelWith(KeyLe, y)(z) == SameKey(y)(z) {
      LexLeReflexive(y.obs.player);
      if KeyLe(y, z) && KeyLe(z, y) {
        LexLeAntisymmetric(y.obs.player, z.obs.player);
      }
    }
  }

  /** The rows of each player form one block. */
  predicate PlayersContiguous(s: seq<Tagged>) {
    forall i, j, k :: 0 <= i < j < k < |s| && s[i].obs.player == s[k].obs.player ==> s[j].obs.player == s[i].obs.player
  }

  lemma SortedIsContiguous(s: seq<Tagged>)
    requires forall i, j :: 0 <= i < j < |s| ==> KeyLe(s[i], s[j])
    ensures PlayersContiguous(s)
  {
    forall i, j, k | 0 <= i < j < k < |s| && s[i].obs.player == s[k].obs.player
      ensures s[j].obs.player == s[i].obs.player
    {
      assert KeyLe(s[i], s[j]) && KeyLe(s[j], s[k]);
      LexLeAntisymmetric(s[i].obs.player, s[j].obs.player);
    }
  }

  /** A stat column of tagged rows. */
  function Values(s: seq<Tagged>, stat: Stat): (vs: seq<real>)
    ensures |vs| == |s|
    ensures forall k :: 0 <= k < |s| ==> vs[k] == StatOf(s[k].obs, stat)
  {
    seq(|s|, k requires 0 <= k < |s| => StatOf(s[k].obs, stat))
  }

  /** The rows of player p, in order. */
  function SamePlayer(s: seq<Tagged>, p: string): seq<Tagged>
    decreases |s|
  {
    if s == [] then []
    else
      var last := s[|s| - 1];
      SamePlayer(s[..|s| - 1], p) + (if last.obs.player == p then [last] else [])
  }

  lemma {:induction false} SamePlayerConcat(a: seq<Tagged>, b: seq<Tagged>, p: string)
    ensures SamePlayer(a + b, p) == SamePlayer(a, p) + SamePlayer(b, p)
    decreases |b|
  {
    if b == [] {
      assert a + b == a;
    } else {
      var b' := b[..|b| - 1];
      assert (a + b)[..|a + b| - 1] == a + b';
      SamePlayerConcat(a, b', p);
    }
  }

  lemma {:induction false} SamePlayerOfOwnRows(s: seq<Tagged>, p: string)
    requires forall k :: 0 <= k < |s| ==> s[k].obs.player == p
    ensures SamePlayer(s, p) == s
    decreases |s|
  {
    if s != [] {
      SamePlayerOfOwnRows(s[..|s| - 1], p);
    }
  }

  lemma {:induction false} SamePlayerOfOtherRows(s: seq<Tagged>, p: string)
    requires forall k :: 0 <= k < |s| ==> s[k].obs.player != p
    ensures SamePlayer(s, p) == []
    decreases |s|
  {
    if s != [] {
      SamePlayerOfOtherRows(s[..|s| - 1], p);
    }
  }

  /** The stat values of row i's player up to and including row i: that player's
      observation history as of row i. */
  function History(s: seq<Tagged>, i: nat, stat: Stat): (h: seq<real>)
    requires i < |s|
    ensures |h| > 0
  {
    assert s[..i + 1][..i] == s[..i];
    Values(SamePlayer(s[..i + 1], s[i].obs.player), stat)
  }

  /** The window of rolling(window=5, min_periods=1): the last five values, or all
      of them when there are fewer. */
  function TrailingWindow(vs: seq<real>): (w: seq<real>)
    ensures |w| == if |vs| < 5 then |vs| else 5
    ensures w == vs[|vs| - |w|..]
  {
    if |vs| <= 5 then vs else vs[|vs| - 5..]
  }

  /** rolling(window=5, min_periods=1).mean() over one player's values: position k
      averages the window ending at k. */
  function RollingMeans(vs: seq<real>): (r: seq<real>)
    ensures |r| == |vs|
  {
    seq(|vs|, k requires 0 <= k < |vs| => Mean(TrailingWindow(vs[..k + 1])))
  }

  /** Number of leading rows that belong to the first row's player. */
  function LeadingRun(s: seq<Tagged>): (n: nat)
    requires |s| > 0
    ensures 1 <= n <= |s|
    ensures forall j :: 0 <= j < n ==> s[j].obs.player == s[0].obs.player
    ensures n < |s| ==> s[n].obs.player != s[0].obs.player
    decreases |s|
  {
    if |s| == 1 || s[1].obs.player != s[0].obs.player then 1 else 1 + LeadingRun(s[1..])
  }

  /** groupby("player")[col].rolling(window=5, min_periods=1).mean().reset_index(drop=True)
      on a frame sorted by player: each player's block gets its rolling means, and the
      blocks are concatenated in order. */
  function RollingColumn(s: seq<Tagged>, stat: Stat): (r: seq<real>)
    ensures |r| == |s|
    decreases |s|
  {
    if s == [] then []
    else
      var n := LeadingRun(s);
      RollingMeans(Values(s[..n], stat)) + RollingColumn(s[n..], stat)
  }

  lemma ContiguousSuffix(s: seq<Tagged>, n: nat)
    requires PlayersContiguous(s) && n <= |s|
    ensures PlayersContiguous(s[n..])
  {
    var b := s[n..];
    forall x, y, z | 0 <= x < y < z < |b| && b[x].obs.player == b[z].obs.player
      ensures b[y].obs.player == b[x].obs.player
    {
      assert b[x] == s[n + x] && b[y] == s[n + y] && b[z] == s[n + z];
    }
  }

  /** Inside the first block the rolling column is the block's own rolling means. */
  lemma RollingColumnHead(s: seq<Tagged>, stat: Stat, i: nat)
    requires 0 < |s| && i < LeadingRun(s)
    ensures RollingColumn(s, stat)[i] == RollingMeans(Values(s[..LeadingRun(s)], stat))[i]
  {
  }

  lemma ValuesOfPrefix(s: seq<Tagged>, stat: Stat, n: nat, m: nat)
    requires m <= n <= |s|
    ensures Values(s[..n], stat)[..m] == Values(s[..m], stat)
  {
  }

  /** Inside the first block a row's history is the block's values up to that row. */
  lemma HistoryInFirstBlock(s: seq<Tagged>, stat: Stat, i: nat)
    requires 0 < |s| && i < LeadingRun(s)
    ensures Values(s[..LeadingRun(s)], stat)[..i + 1] == History(s, i, stat)
  {
    FirstBlockPrefix(s, i);
    HistoryOfOwnPrefix(s, stat, i);
    ValuesOfPrefix(s, stat, LeadingRun(s), i + 1);
  }

  /** When every row up to row i is row i's player's, the history is that whole prefix. */
  lemma HistoryOfOwnPrefix(s: seq<Tagged>, stat: Stat, i: nat)
    requires i < |s|
    requires forall k :: 0 <= k <= i ==> s[k].obs.player == s[0].obs.player
    ensures History(s, i, stat) == Values(s[..i + 1], stat)
  {
    var own, p := s[..i + 1], s[i].obs.player;
    assert forall k :: 0 <= k < |own| ==> own[k].obs.player == p;
    SamePlayerOfOwnRows(own, p);
  }

  /** A prefix that ends inside the first block holds only the first player's rows. */
  lemma FirstBlockPrefix(s: seq<Tagged>, i: nat)
    requires 0 < |s| && i < LeadingRun(s)
    ensures forall k :: 0 <= k <= i ==> s[k].obs.player == s[0].obs.player
  {
  }

  /** Inside the first block the rolling value is the block's own rolling mean. */
  lemma RollingInFirstBlock(s: seq<Tagged>, stat: Stat, i: nat)
    requires 0 < |s| && i < LeadingRun(s)
    ensures RollingColumn(s, stat)[i] == Mean(TrailingWindow(History(s, i, stat)))
  {
    var vs := Values(s[..LeadingRun(s)], stat);
    var h := History(s, i, stat);
    RollingColumnHead(s, stat, i);
    HistoryInFirstBlock(s, stat, i);
    assert vs[..i + 1] == h;
    RollingMeansAt(vs, i);
  }

  /** Position i of the rolling means averages the window ending at i. */
  lemma RollingMeansAt(vs: seq<real>, i: nat)
    requires i < |vs|
    ensures RollingMeans(vs)[i] == Mean(TrailingWindow(vs[..i + 1]))
  {
  }

  /** One instance of contiguity: a row between two rows of a player is that player's. */
  lemma ContiguousAt(s: seq<Tagged>, a: int, b: int, c: int)
    requires PlayersContiguous(s) && 0 <= a < b < c < |s|
    ensures s[a].obs.player == s[c].obs.player ==> s[b].obs.player == s[a].obs.player
  {
  }

  /** A row's history ignores a prefix that holds no row of its player. */
  lemma HistoryIgnoresOtherPrefix(s: seq<Tagged>, stat: Stat, n: nat, i: nat)
    requires n <= i < |s|
    requires forall k :: 0 <= k < n ==> s[k].obs.player != s[i].obs.player
    ensures History(s, i, stat) == History(s[n..], i - n, stat)
  {
    var q := s[i].obs.player;
    var a, b := s[..n], s[n..];
    assert s[..i + 1] == a + b[..i - n + 1];
    SamePlayerConcat(a, b[..i - n + 1], q);
    SamePlayerOfOtherRows(a, q);
  }

  /** Past the first block the rolling column is the rest's rolling column. */
  lemma RollingColumnTail(s: seq<Tagged>, stat: Stat, i: nat)
    requires 0 < |s| && LeadingRun(s) <= i < |s|
    ensures RollingColumn(s, stat)[i] == RollingColumn(s[LeadingRun(s)..], stat)[i - LeadingRun(s)]
  {
    var n := LeadingRun(s);
    var head, rest := RollingMeans(Values(s[..n], stat)), RollingColumn(s[n..], stat);
    assert |head| == n;
    RollingColumnSplit(s, stat);
    ConcatIndex(head, rest, i);
  }

  lemma RollingColumnSplit(s: seq<Tagged>, stat: Stat)
    requires 0 < |s|
    ensures RollingColumn(s, stat) == RollingMeans(Values(s[..LeadingRun(s)], stat)) + RollingColumn(s[LeadingRun(s)..], stat)
  {
  }

  lemma ConcatIndex(a: seq<real>, b: seq<real>, i: nat)
    requires |a| <= i < |a| + |b|
    ensures (a + b)[i] == b[i - |a|]
  {
  }

  /** Past the first block, a row of another player has the history it has in the rest. */
  lemma HistoryPastFirstBlock(s: seq<Tagged>, stat: Stat, n: nat, i: nat)
    requires n <= i < |s| && s[i].obs.player != s[0].obs.player
    requires forall k :: 0 <= k < n ==> s[k].obs.player == s[0].obs.player
    ensures History(s, i, stat) == History(s[n..], i - n, stat)
  {
    HistoryIgnoresOtherPrefix(s, stat, n, i);
  }

  /** On a frame whose players form blocks, row i's rolling value is the mean of its
      player's last (up to) five observations up to and including row i. */
  lemma {:induction false} RollingColumnIsTrailingMean(s: seq<Tagged>, stat: Stat, i: nat)
    requires PlayersContiguous(s) && i < |s|
    ensures RollingColumn(s, stat)[i] == Mean(TrailingWindow(History(s, i, stat)))
    decreases |s|
  {
    var n := LeadingRun(s);
    if i < n {
      RollingInFirstBlock(s, stat, i);
    } else {
      RollingColumnTail(s, stat, i);
      ContiguousSuffix(s, n);
      RollingColumnIsTrailingMean(s[n..], stat, i - n);
      if n < i {
        ContiguousAt(s, 0, n, i);
      }
      HistoryPastFirstBlock(s, stat, n, i);
    }
  }

  /** Row i's rolling value depends only on its own player's rows up to row i: later
      rows and other players' rows play no part. */
  lemma RollingIsCausal(s: seq<Tagged>, t: seq<Tagged>, stat: Stat, i: nat, j: nat)
    requires PlayersContiguous(s) && PlayersContiguous(t) && i < |s| && j < |t|
    requires s[i].obs.player == t[j].obs.player
    requires SamePlayer(s[..i + 1], s[i].obs.player) == SamePlayer(t[..j + 1], t[j].obs.player)
    ensures RollingColumn(s, stat)[i] == RollingColumn(t, stat)[j]
  {
    RollingColumnIsTrailingMean(s, stat, i);
    RollingColumnIsTrailingMean(t, stat, j);
  }

  /** A row of processed_cricket_performance.csv: the sorted row, its rolling form and
      its opponent profile, absent when the merge found none. */
  datatype FeatureRow = FeatureRow(row: Tagged, rollingRuns: real, rollingWickets: real, profile: Option<Profile>)

  /** The script from the loaded frame to the frame it saves. */
  function FeatureTable(rows: seq<Tagged>): (r: seq<FeatureRow>)
    ensures |r| == |rows|
    ensures multiset(RowColumn(r)) == multiset(rows)
    ensures forall i, j :: 0 <= i < j < |r| ==> KeyLe(r[i].row, r[j].row)
  {
    var s := SortByPlayerDate(rows);
    var runs := RollingColumn(s, Runs);
    var wickets := RollingColumn(s, Wickets);
    var table := ProfileTable(s);
    var r := Assemble(s, runs, wickets, table);
    SortedRowColumn(rows, r);
    r
  }

  /** A table whose row column is the sorted frame holds the input rows in (player,
      date) order. */
  lemma SortedRowColumn(rows: seq<Tagged>, r: seq<FeatureRow>)
    requires RowColumn(r) == SortByPlayerDate(rows)
    ensures multiset(RowColumn(r)) == multiset(rows)
    ensures forall i, j :: 0 <= i < j < |r| ==> KeyLe(r[i].row, r[j].row)
  {
    var s := SortByPlayerDate(rows);
    assert forall i :: 0 <= i < |r| ==> r[i].row == s[i];
  }

  /** The sorted rows with their rolling columns and merged profiles attached. */
  function Assemble(s: seq<Tagged>, runs: seq<real>, wickets: seq<real>, table: map<string, Profile>): (r: seq<FeatureRow>)
    requires |runs| == |s| && |wickets| == |s|
    ensures |r| == |s| && RowColumn(r) == s
    ensures forall i :: 0 <= i < |s| ==>
              r[i] == FeatureRow(s[i], runs[i], wickets[i], LookupProfile(table, s[i].opponent))
  {
    var r := seq(|s|, i requires 0 <= i < |s| => FeatureRow(s[i], runs[i], wickets[i], LookupProfile(table, s[i].opponent)));
    assert RowColumn(r) == s;
    r
  }

  /** The row column of a feature table. */
  function RowColumn(r: seq<FeatureRow>): (s: seq<Tagged>)
    ensures |s| == |r| && forall i :: 0 <= i < |r| ==> s[i] == r[i].row
  {
    seq(|r|, i requires 0 <= i < |r| => r[i].row)
  }

  /** The output rows are the input rows, reordered by player and then date. */
  lemma FeatureTableIsSortedPermutation(rows: seq<Tagged>)
    ensures multiset(RowColumn(FeatureTable(rows))) == multiset(rows)
    ensures forall i, j :: 0 <= i < j < |rows| ==> KeyLe(FeatureTable(rows)[i].row, FeatureTable(rows)[j].row)
  {
    assert RowColumn(FeatureTable(rows)) == SortByPlayerDate(rows);
  }

  /** The row at sorted position i of the saved frame. */
  lemma FeatureTableAt(rows: seq<Tagged>, i: nat)
    requires i < |rows|
    ensures var s := SortByPlayerDate(rows);
      FeatureTable(rows)[i] ==
        FeatureRow(s[i], RollingColumn(s, Runs)[i], RollingColumn(s, Wickets)[i], LookupProfile(ProfileTable(s), s[i].opponent))
  {
  }

  /** rolling_runs and rolling_wickets of the row at sorted position i: the means of its
      player's last (up to) five observations ending at that row. */
  lemma FeatureTableRolling(rows: seq<Tagged>, i: nat)
    requires i < |rows|
    ensures var s := SortByPlayerDate(rows);
      && FeatureTable(rows)[i].rollingRuns == Mean(TrailingWindow(History(s, i, Runs)))
      && FeatureTable(rows)[i].rollingWickets == Mean(TrailingWindow(History(s, i, Wickets)))
  {
    var s := SortByPlayerDate(rows);
    FeatureTableAt(rows, i);
    SortedIsContiguous(s);
    RollingColumnIsTrailingMean(s, Runs, i);
    RollingColumnIsTrailingMean(s, Wickets, i);
  }

  /** Each rolling value lies between the smallest and largest value of its window. */
  lemma FeatureTableRollingBounds(rows: seq<Tagged>, i: nat, stat: Stat)
    requires i < |rows|
    ensures var w := TrailingWindow(History(SortByPlayerDate(rows), i, stat));
      var v := if stat == Runs then FeatureTable(rows)[i].rollingRuns else FeatureTable(rows)[i].rollingWickets;
      MinOf(w) <= v <= MaxOf(w)
  {
    FeatureTableRolling(rows, i);
    MeanWithinMinMax(TrailingWindow(History(SortByPlayerDate(rows), i, stat)));
  }

  /** No row has negative total_runs or total_wickets. */
  predicate CountsNonNegative(s: seq<Tagged>) {
    forall k :: 0 <= k < |s| ==> s[k].obs.totalRuns >= 0 && s[k].obs.totalWickets >= 0
  }

  /** With non-negative counts, rolling_runs and rolling_wickets are non-negative. */
  lemma FeatureTableRollingNonNegative(rows: seq<Tagged>, i: nat)
    requires i < |rows|
    requires CountsNonNegative(rows)
    ensures FeatureTable(rows)[i].rollingRuns >= 0.0
    ensures FeatureTable(rows)[i].rollingWickets >= 0.0
  {
    var s := SortByPlayerDate(rows);
    SortedCountsNonNegative(rows);
    HistoryNonNegative(s, i, Runs);
    WindowMinNonNegative(History(s, i, Runs));
    FeatureTableRollingBounds(rows, i, Runs);
    HistoryNonNegative(s, i, Wickets);
    WindowMinNonNegative(History(s, i, Wickets));
    FeatureTableRollingBounds(rows, i, Wickets);
  }

  /** Sorting brings in no new rows, so it keeps the counts non-negative. */
  lemma SortedCountsNonNegative(rows: seq<Tagged>)
    requires CountsNonNegative(rows)
    ensures CountsNonNegative(SortByPlayerDate(rows))
  {
    var s := SortByPlayerDate(rows);
    forall k | 0 <= k < |s| ensures s[k].obs.totalRuns >= 0 && s[k].obs.totalWickets >= 0 {
      assert s[k] in multiset(s);
      assert s[k] in rows;
      var j :| 0 <= j < |rows| && rows[j] == s[k];
    }
  }

  /** Every row of player p in s is a row of s. */
  lemma {:induction false} SamePlayerIn(s: seq<Tagged>, p: string, k: nat)
    requires k < |SamePlayer(s, p)|
    ensures SamePlayer(s, p)[k] in s
    decreases |s|
  {
    var init := s[..|s| - 1];
    if k < |SamePlayer(init, p)| {
      SamePlayerIn(init, p, k);
      assert SamePlayer(s, p)[k] == SamePlayer(init, p)[k];
    } else {
      assert SamePlayer(s, p)[k] == s[|s| - 1];
    }
  }

  /** A history drawn from non-negative counts holds no negative value. */
  lemma HistoryNonNegative(s: seq<Tagged>, i: nat, stat: Stat)
    requires i < |s|
    requires CountsNonNegative(s)
    ensures forall k :: 0 <= k < |History(s, i, stat)| ==> History(s, i, stat)[k] >= 0.0
  {
    var own := SamePlayer(s[..i + 1], s[i].obs.player);
    forall k | 0 <= k < |own| ensures StatOf(own[k].obs, stat) >= 0.0 {
      SamePlayerIn(s[..i + 1], s[i].obs.player, k);
      var j :| 0 <= j < i + 1 && s[..i + 1][j] == own[k];
      assert s[j] == own[k];
    }
  }

  /** The smallest value of the window over non-negative values is non-negative. */
  lemma WindowMinNonNegative(vs: seq<real>)
    requires |vs| > 0
    requires forall k :: 0 <= k < |vs| ==> vs[k] >= 0.0
    ensures MinOf(TrailingWindow(vs)) >= 0.0
  {
    var w := TrailingWindow(vs);
    var j :| 0 <= j < |w| && w[j] == MinOf(w);
    assert w[j] == vs[|vs| - |w| + j];
  }

  /** A history of length one holds only the row's own value. */
  lemma SingletonHistory(s: seq<Tagged>, i: nat, stat: Stat)
    requires i < |s|
    requires |SamePlayer(s[..i + 1], s[i].obs.player)| == 1
    ensures History(s, i, stat) == [StatOf(s[i].obs, stat)]
  {
    var h := SamePlayer(s[..i + 1], s[i].obs.player);
    assert s[..i + 1][..i] == s[..i];
    assert h == SamePlayer(s[..i], s[i].obs.player) + [s[i]];
    assert h == [s[i]];
  }

  /** A player's first observation carries its own runs and wickets. */
  lemma FeatureTableFirstObservation(rows: seq<Tagged>, i: nat)
    requires i < |rows|
    requires |History(SortByPlayerDate(rows), i, Runs)| == 1
    ensures FeatureTable(rows)[i].rollingRuns == FeatureTable(rows)[i].row.obs.totalRuns as real
    ensures FeatureTable(rows)[i].rollingWickets == FeatureTable(rows)[i].row.obs.totalWickets as real
  {
    var s := SortByPlayerDate(rows);
    FeatureTableAt(rows, i);
    FeatureTableRolling(rows, i);
    FirstRollingValue(s, i, Runs);
    FirstRollingValue(s, i, Wickets);
  }

  /** A row with a one-value history has its own value as rolling mean. */
  lemma FirstRollingValue(s: seq<Tagged>, i: nat, stat: Stat)
    requires i < |s|
    requires |SamePlayer(s[..i + 1], s[i].obs.player)| == 1
    ensures Mean(TrailingWindow(History(s, i, stat))) == StatOf(s[i].obs, stat)
  {
    SingletonHistory(s, i, stat);
    SingleWindowMean(History(s, i, stat));
  }

  /** The window of a single value is that value, and so is its mean. */
  lemma SingleWindowMean(h: seq<real>)
    requires |h| == 1
    ensures |TrailingWindow(h)| == 1 && Mean(TrailingWindow(h)) == h[0]
  {
    assert TrailingWindow(h) == h;
    assert h == [h[0]];
    MeanOfSingleton(h[0]);
  }

  /** The merge keeps every row; a row gets a profile exactly when its opponent_team is
      present, and then the profile averages total_runs and total_wickets over all rows
      played against that opponent. No default is filled in. */
  lemma FeatureTableProfile(rows: seq<Tagged>, i: nat)
    requires i < |rows|
    ensures FeatureTable(rows)[i].profile.None? <==> FeatureTable(rows)[i].row.opponent.None?
    ensures FeatureTable(rows)[i].row.opponent.Some? ==>
      var s, o := SortByPlayerDate(rows), FeatureTable(rows)[i].row.opponent.value;
      |FacedBy(s, o)| > 0 &&
      FeatureTable(rows)[i].profile == Some(Profile(MeanAgainst(s, o, Runs), MeanAgainst(s, o, Wickets)))
  {
    MergedProfileOfRow(SortByPlayerDate(rows), i);
  }

  /** With runs 10, 20, 30, 40, 50, 60 in date order, the rolling mean is 10 at the
      first match and mean(20, 30, 40, 50, 60) = 40 at the sixth. */
  lemma RollingExample(vs: seq<real>)
    requires |vs| == 6 && vs[0] == 10.0 && vs[1] == 20.0 && vs[2] == 30.0
    requires vs[3] == 40.0 && vs[4] == 50.0 && vs[5] == 60.0
    ensures RollingMeans(vs)[0] == 10.0
    ensures RollingMeans(vs)[5] == 40.0
  {
    FirstRollingMean(vs);
    SixthRollingMean(vs);
    assert vs[1..] == [20.0, 30.0, 40.0, 50.0, 60.0];
    WindowMeanExample();
  }

  lemma WindowMeanExample()
    ensures Mean([20.0, 30.0, 40.0, 50.0, 60.0]) == 40.0
  {
    WindowSumExample();
  }

  /** The first rolling value is the first value. */
  lemma FirstRollingMean(vs: seq<real>)
    requires |vs| > 0
    ensures RollingMeans(vs)[0] == vs[0]
  {
    var h := vs[..1];
    assert |h| == 1 && h[0] == vs[0];
    SingleWindowMean(h);
    RollingMeansAt(vs, 0);
  }

  /** With six values, the sixth rolling value averages the last five. */
  lemma SixthRollingMean(vs: seq<real>)
    requires |vs| == 6
    ensures RollingMeans(vs)[5] == Mean(vs[1..])
  {
    RollingMeansAt(vs, 5);
    assert vs[..6] == vs;
  }

  lemma WindowSumExample()
    ensures Sum([20.0, 30.0, 40.0, 50.0, 60.0]) == 200.0
  {
    var w := [20.0, 30.0, 40.0, 50.0, 60.0];
    assert Sum([20.0]) == 20.0 by { assert [20.0][..0] == []; }
    assert Sum([20.0, 30.0]) == 50.0 by { assert [20.0, 30.0][..1] == [20.0]; }
    assert Sum([20.0, 30.0, 40.0]) == 90.0 by { assert [20.0, 30.0, 40.0][..2] == [20.0, 30.0]; }
    assert Sum([20.0, 30.0, 40.0, 50.0]) == 140.0 by { assert [20.0, 30.0, 40.0, 50.0][..3] == [20.0, 30.0, 40.0]; }
    assert w[..4] == [20.0, 30.0, 40.0, 50.0];
  }
}
