/** Opponent resolution (data_processing/extract_new_columns.py): group the rows by match
    date, build a team-to-team dictionary from the dates with exactly two teams, look up
    every row's opponent by its team, attach the opponent profile and fill the gaps with
    "Unknown" and 0. */
module ExtractNewColumns {
  import opened Collections
  import opened Strings
  import opened Rows
  import opened OpponentStrength

  /** The match_date column. */
  function Dates(rows: seq<Observation>): (ds: seq<int>)
    ensures |ds| == |rows|
    ensures forall k :: 0 <= k < |rows| ==> ds[k] == rows[k].matchDate
  {
    seq(|rows|, k requires 0 <= k < |rows| => rows[k].matchDate)
  }

  predicate IntLe(a: int, b: int) {
    a <= b
  }

  /** The keys of groupby("match_date"): every date that occurs, once, ascending. */
  function DistinctDates(rows: seq<Observation>): (ds: seq<int>)
    ensures forall j, k :: 0 <= j < k < |ds| ==> ds[j] < ds[k]
    ensures forall d :: d in ds <==> exists i :: 0 <= i < |rows| && rows[i].matchDate == d
  {
    assert TotalPreorder(IntLe);
    var dates := Dates(rows);
    var u := Dedup(dates);
    var ds := SortBy(u, IntLe);
    NoDupOfPermutation(u, ds);
    assert forall j, k :: 0 <= j < k < |ds| ==> ds[j] <= ds[k] && ds[j] != ds[k];
    SortedDatesMembers(rows, ds);
    ds
  }

  /** A reordering of the de-duplicated dates holds exactly the dates that occur. */
  lemma SortedDatesMembers(rows: seq<Observation>, ds: seq<int>)
    requires multiset(ds) == multiset(Dedup(Dates(rows)))
    ensures forall d :: d in ds <==> exists i :: 0 <= i < |rows| && rows[i].matchDate == d
  {
    var dates := Dates(rows);
    var u := Dedup(dates);
    forall d ensures d in ds <==> exists i :: 0 <= i < |rows| && rows[i].matchDate == d {
      assert d in ds <==> d in multiset(ds);
      assert d in u <==> d in multiset(u);
      assert d in dates <==> exists i :: 0 <= i < |rows| && rows[i].matchDate == d;
    }
  }

  /** The team column of the rows played on date d, in row order. */
  function TeamsOn(rows: seq<Observation>, d: int): (ts: seq<string>)
    ensures forall t :: t in ts <==> exists i :: 0 <= i < |rows| && rows[i].matchDate == d && rows[i].team == t
    decreases |rows|
  {
    if rows == [] then []
    else
      var init := rows[..|rows| - 1];
      var last := rows[|rows| - 1];
      assert forall i :: 0 <= i < |init| ==> init[i] == rows[i];
      TeamsOn(init, d) + (if last.matchDate == d then [last.team] else [])
  }

  /** groupby("match_date")["team"].unique(): for each date in ascending order, the
      distinct teams of that date in order of first appearance. */
  function DateGroups(rows: seq<Observation>): (gs: seq<seq<string>>)
    ensures |gs| == |DistinctDates(rows)|
    ensures forall k :: 0 <= k < |gs| ==> NoDup(gs[k]) && |gs[k]| > 0
    ensures forall k, t :: 0 <= k < |gs| ==>
      (t in gs[k] <==> exists i :: 0 <= i < |rows| && rows[i].matchDate == DistinctDates(rows)[k] && rows[i].team == t)
  {
    var ds := DistinctDates(rows);
    var gs := seq(|ds|, k requires 0 <= k < |ds| => Dedup(TeamsOn(rows, ds[k])));
    forall k | 0 <= k < |gs| ensures NoDup(gs[k]) && |gs[k]| > 0 {
      assert gs[k] == Dedup(TeamsOn(rows, ds[k]));
      assert ds[k] in ds;
      var i :| 0 <= i < |rows| && rows[i].matchDate == ds[k];
      assert rows[i].team in TeamsOn(rows, ds[k]);
    }
    forall k, t | 0 <= k < |gs|
      ensures t in gs[k] <==> exists i :: 0 <= i < |rows| && rows[i].matchDate == ds[k] && rows[i].team == t
    {
      assert gs[k] == Dedup(TeamsOn(rows, ds[k]));
    }
    gs
  }

  /** The entry a two-team group writes for t: t's partner in that group. When t is
      both teams, the second assignment (teams[1] := teams[0]) is the one that stays. */
  function Other(g: seq<string>, t: string): string
    requires |g| == 2
  {
    if g[1] == t then g[0] else g[1]
  }

  /** The dictionary the loop builds after iterating over groups, in order. Every team
      of a two-team group has an entry, and every entry's opponent has one too. */
  function OpponentDictOf(groups: seq<seq<string>>): (d: map<string, string>)
    ensures forall k, t :: 0 <= k < |groups| && |groups[k]| == 2 && t in groups[k] ==> t in d
    ensures forall t :: t in d ==> d[t] in d
    decreases |groups|
  {
    if groups == [] then map[]
    else
      var d := OpponentDictOf(groups[..|groups| - 1]);
      var teams := groups[|groups| - 1];
      if |teams| == 2 then d[teams[0] := teams[1]][teams[1] := teams[0]] else d
  }

  /** The opponent_dict loop: for each group with exactly two teams, map each team to
      the other one; a later group overwrites an earlier entry. */
  method BuildOpponentDict(groups: seq<seq<string>>) returns (d: map<string, string>)
    ensures d == OpponentDictOf(groups)
    ensures forall t :: t in d <==> exists k :: 0 <= k < |groups| && |groups[k]| == 2 && t in groups[k]
  {
    d := map[];
    var i := 0;
    while i < |groups|
      invariant 0 <= i <= |groups|
      invariant d == OpponentDictOf(groups[..i])
    {
      var teams := groups[i];
      if |teams| == 2 {
        d := d[teams[0] := teams[1]];
        d := d[teams[1] := teams[0]];
      }
      assert groups[..i + 1][..i] == groups[..i];
      i := i + 1;
    }
    assert groups[..|groups|] == groups;
    OpponentDictDomain(groups);
  }

  /** t gets an entry exactly when some two-team group contains it; groups of one
      team or of three or more add nothing. */
  lemma {:induction false} OpponentDictDomainAt(groups: seq<seq<string>>, t: string)
    ensures t in OpponentDictOf(groups) <==> exists k :: 0 <= k < |groups| && |groups[k]| == 2 && t in groups[k]
    decreases |groups|
  {
    if groups != [] {
      var init := groups[..|groups| - 1];
      OpponentDictDomainAt(init, t);
      assert forall k :: 0 <= k < |init| ==> init[k] == groups[k];
    }
  }

  lemma OpponentDictDomain(groups: seq<seq<string>>)
    ensures forall t :: t in OpponentDictOf(groups) <==> exists k :: 0 <= k < |groups| && |groups[k]| == 2 && t in groups[k]
  {
    forall t { OpponentDictDomainAt(groups, t); }
  }

  /** The last two-team group containing t decides t's entry. */
  lemma {:induction false} OpponentDictLastWins(groups: seq<seq<string>>, t: string, k: nat)
    requires k < |groups| && |groups[k]| == 2 && t in groups[k]
    requires forall k' :: k < k' < |groups| ==> !(|groups[k']| == 2 && t in groups[k'])
    ensures t in OpponentDictOf(groups) && OpponentDictOf(groups)[t] == Other(groups[k], t)
    decreases |groups|
  {
    var init := groups[..|groups| - 1];
    if k < |groups| - 1 {
      assert forall k' :: 0 <= k' < |init| ==> init[k'] == groups[k'];
      OpponentDictLastWins(init, t, k);
    }
  }

  /** Index of the last two-team group containing t, or -1 when there is none. */
  function LastPairWith(groups: seq<seq<string>>, t: string): (k: int)
    ensures -1 <= k < |groups|
    ensures k >= 0 ==> |groups[k]| == 2 && t in groups[k]
    ensures forall k' :: k < k' < |groups| ==> !(|groups[k']| == 2 && t in groups[k'])
    decreases |groups|
  {
    if groups == [] then -1
    else
      var last := groups[|groups| - 1];
      if |last| == 2 && t in last then |groups| - 1 else LastPairWith(groups[..|groups| - 1], t)
  }

  /** Every entry sends a team to a different team met in one two-team group, provided
      the groups hold distinct teams (as unique() guarantees). */
  lemma OpponentDictEntry(groups: seq<seq<string>>, t: string)
    requires forall k :: 0 <= k < |groups| ==> NoDup(groups[k])
    requires t in OpponentDictOf(groups)
    ensures OpponentDictOf(groups)[t] != t
    ensures exists k :: 0 <= k < |groups| && |groups[k]| == 2 && t in groups[k] && OpponentDictOf(groups)[t] in groups[k]
  {
    OpponentDictDomainAt(groups, t);
    var k := LastPairWith(groups, t);
    OpponentDictLastWins(groups, t, k);
  }

  /** The dictionary need not be symmetric: with dates {A, B} then {B, C}, A maps to B
      while B maps to C. */
  lemma OpponentDictNotSymmetric()
    ensures var d := OpponentDictOf([["A", "B"], ["B", "C"]]);
      d["A"] == "B" && d["B"] == "C" && d["C"] == "B"
  {
    var gs: seq<seq<string>> := [["A", "B"], ["B", "C"]];
    assert gs[..1] == [["A", "B"]];
    assert gs[..1][..0] == [];
  }

  /** The opponent dictionary of a table. */
  function OpponentMap(rows: seq<Observation>): map<string, string> {
    OpponentDictOf(DateGroups(rows))
  }

  /** Exactly two distinct teams, t and u, have rows dated d. */
  predicate TwoTeamDate(rows: seq<Observation>, d: int, t: string, u: string) {
    && t != u
    && (exists i :: 0 <= i < |rows| && rows[i].matchDate == d && rows[i].team == t)
    && (exists i :: 0 <= i < |rows| && rows[i].matchDate == d && rows[i].team == u)
    && (forall i :: 0 <= i < |rows| && rows[i].matchDate == d ==> rows[i].team == t || rows[i].team == u)
  }

  /** A duplicate-free two-element group is exactly {g[0], g[1]}. */
  lemma PairGroup(g: seq<string>, t: string, u: string)
    requires NoDup(g) && t != u && t in g && u in g
    requires forall x :: x in g ==> x == t || x == u
    ensures |g| == 2
  {
    NoDupCardinality(g);
    assert (set x | x in g) == {t, u};
  }

  /** A two-team group is a two-team date: its teams are t and its partner. */
  lemma PairGroupIsTwoTeamDate(rows: seq<Observation>, k: nat, t: string)
    requires k < |DateGroups(rows)|
    requires |DateGroups(rows)[k]| == 2 && t in DateGroups(rows)[k]
    ensures TwoTeamDate(rows, DistinctDates(rows)[k], t, Other(DateGroups(rows)[k], t))
  {
    var g, d := DateGroups(rows)[k], DistinctDates(rows)[k];
    var u := Other(g, t);
    assert u in g;
    assert g[0] != g[1];
    assert forall x :: x in g ==> x == t || x == u;
    forall i | 0 <= i < |rows| && rows[i].matchDate == d ensures rows[i].team == t || rows[i].team == u {
      assert rows[i].team in g;
    }
  }

  /** A two-team date is a two-team group holding both teams. */
  lemma TwoTeamDateIsPairGroup(rows: seq<Observation>, d: int, t: string, u: string)
    requires TwoTeamDate(rows, d, t, u)
    ensures exists k :: (0 <= k < |DateGroups(rows)| && DistinctDates(rows)[k] == d &&
      |DateGroups(rows)[k]| == 2 && t in DateGroups(rows)[k] && u in DateGroups(rows)[k])
  {
    var gs, ds := DateGroups(rows), DistinctDates(rows);
    assert d in ds;
    var k :| 0 <= k < |ds| && ds[k] == d;
    assert t in gs[k] && u in gs[k];
    forall x | x in gs[k] ensures x == t || x == u {
      var i :| 0 <= i < |rows| && rows[i].matchDate == d && rows[i].team == x;
    }
    PairGroup(gs[k], t, u);
  }

  /** A team is resolved exactly when it is one of the two teams of some date. */
  lemma ResolvedIffTwoTeamDate(rows: seq<Observation>, t: string)
    ensures t in OpponentMap(rows) <==> exists d, u :: TwoTeamDate(rows, d, t, u)
  {
    var gs, ds := DateGroups(rows), DistinctDates(rows);
    OpponentDictDomainAt(gs, t);
    if t in OpponentMap(rows) {
      var k :| 0 <= k < |gs| && |gs[k]| == 2 && t in gs[k];
      PairGroupIsTwoTeamDate(rows, k, t);
    }
    if exists d, u :: TwoTeamDate(rows, d, t, u) {
      var d, u :| TwoTeamDate(rows, d, t, u);
      TwoTeamDateIsPairGroup(rows, d, t, u);
    }
  }

  /** A resolved team's opponent is the other team of a two-team date. */
  lemma ResolvedOpponentSharesDate(rows: seq<Observation>, t: string)
    requires t in OpponentMap(rows)
    ensures OpponentMap(rows)[t] != t
    ensures exists d :: TwoTeamDate(rows, d, t, OpponentMap(rows)[t])
  {
    var gs := DateGroups(rows);
    OpponentDictEntry(gs, t);
    var u := OpponentMap(rows)[t];
    var k :| 0 <= k < |gs| && |gs[k]| == 2 && t in gs[k] && u in gs[k];
    PairGroupIsTwoTeamDate(rows, k, t);
    assert Other(gs[k], t) == u;
  }

  /** df["team"].map(opponent_dict): the opponent comes from the row's team alone, not
      from its own match date; a team without an entry gets a missing value. */
  function AssignOpponents(rows: seq<Observation>, d: map<string, string>): (tagged: seq<Tagged>)
    ensures |tagged| == |rows|
    ensures forall i :: 0 <= i < |rows| ==> tagged[i].obs == rows[i]
    ensures forall i :: 0 <= i < |rows| ==> (tagged[i].opponent.Some? <==> rows[i].team in d)
    ensures forall i :: 0 <= i < |rows| && rows[i].team in d ==> tagged[i].opponent == Some(d[rows[i].team])
    ensures forall i, j :: 0 <= i < |rows| && 0 <= j < |rows| && rows[i].team == rows[j].team ==>
              tagged[i].opponent == tagged[j].opponent
  {
    seq(|rows|, i requires 0 <= i < |rows| =>
      Tagged(rows[i], if rows[i].team in d then Some(d[rows[i].team]) else None))
  }


  /** A row of cleaned_cricket_performance.csv: the input row with its filled opponent
      columns. */
  datatype ResolvedRow = ResolvedRow(
    obs: Observation,
    opponentTeam: string,
    avgOpponentRuns: real,
    avgOpponentWickets: real)

  /** The three fillna calls applied to one merged row. */
  function FillRow(t: Tagged, p: Option<Profile>): ResolvedRow {
    ResolvedRow(
      t.obs,
      if t.opponent.Some? then t.opponent.value else Unknown,
      if p.Some? then p.value.avgOpponentRuns else 0.0,
      if p.Some? then p.value.avgOpponentWickets else 0.0)
  }

  /** The opponent aggregation, the left merge and the fills; the aggregation runs on
      the unfilled opponents, so unresolved rows belong to no group. */
  function MergeAndFill(tagged: seq<Tagged>): (out: seq<ResolvedRow>)
    ensures |out| == |tagged|
    ensures forall i :: 0 <= i < |tagged| ==> out[i].obs == tagged[i].obs
    ensures forall i :: 0 <= i < |tagged| && tagged[i].opponent.None? ==>
              out[i] == ResolvedRow(tagged[i].obs, Unknown, 0.0, 0.0)
    ensures forall i :: 0 <= i < |tagged| && tagged[i].opponent.Some? ==>
              out[i].opponentTeam == tagged[i].opponent.value
    ensures forall i :: 0 <= i < |tagged| && tagged[i].opponent.Some? ==>
              var o := tagged[i].opponent.value;
              if o in ProfileTable(tagged) then
                out[i].avgOpponentRuns == ProfileTable(tagged)[o].avgOpponentRuns &&
                out[i].avgOpponentWickets == ProfileTable(tagged)[o].avgOpponentWickets
              else out[i].avgOpponentRuns == 0.0 && out[i].avgOpponentWickets == 0.0
  {
    var table := ProfileTable(tagged);
    seq(|tagged|, i requires 0 <= i < |tagged| => FillRow(tagged[i], LookupProfile(table, tagged[i].opponent)))
  }

  /** What the script writes for a table. */
  function Resolve(rows: seq<Observation>): (r: seq<ResolvedRow>)
    ensures |r| == |rows|
    ensures forall i :: 0 <= i < |rows| ==> r[i].obs == rows[i]
  {
    MergeAndFill(AssignOpponents(rows, OpponentMap(rows)))
  }

  /** The whole script from the renamed, date-parsed frame to the frame it saves. */
  method ExtractNewColumnsScript(rows: seq<Observation>) returns (out: seq<ResolvedRow>)
    ensures out == Resolve(rows)
  {
    var groups := DateGroups(rows);
    var opponentDict := BuildOpponentDict(groups);
    var tagged := AssignOpponents(rows, opponentDict);
    out := MergeAndFill(tagged);
  }

  /** The merge keeps the row count and order, and every input column unchanged. */
  lemma ResolvePreservesRows(rows: seq<Observation>)
    ensures |Resolve(rows)| == |rows|
    ensures forall i :: 0 <= i < |rows| ==> Resolve(rows)[i].obs == rows[i]
  {
  }

  /** All rows of one team receive the same opponent, whatever their own dates. */
  lemma SameTeamSameOpponent(rows: seq<Observation>, i: nat, j: nat)
    requires i < |rows| && j < |rows| && rows[i].team == rows[j].team
    ensures Resolve(rows)[i].opponentTeam == Resolve(rows)[j].opponentTeam
    ensures Resolve(rows)[i].avgOpponentRuns == Resolve(rows)[j].avgOpponentRuns
    ensures Resolve(rows)[i].avgOpponentWickets == Resolve(rows)[j].avgOpponentWickets
  {
  }

  /** A row whose team plays in no two-team date gets "Unknown" and zero averages. */
  lemma UnresolvedRowDefaults(rows: seq<Observation>, i: nat)
    requires i < |rows|
    requires !exists d, u :: TwoTeamDate(rows, d, rows[i].team, u)
    ensures Resolve(rows)[i].opponentTeam == Unknown
    ensures Resolve(rows)[i].avgOpponentRuns == 0.0 && Resolve(rows)[i].avgOpponentWickets == 0.0
  {
    ResolvedIffTwoTeamDate(rows, rows[i].team);
  }

  /** A resolved row carries the other team of one of its team's two-team dates, and
      the means of total_runs and total_wickets over every row whose opponent is that
      team: the whole history, with the unresolved rows left out. */
  lemma ResolvedRowAverages(rows: seq<Observation>, i: nat)
    requires i < |rows|
    requires exists d, u :: TwoTeamDate(rows, d, rows[i].team, u)
    ensures var o := Resolve(rows)[i].opponentTeam;
      var tagged := AssignOpponents(rows, OpponentMap(rows));
      && o != rows[i].team
      && (exists d :: TwoTeamDate(rows, d, rows[i].team, o))
      && |FacedBy(tagged, o)| > 0
      && Resolve(rows)[i].avgOpponentRuns == MeanAgainst(tagged, o, Runs)
      && Resolve(rows)[i].avgOpponentWickets == MeanAgainst(tagged, o, Wickets)
  {
    var t := rows[i].team;
    ResolvedIffTwoTeamDate(rows, t);
    ResolvedOpponentSharesDate(rows, t);
    var tagged := AssignOpponents(rows, OpponentMap(rows));
    MergedProfileOfRow(tagged, i);
  }

  /** The group averaged for opponent o holds only rows resolved to o. */
  lemma {:induction false} FacedByOnlyResolved(rows: seq<Observation>, d: map<string, string>, o: string, k: nat)
    requires k < |FacedBy(AssignOpponents(rows, d), o)|
    ensures var x := FacedBy(AssignOpponents(rows, d), o)[k]; x.team in d && d[x.team] == o
    decreases |rows|
  {
    var init := rows[..|rows| - 1];
    var tagged := AssignOpponents(rows, d);
    assert tagged[..|tagged| - 1] == AssignOpponents(init, d);
    if k < |FacedBy(AssignOpponents(init, d), o)| {
      FacedByOnlyResolved(init, d, o, k);
    }
  }
}
