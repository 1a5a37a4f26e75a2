/** Opponent strength: group the rows by opponent_team, average total_runs and
    total_wickets per group, and left-merge the averages back onto the rows. Both
    extract_new_columns.py and feature_engineering.py run this same aggregation. */
module OpponentStrength {
  import opened Collections
  import opened Rows

  /** The observations whose opponent_team is o, in row order (one groupby group). */
  function FacedBy(rows: seq<Tagged>, o: string): (r: seq<Observation>)
    ensures |r| <= |rows|
    decreases |rows|
  {
    if rows == [] then []
    else
      var last := rows[|rows| - 1];
      FacedBy(rows[..|rows| - 1], o) + (if last.opponent == Some(o) then [last.obs] else [])
  }

  /** A group is non-empty exactly when some row names o as its opponent. */
  lemma {:induction false} FacedByNonEmpty(rows: seq<Tagged>, o: string)
    ensures |FacedBy(rows, o)| > 0 <==> exists i :: 0 <= i < |rows| && rows[i].opponent == Some(o)
    decreases |rows|
  {
    if rows != [] {
      var init := rows[..|rows| - 1];
      FacedByNonEmpty(init, o);
      assert forall i :: 0 <= i < |init| ==> init[i] == rows[i];
    }
  }

  /** Mean of one stat over the rows played against o. */
  function MeanAgainst(rows: seq<Tagged>, o: string, stat: Stat): real
    requires |FacedBy(rows, o)| > 0
  {
    Mean(StatValues(FacedBy(rows, o), stat))
  }

  /** avg_opponent_runs and avg_opponent_wickets of one opponent. */
  datatype Profile = Profile(avgOpponentRuns: real, avgOpponentWickets: real)

  /** Running sums and row count of one opponent group. */
  datatype Totals = Totals(runs: real, wickets: real, count: nat)

  /** Adds one row to the running per-opponent totals; a row whose opponent is missing
      is dropped, as groupby drops NaN keys. */
  function AddRow(m: map<string, Totals>, row: Tagged): map<string, Totals> {
    match row.opponent
    case None => m
    case Some(o) =>
      var t := if o in m then m[o] else Totals(0.0, 0.0, 0);
      m[o := Totals(t.runs + StatOf(row.obs, Runs), t.wickets + StatOf(row.obs, Wickets), t.count + 1)]
  }

  /** One pass over the rows accumulating the per-opponent totals. */
  function Accumulate(rows: seq<Tagged>): (m: map<string, Totals>)
    ensures forall o :: o in m ==> m[o].count > 0
    ensures forall i :: 0 <= i < |rows| && rows[i].opponent.Some? ==> rows[i].opponent.value in m
    decreases |rows|
  {
    if rows == [] then map[] else AddRow(Accumulate(rows[..|rows| - 1]), rows[|rows| - 1])
  }

  lemma SumStatAppend(a: seq<Observation>, x: Observation, stat: Stat)
    ensures Sum(StatValues(a + [x], stat)) == Sum(StatValues(a, stat)) + StatOf(x, stat)
  {
    var s := StatValues(a, stat);
    assert StatValues(a + [x], stat) == s + [StatOf(x, stat)];
    assert (s + [StatOf(x, stat)])[..|s|] == s;
  }

  /** The totals of o after grouping: sums of both stats and the size of o's group. */
  function GroupTotals(rows: seq<Tagged>, o: string): Totals {
    var g := FacedBy(rows, o);
    Totals(Sum(StatValues(g, Runs)), Sum(StatValues(g, Wickets)), |g|)
  }

  /** Adding a row against o extends o's totals by that row. */
  lemma GroupTotalsAppend(init: seq<Tagged>, last: Tagged, o: string)
    ensures last.opponent == Some(o) ==>
      var t := GroupTotals(init, o);
      GroupTotals(init + [last], o) ==
        Totals(t.runs + StatOf(last.obs, Runs), t.wickets + StatOf(last.obs, Wickets), t.count + 1)
    ensures last.opponent != Some(o) ==> GroupTotals(init + [last], o) == GroupTotals(init, o)
  {
    var rows := init + [last];
    assert rows[..|rows| - 1] == init;
    if last.opponent == Some(o) {
      assert FacedBy(rows, o) == FacedBy(init, o) + [last.obs];
      SumStatAppend(FacedBy(init, o), last.obs, Runs);
      SumStatAppend(FacedBy(init, o), last.obs, Wickets);
    } else {
      assert FacedBy(rows, o) == FacedBy(init, o);
    }
  }

  /** One accumulation step keeps the totals of o equal to those of o's group. */
  lemma AddRowAt(m: map<string, Totals>, init: seq<Tagged>, last: Tagged, o: string)
    requires o in m <==> GroupTotals(init, o).count > 0
    requires o in m ==> m[o] == GroupTotals(init, o)
    ensures o in AddRow(m, last) <==> GroupTotals(init + [last], o).count > 0
    ensures o in AddRow(m, last) ==> AddRow(m, last)[o] == GroupTotals(init + [last], o)
  {
    GroupTotalsAppend(init, last, o);
    if o !in m {
      assert FacedBy(init, o) == [];
      assert GroupTotals(init, o) == Totals(0.0, 0.0, 0);
    }
  }

  /** The accumulated totals of o are the sums and the size of o's group. */
  lemma {:induction false} AccumulateAt(rows: seq<Tagged>, o: string)
    ensures o in Accumulate(rows) <==> GroupTotals(rows, o).count > 0
    ensures o in Accumulate(rows) ==> Accumulate(rows)[o] == GroupTotals(rows, o)
    decreases |rows|
  {
    if rows != [] {
      var init := rows[..|rows| - 1];
      var last := rows[|rows| - 1];
      SplitLast(rows);
      AccumulateAt(init, o);
      AddRowAt(Accumulate(init), init, last, o);
    }
  }

  lemma SplitLast(rows: seq<Tagged>)
    requires rows != []
    ensures rows == rows[..|rows| - 1] + [rows[|rows| - 1]]
  {
  }

  lemma AccumulateMeaning(rows: seq<Tagged>)
    ensures forall o :: o in Accumulate(rows) <==> GroupTotals(rows, o).count > 0
    ensures forall o :: o in Accumulate(rows) ==> Accumulate(rows)[o] == GroupTotals(rows, o)
  {
    forall o { AccumulateAt(rows, o); }
  }

  /** The opponent_performance table: one profile per opponent that occurs, holding the
      means of total_runs and total_wickets over all rows played against it. */
  function ProfileTable(rows: seq<Tagged>): (table: map<string, Profile>)
    ensures forall o :: o in table <==> exists i :: 0 <= i < |rows| && rows[i].opponent == Some(o)
    ensures forall o :: o in table ==>
      |FacedBy(rows, o)| > 0 && table[o] == Profile(MeanAgainst(rows, o, Runs), MeanAgainst(rows, o, Wickets))
  {
    AccumulateMeaning(rows);
    forall o ensures |FacedBy(rows, o)| > 0 <==> exists i :: 0 <= i < |rows| && rows[i].opponent == Some(o) {
      FacedByNonEmpty(rows, o);
    }
    var acc := Accumulate(rows);
    map o | o in acc :: Profile(acc[o].runs / (acc[o].count as real), acc[o].wickets / (acc[o].count as real))
  }

  /** What a left merge on opponent_team attaches to a row: the key's profile, or
      absent when the key is missing or has no profile. */
  function LookupProfile(table: map<string, Profile>, key: Option<string>): (p: Option<Profile>)
    ensures p.Some? <==> key.Some? && key.value in table
    ensures p.Some? ==> p.value == table[key.value]
  {
    match key
    case None => None
    case Some(o) => if o in table then Some(table[o]) else None
  }

  /** Merging a table with its own opponent profile: a row gets a profile exactly when
      its opponent is present, and that profile averages the whole group, not only the
      last five matches. */
  lemma MergedProfileOfRow(rows: seq<Tagged>, i: nat)
    requires i < |rows|
    ensures LookupProfile(ProfileTable(rows), rows[i].opponent).None? <==> rows[i].opponent.None?
    ensures rows[i].opponent.Some? ==>
      var o := rows[i].opponent.value;
      |FacedBy(rows, o)| > 0 &&
      LookupProfile(ProfileTable(rows), rows[i].opponent) == Some(Profile(MeanAgainst(rows, o, Runs), MeanAgainst(rows, o, Wickets)))
  {
  }
}
