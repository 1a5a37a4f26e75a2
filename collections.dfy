/** Sequence utilities shared by the whole pipeline: optional values, first-occurrence
    de-duplication, sums and means of real columns, and a generic sort. */
module Collections {

  /** A cell or a lookup that may be absent (pandas NaN after a failed lookup). */
  datatype Option<T> = None | Some(value: T)

  /** No element occurs twice. */
  predicate NoDup<T(==)>(s: seq<T>) {
    forall i, j :: 0 <= i < j < |s| ==> s[i] != s[j]
  }

  /** Position of the first occurrence of x in s. */
  function FirstIndex<T(==)>(s: seq<T>, x: T): (k: nat)
    requires x in s
    ensures k < |s| && s[k] == x && x !in s[..k]
  {
    if s[0] == x then 0
    else
      var k := FirstIndex(s[1..], x);
      assert s[..k + 1] == [s[0]] + s[1..][..k];
      1 + k
  }

  /** The first occurrence is the only position holding x with no earlier x. */
  lemma FirstIndexUnique<T>(s: seq<T>, x: T, k: nat)
    requires k < |s| && s[k] == x && x !in s[..k]
    ensures FirstIndex(s, x) == k
  {
  }

  /** Appending elements after x does not move its first occurrence. */
  lemma FirstIndexOfPrefix<T>(a: seq<T>, b: seq<T>, x: T)
    requires x in a
    ensures x in a + b && FirstIndex(a + b, x) == FirstIndex(a, x)
  {
    var k := FirstIndex(a, x);
    assert (a + b)[..k] == a[..k];
    FirstIndexUnique(a + b, x, k);
  }

  /** The elements of s in order of first occurrence, each kept once: pandas
      drop_duplicates (keep="first") on rows and Series.unique on a column. */
  function Dedup<T(==,!new)>(s: seq<T>): (r: seq<T>)
    ensures NoDup(r)
    ensures forall x :: x in r <==> x in s
    ensures |r| <= |s|
    decreases |s|
  {
    if s == [] then []
    else
      var init := s[..|s| - 1];
      var last := s[|s| - 1];
      assert s == init + [last];
      var p := Dedup(init);
      if last in p then p else p + [last]
  }

  /** Dedup keeps elements in the order of their first occurrences in s. */
  lemma {:induction false} DedupKeepsFirstOccurrenceOrder<T(!new)>(s: seq<T>, i: nat, j: nat)
    requires i < j < |Dedup(s)|
    ensures FirstIndex(s, Dedup(s)[i]) < FirstIndex(s, Dedup(s)[j])
    decreases |s|
  {
    var init := s[..|s| - 1];
    var last := s[|s| - 1];
    assert s == init + [last];
    var p := Dedup(init);
    assert p[i] in init;
    FirstIndexOfPrefix(init, [last], p[i]);
    if j < |p| {
      assert p[j] in init;
      FirstIndexOfPrefix(init, [last], p[j]);
      DedupKeepsFirstOccurrenceOrder(init, i, j);
    } else {
      assert last !in init;
      assert s[..|s| - 1] == init;
      FirstIndexUnique(s, last, |s| - 1);
    }
  }

  /** A duplicate-free sequence has as many distinct elements as positions. */
  lemma {:induction false} NoDupCardinality<T>(s: seq<T>)
    requires NoDup(s)
    ensures |set x | x in s| == |s|
  {
    if s != [] {
      var t := s[1..];
      assert NoDup(t);
      NoDupCardinality(t);
      assert s == [s[0]] + t;
      assert (set x | x in s) == {s[0]} + (set x | x in t);
      assert s[0] !in t;
    }
  }

  lemma {:induction false} NoDupMultiplicity<T>(s: seq<T>, x: T)
    requires NoDup(s)
    ensures multiset(s)[x] <= 1
  {
    if s != [] {
      assert s == [s[0]] + s[1..];
      assert NoDup(s[1..]);
      NoDupMultiplicity(s[1..], x);
      assert s[0] !in s[1..];
    }
  }

  /** Reordering a duplicate-free sequence leaves it duplicate-free. */
  lemma NoDupOfPermutation<T>(a: seq<T>, b: seq<T>)
    requires NoDup(a) && multiset(a) == multiset(b)
    ensures NoDup(b)
  {
    forall i, j | 0 <= i < j < |b| ensures b[i] != b[j] {
      NoDupMultiplicity(a, b[j]);
      assert b == b[..j] + b[j..];
      assert b[i] in b[..j];
      assert b[j] in b[j..];
      assert multiset(b)[b[j]] == multiset(b[..j])[b[j]] + multiset(b[j..])[b[j]];
    }
  }

  /** Sum of a real column, folded from the left. */
  function Sum(xs: seq<real>): real
    decreases |xs|
  {
    if xs == [] then 0.0 else Sum(xs[..|xs| - 1]) + xs[|xs| - 1]
  }

  lemma {:induction false} SumConcat(a: seq<real>, b: seq<real>)
    ensures Sum(a + b) == Sum(a) + Sum(b)
    decreases |b|
  {
    if b != [] {
      var b' := b[..|b| - 1];
      assert (a + b)[..|a + b| - 1] == a + b';
      assert (a + b)[|a + b| - 1] == b[|b| - 1];
      SumConcat(a, b');
    } else {
      assert a + b == a;
    }
  }

  /** Arithmetic mean (pandas Series.mean on a non-empty column). */
  function Mean(xs: seq<real>): real
    requires |xs| > 0
  {
    Sum(xs) / (|xs| as real)
  }

  function MinOf(xs: seq<real>): (m: real)
    requires |xs| > 0
    ensures m in xs && forall k :: 0 <= k < |xs| ==> m <= xs[k]
    decreases |xs|
  {
    if |xs| == 1 then xs[0]
    else
      var m := MinOf(xs[1..]);
      assert xs == [xs[0]] + xs[1..];
      if xs[0] <= m then xs[0] else m
  }

  function MaxOf(xs: seq<real>): (m: real)
    requires |xs| > 0
    ensures m in xs && forall k :: 0 <= k < |xs| ==> xs[k] <= m
    decreases |xs|
  {
    if |xs| == 1 then xs[0]
    else
      var m := MaxOf(xs[1..]);
      assert xs == [xs[0]] + xs[1..];
      if m <= xs[0] then xs[0] else m
  }

  lemma {:induction false} SumAtLeast(xs: seq<real>, lo: real)
    requires forall k :: 0 <= k < |xs| ==> lo <= xs[k]
    ensures (|xs| as real) * lo <= Sum(xs)
    decreases |xs|
  {
    if xs != [] {
      var init := xs[..|xs| - 1];
      assert forall k :: 0 <= k < |init| ==> init[k] == xs[k];
      SumAtLeast(init, lo);
      assert (|xs| as real) * lo == (|init| as real) * lo + lo;
    }
  }

  lemma {:induction false} SumAtMost(xs: seq<real>, hi: real)
    requires forall k :: 0 <= k < |xs| ==> xs[k] <= hi
    ensures Sum(xs) <= (|xs| as real) * hi
    decreases |xs|
  {
    if xs != [] {
      var init := xs[..|xs| - 1];
      assert forall k :: 0 <= k < |init| ==> init[k] == xs[k];
      SumAtMost(init, hi);
      assert (|xs| as real) * hi == (|init| as real) * hi + hi;
    }
  }

  /** A mean is at least any lower bound of the values averaged. */
  lemma MeanAtLeast(xs: seq<real>, lo: real)
    requires |xs| > 0
    requires forall k :: 0 <= k < |xs| ==> lo <= xs[k]
    ensures lo <= Mean(xs)
  {
    SumAtLeast(xs, lo);
    var n, m := |xs| as real, Mean(xs);
    assert m * n == Sum(xs);
    assert (m - lo) * n >= 0.0;
  }

  /** A mean is at most any upper bound of the values averaged. */
  lemma MeanAtMost(xs: seq<real>, hi: real)
    requires |xs| > 0
    requires forall k :: 0 <= k < |xs| ==> xs[k] <= hi
    ensures Mean(xs) <= hi
  {
    SumAtMost(xs, hi);
    var n, m := |xs| as real, Mean(xs);
    assert m * n == Sum(xs);
    assert (hi - m) * n >= 0.0;
  }

  /** A mean lies between the smallest and the largest value averaged. */
  lemma MeanWithinMinMax(xs: seq<real>)
    requires |xs| > 0
    ensures MinOf(xs) <= Mean(xs) <= MaxOf(xs)
  {
    MeanAtLeast(xs, MinOf(xs));
    MeanAtMost(xs, MaxOf(xs));
  }

  /** The mean of a single value is that value. */
  lemma MeanOfSingleton(x: real)
    ensures Mean([x]) == x
  {
    assert [x][..0] == [];
    assert Sum([x]) == x;
  }

  /** le is a total preorder: every pair is comparable and le is transitive. */
  ghost predicate TotalPreorder<T(!new)>(le: (T, T) -> bool) {
    && (forall a, b :: le(a, b) || le(b, a))
    && (forall a, b, c :: le(a, b) && le(b, c) ==> le(a, c))
  }

  predicate SortedBy<T>(s: seq<T>, le: (T, T) -> bool) {
    forall i, j :: 0 <= i < j < |s| ==> le(s[i], s[j])
  }

  function InsertSorted<T(!new)>(x: T, s: seq<T>, le: (T, T) -> bool): (r: seq<T>)
    requires TotalPreorder(le) && SortedBy(s, le)
    ensures |r| == |s| + 1
    ensures multiset(r) == multiset(s) + multiset{x}
    ensures SortedBy(r, le)
    decreases |s|
  {
    if s == [] then [x]
    else if le(x, s[0]) then [x] + s
    else
      var t := InsertSorted(x, s[1..], le);
      assert s == [s[0]] + s[1..];
      HeadBelowInsert(x, s, t, le);
      [s[0]] + t
  }

  /** The head of a sorted sequence stays below everything once x, which is not below
      the head, joins the tail. */
  lemma HeadBelowInsert<T(!new)>(x: T, s: seq<T>, t: seq<T>, le: (T, T) -> bool)
    requires TotalPreorder(le) && SortedBy(s, le) && |s| > 0 && !le(x, s[0])
    requires multiset(t) == multiset(s[1..]) + multiset{x}
    ensures forall k :: 0 <= k < |t| ==> le(s[0], t[k])
  {
    forall k | 0 <= k < |t| ensures le(s[0], t[k]) {
      assert t[k] in multiset(t);
      if t[k] != x {
        assert t[k] in s[1..];
        var j :| 0 <= j < |s[1..]| && s[1..][j] == t[k];
        assert s[j + 1] == t[k];
      }
    }
  }

  /** A sorted permutation of s (insertion sort, stable: SortByKeepsLevel). */
  function SortBy<T(!new)>(s: seq<T>, le: (T, T) -> bool): (r: seq<T>)
    requires TotalPreorder(le)
    ensures |r| == |s|
    ensures multiset(r) == multiset(s)
    ensures SortedBy(r, le)
    decreases |s|
  {
    if s == [] then []
    else
      assert s == [s[0]] + s[1..];
      InsertSorted(s[0], SortBy(s[1..], le), le)
  }

  /** The number of elements of s that keep accepts, counted with multiplicity. */
  function CountWhere<T>(s: seq<T>, keep: T -> bool): nat
    decreases |s|
  {
    if s == [] then 0 else CountWhere(s[..|s| - 1], keep) + (if keep(s[|s| - 1]) then 1 else 0)
  }

  /** The sum of f over the elements of s that keep accepts, counted with multiplicity. */
  function SumWhere<T>(s: seq<T>, keep: T -> bool, f: T -> real): real
    decreases |s|
  {
    if s == [] then 0.0 else SumWhere(s[..|s| - 1], keep, f) + (if keep(s[|s| - 1]) then f(s[|s| - 1]) else 0.0)
  }

  /** The mean of f over the elements keep accepts; None (NaN) when it accepts none. */
  function MeanWhere<T>(s: seq<T>, keep: T -> bool, f: T -> real): Option<real> {
    if CountWhere(s, keep) == 0 then None else Some(SumWhere(s, keep, f) / (CountWhere(s, keep) as real))
  }

  /** The elements of s that keep accepts, in order (a boolean-mask row filter): each
      accepted value as often as it occurs in s, no other value. */
  function Filter<T(==,!new)>(s: seq<T>, keep: T -> bool): (r: seq<T>)
    ensures |r| == CountWhere(s, keep)
    ensures forall x :: multiset(r)[x] == if keep(x) then multiset(s)[x] else 0
    ensures forall k :: 0 <= k < |r| ==> keep(r[k])
    decreases |s|
  {
    if s == [] then []
    else
      var init := s[..|s| - 1];
      var last := s[|s| - 1];
      var p := Filter(init, keep);
      assert s == init + [last];
      FilterStep(init, last, p, keep);
      if keep(last) then p + [last] else p
  }

  lemma FilterStep<T(!new)>(init: seq<T>, last: T, p: seq<T>, keep: T -> bool)
    requires forall x :: multiset(p)[x] == if keep(x) then multiset(init)[x] else 0
    ensures keep(last) ==> forall x :: multiset(p + [last])[x] == if keep(x) then multiset(init + [last])[x] else 0
    ensures !keep(last) ==> forall x :: multiset(p)[x] == if keep(x) then multiset(init + [last])[x] else 0
  {
    assert multiset(init + [last]) == multiset(init) + multiset{last};
    assert multiset(p + [last]) == multiset(p) + multiset{last};
  }

  /** Membership in a filter: a kept element is an input element, every accepted input
      element is kept, and the filter is empty exactly when nothing is accepted. */
  lemma FilterMembers<T(!new)>(s: seq<T>, keep: T -> bool)
    ensures forall k :: 0 <= k < |Filter(s, keep)| ==> Filter(s, keep)[k] in s
    ensures forall i :: 0 <= i < |s| && keep(s[i]) ==> s[i] in Filter(s, keep)
    ensures |Filter(s, keep)| == 0 <==> forall i :: 0 <= i < |s| ==> !keep(s[i])
  {
    var r := Filter(s, keep);
    forall k | 0 <= k < |r| ensures r[k] in s {
      assert multiset(r)[r[k]] > 0;
    }
    forall i | 0 <= i < |s| && keep(s[i]) ensures s[i] in r {
      assert multiset(s)[s[i]] > 0;
    }
  }

  /** Filtering a concatenation filters each part, so the filter keeps input order. */
  lemma {:induction false} FilterConcat<T(!new)>(a: seq<T>, b: seq<T>, keep: T -> bool)
    ensures Filter(a + b, keep) == Filter(a, keep) + Filter(b, keep)
    decreases |b|
  {
    if b == [] {
      assert a + b == a;
    } else {
      var b' := b[..|b| - 1];
      assert (a + b)[..|a + b| - 1] == a + b';
      assert (a + b)[|a + b| - 1] == b[|b| - 1];
      FilterConcat(a, b', keep);
    }
  }

  /** Filters that accept the same elements give the same rows. */
  lemma {:induction false} FilterSameMask<T(!new)>(s: seq<T>, f: T -> bool, g: T -> bool)
    requires forall z :: f(z) == g(z)
    ensures Filter(s, f) == Filter(s, g)
    decreases |s|
  {
    if s != [] {
      FilterSameMask(s[..|s| - 1], f, g);
    }
  }

  /** The elements le ranks level with y: below it and above it. */
  function LevelWith<T>(le: (T, T) -> bool, y: T): T -> bool {
    z => le(y, z) && le(z, y)
  }

  lemma FilterSingleton<T(!new)>(z: T, keep: T -> bool)
    ensures Filter([z], keep) == if keep(z) then [z] else []
  {
    assert [z][..0] == [];
  }

  /** Inserting x places it after every element level with it that is already there, so
      each level of the result is x (when level) followed by that level of s. */
  lemma {:induction false} InsertSortedKeepsLevel<T(!new)>(x: T, s: seq<T>, le: (T, T) -> bool, y: T)
    requires TotalPreorder(le) && SortedBy(s, le)
    ensures Filter(InsertSorted(x, s, le), LevelWith(le, y)) == Filter([x], LevelWith(le, y)) + Filter(s, LevelWith(le, y))
    decreases |s|
  {
    var e := LevelWith(le, y);
    if s == [] {
      assert InsertSorted(x, s, le) == [x] + s;
    } else if le(x, s[0]) {
      FilterConcat([x], s, e);
    } else {
      var rest := s[1..];
      assert s == [s[0]] + rest;
      var t := InsertSorted(x, rest, le);
      assert InsertSorted(x, s, le) == [s[0]] + t;
      InsertSortedKeepsLevel(x, rest, le, y);
      FilterConcat([s[0]], t, e);
      FilterConcat([s[0]], rest, e);
      LevelSingletonsCommute(x, s[0], le, y);
      ConcatSwap(Filter([s[0]], e), Filter([x], e), Filter(rest, e));
    }
  }

  /** x and an element z that x is not below are never both level with y, so filtering
      them by that level gives the same rows in either order. */
  lemma LevelSingletonsCommute<T(!new)>(x: T, z: T, le: (T, T) -> bool, y: T)
    requires TotalPreorder(le) && !le(x, z)
    ensures Filter([z], LevelWith(le, y)) + Filter([x], LevelWith(le, y))
         == Filter([x], LevelWith(le, y)) + Filter([z], LevelWith(le, y))
  {
    var e := LevelWith(le, y);
    FilterSingleton(x, e);
    FilterSingleton(z, e);
    assert !(e(x) && e(z));
  }

  lemma ConcatSwap<T>(a: seq<T>, b: seq<T>, c: seq<T>)
    requires a + b == b + a
    ensures a + (b + c) == b + (a + c)
  {
    assert a + (b + c) == (a + b) + c;
    assert b + (a + c) == (b + a) + c;
  }

  /** SortBy is stable: the elements of each level keep their input order. */
  lemma {:induction false} SortByKeepsLevel<T(!new)>(s: seq<T>, le: (T, T) -> bool, y: T)
    requires TotalPreorder(le)
    ensures Filter(SortBy(s, le), LevelWith(le, y)) == Filter(s, LevelWith(le, y))
    decreases |s|
  {
    if s != [] {
      var rest := s[1..];
      assert s == [s[0]] + rest;
      assert SortBy(s, le) == InsertSorted(s[0], SortBy(rest, le), le);
      SortByKeepsLevel(rest, le, y);
      InsertSortedKeepsLevel(s[0], SortBy(rest, le), le, y);
      FilterConcat([s[0]], rest, LevelWith(le, y));
    }
  }

  /** A column of f's values, one per element, in order. */
  function Column<T>(s: seq<T>, f: T -> real): (vs: seq<real>)
    ensures |vs| == |s|
    ensures forall k :: 0 <= k < |s| ==> vs[k] == f(s[k])
  {
    seq(|s|, k requires 0 <= k < |s| => f(s[k]))
  }

  /** Summing a column of the filtered elements adds f over every accepted element. */
  lemma {:induction false} FilterColumnSum<T(!new)>(s: seq<T>, keep: T -> bool, f: T -> real)
    ensures Sum(Column(Filter(s, keep), f)) == SumWhere(s, keep, f)
    decreases |s|
  {
    if s != [] {
      var init, last := s[..|s| - 1], s[|s| - 1];
      var p := Filter(init, keep);
      FilterColumnSum(init, keep, f);
      if keep(last) {
        var c := Column(p, f);
        assert Column(p + [last], f) == c + [f(last)];
        assert (c + [f(last)])[..|c|] == c;
      }
    }
  }

  /** The mean of a filtered column is the mean over the accepted elements. */
  lemma FilterColumnMean<T(!new)>(s: seq<T>, keep: T -> bool, f: T -> real)
    ensures MeanWhere(s, keep, f) == if |Filter(s, keep)| == 0 then None else Some(Mean(Column(Filter(s, keep), f)))
  {
    FilterColumnSum(s, keep, f);
  }

  /** The first n elements, or all of them when there are fewer (pandas head(n) for n >= 0). */
  function Take<T>(s: seq<T>, n: nat): (r: seq<T>)
    ensures |r| == if n <= |s| then n else |s|
    ensures r == s[..|r|]
  {
    if n <= |s| then s[..n] else s
  }
}
