/**
 * The latency summary of one category (newStat in statcollector.go):
 * count, the first minimal and first maximal transition, the truncated
 * mean and the upper-middle median of the durations.
 */
module Stat {
  import opened Transitions

  datatype Stat = Stat(
    durationMin: nat,
    durationMax: nat,
    durationMedian: nat,
    durationMean: nat,
    minT: Transition,
    maxT: Transition,
    count: nat)

  /** The zero `transition{}`, whose `from` is the rune 0. */
  const ZeroTransition: Transition := Transition('\0', '\0', '\0', 0, false)

  /** The zero `stat{}` that newStat returns for an empty category. */
  const ZeroStat: Stat := Stat(0, 0, 0, 0, ZeroTransition, ZeroTransition, 0)

  function Durations(ts: seq<Transition>): (ds: seq<nat>)
    ensures |ds| == |ts| && forall i :: 0 <= i < |ts| ==> ds[i] == ts[i].duration
  {
    seq(|ts|, i requires 0 <= i < |ts| => ts[i].duration)
  }

  /** The index of the first transition of least duration: the element slices.MinFunc returns. */
  function FirstMinimum(ts: seq<Transition>): (k: nat)
    requires |ts| > 0
    ensures k < |ts|
    ensures forall j :: 0 <= j < |ts| ==> ts[k].duration <= ts[j].duration
    ensures forall j :: 0 <= j < k ==> ts[j].duration > ts[k].duration
  {
    if |ts| == 1 then 0
    else
      var k := FirstMinimum(ts[..|ts| - 1]);
      if ts[|ts| - 1].duration < ts[k].duration then |ts| - 1 else k
  }

  /** The index of the first transition of greatest duration: the element slices.MaxFunc returns. */
  function FirstMaximum(ts: seq<Transition>): (k: nat)
    requires |ts| > 0
    ensures k < |ts|
    ensures forall j :: 0 <= j < |ts| ==> ts[k].duration >= ts[j].duration
    ensures forall j :: 0 <= j < k ==> ts[j].duration < ts[k].duration
  {
    if |ts| == 1 then 0
    else
      var k := FirstMaximum(ts[..|ts| - 1]);
      if ts[|ts| - 1].duration > ts[k].duration then |ts| - 1 else k
  }

  /** The sum of the durations. */
  function SumDurations(ts: seq<Transition>): nat {
    if ts == [] then 0 else SumDurations(ts[..|ts| - 1]) + ts[|ts| - 1].duration
  }

  predicate SortedAscending(s: seq<nat>) {
    forall i, j :: 0 <= i < j < |s| ==> s[i] <= s[j]
  }

  /** `s` with `x` inserted before its first element not smaller than `x`. */
  function Insert(x: nat, s: seq<nat>): (r: seq<nat>)
    ensures |r| == |s| + 1
  {
    if s == [] || x <= s[0] then [x] + s else [s[0]] + Insert(x, s[1..])
  }

  /** Inserting into an ascending sequence keeps it ascending; the new head is `x` or the old head. */
  lemma {:induction false} InsertSorted(x: nat, s: seq<nat>)
    requires SortedAscending(s)
    ensures SortedAscending(Insert(x, s))
    ensures Insert(x, s)[0] == x || (s != [] && Insert(x, s)[0] == s[0])
  {
    if s != [] && x > s[0] {
      InsertSorted(x, s[1..]);
      var rest := Insert(x, s[1..]);
      assert s[0] <= rest[0];
      assert forall j :: 0 <= j < |rest| ==> rest[0] <= rest[j];
    }
  }

  /** Inserting adds exactly one occurrence of `x`. */
  lemma {:induction false} InsertPermutes(x: nat, s: seq<nat>)
    ensures multiset(Insert(x, s)) == multiset(s) + multiset{x}
  {
    if s != [] && x > s[0] {
      InsertPermutes(x, s[1..]);
      assert s == [s[0]] + s[1..];
    }
  }

  /** The durations in ascending order: the reference for what the sort in newStat yields. */
  function SortAscending(s: seq<nat>): (r: seq<nat>)
    ensures |r| == |s|
    ensures SortedAscending(r)
    ensures multiset(r) == multiset(s)
  {
    if s == [] then []
    else
      var rest := SortAscending(s[1..]);
      InsertSorted(s[0], rest);
      InsertPermutes(s[0], rest);
      assert s == [s[0]] + s[1..];
      Insert(s[0], rest)
  }

  /** Two ascending orders of the same values are the same sequence. */
  lemma {:induction false} SortedUnique(a: seq<nat>, b: seq<nat>)
    requires SortedAscending(a) && SortedAscending(b)
    requires multiset(a) == multiset(b)
    ensures a == b
  {
    if a == [] {
      assert |multiset(b)| == 0;
    } else {
      SortedHeadsAgree(a, b);
      TailMultiset(a);
      TailMultiset(b);
      SortedUnique(a[1..], b[1..]);
      assert a == [a[0]] + a[1..] && b == [b[0]] + b[1..];
    }
  }

  /** Two ascending orderings of one non-empty multiset start alike. */
  lemma SortedHeadsAgree(a: seq<nat>, b: seq<nat>)
    requires SortedAscending(a) && SortedAscending(b)
    requires multiset(a) == multiset(b) && a != []
    ensures b != [] && a[0] == b[0]
  {
    assert |multiset(b)| == |multiset(a)| > 0;
    assert a[0] in multiset(b) && b[0] in multiset(a);
  }

  /** Dropping the head removes one copy of it, and the tail stays ascending. */
  lemma TailMultiset(a: seq<nat>)
    requires SortedAscending(a) && a != []
    ensures multiset(a[1..]) == multiset(a) - multiset{a[0]}
    ensures SortedAscending(a[1..])
  {
    assert a == [a[0]] + a[1..];
  }

  /** The mean of newStat: the sum over the count, truncated to a whole duration. */
  function Mean(sum: nat, count: nat): nat
    requires count > 0
  {
    sum / count
  }

  /** The summary of a category, as newStat computes it. */
  function StatOf(ts: seq<Transition>): Stat {
    if |ts| == 0 then ZeroStat
    else
      var lo := FirstMinimum(ts);
      var hi := FirstMaximum(ts);
      Stat(
        ts[lo].duration, ts[hi].duration,
        SortAscending(Durations(ts))[|ts| / 2],
        Mean(SumDurations(ts), |ts|),
        ts[lo], ts[hi],
        |ts|)
  }

  /** Every duration lies between a lower and an upper bound, so the sum lies between n times each. */
  lemma {:induction false} SumBounds(ts: seq<Transition>, lo: nat, hi: nat)
    requires forall i :: 0 <= i < |ts| ==> lo <= ts[i].duration <= hi
    ensures |ts| * lo <= SumDurations(ts) <= |ts| * hi
  {
    if ts != [] {
      var n := |ts| - 1;
      SumBounds(ts[..n], lo, hi);
      assert (n + 1) * lo == n * lo + lo && (n + 1) * hi == n * hi + hi;
    }
  }

  lemma MulMonotone(n: nat, a: nat, b: nat)
    requires a <= b
    ensures n * a <= n * b
  {}

  /** Truncated division of a sum between n * lo and n * hi gives a value between lo and hi. */
  lemma DivisionBounds(s: nat, n: nat, lo: nat, hi: nat)
    requires n > 0 && n * lo <= s <= n * hi
    ensures lo <= s / n <= hi
  {
    QuotientAtLeast(s, n, lo);
    QuotientAtMost(s, n, hi);
  }

  lemma QuotientAtLeast(s: nat, n: nat, lo: nat)
    requires n > 0 && n * lo <= s
    ensures lo <= s / n
  {
    var q := s / n;
    assert s < n * q + n;
    if q < lo {
      MulMonotone(n, q + 1, lo);
    }
  }

  lemma QuotientAtMost(s: nat, n: nat, hi: nat)
    requires n > 0 && s <= n * hi
    ensures s / n <= hi
  {
    var q := s / n;
    assert n * q <= s;
    if q > hi {
      MulMonotone(n, hi + 1, q);
    }
  }

  /**
   * The shape of a summary: the empty list gives the zero stat; otherwise
   * count is the length, the minimum and maximum are the durations of their
   * exemplars, and the median and the mean lie between them.
   */
  lemma StatOrder(ts: seq<Transition>)
    ensures |ts| == 0 ==> StatOf(ts) == ZeroStat
    ensures |ts| > 0 ==>
      var st := StatOf(ts);
      && st.count == |ts|
      && st.minT in ts && st.maxT in ts
      && st.durationMin == st.minT.duration && st.durationMax == st.maxT.duration
      && st.durationMin <= st.durationMedian <= st.durationMax
      && st.durationMin <= st.durationMean <= st.durationMax
  {
    if |ts| > 0 {
      var st := StatOf(ts);
      var ds := Durations(ts);
      var sorted := SortAscending(ds);
      assert sorted[|ts| / 2] in multiset(ds);
      var j :| 0 <= j < |ds| && ds[j] == sorted[|ts| / 2];
      SumBounds(ts, st.durationMin, st.durationMax);
      DivisionBounds(SumDurations(ts), |ts|, st.durationMin, st.durationMax);
    }
  }

  /** The exemplar of the minimum is the first transition, in log order, of least duration. */
  lemma MinimumIsFirst(ts: seq<Transition>)
    requires |ts| > 0
    ensures exists k ::
      && 0 <= k < |ts| && ts[k] == StatOf(ts).minT
      && (forall j :: 0 <= j < |ts| ==> StatOf(ts).durationMin <= ts[j].duration)
      && (forall j :: 0 <= j < k ==> StatOf(ts).durationMin < ts[j].duration)
  {
    var k := FirstMinimum(ts);
    assert ts[k] == StatOf(ts).minT;
  }

  /** The exemplar of the maximum is the first transition, in log order, of greatest duration. */
  lemma MaximumIsFirst(ts: seq<Transition>)
    requires |ts| > 0
    ensures exists k ::
      && 0 <= k < |ts| && ts[k] == StatOf(ts).maxT
      && (forall j :: 0 <= j < |ts| ==> StatOf(ts).durationMax >= ts[j].duration)
      && (forall j :: 0 <= j < k ==> StatOf(ts).durationMax > ts[j].duration)
  {
    var k := FirstMaximum(ts);
    assert ts[k] == StatOf(ts).maxT;
  }

  /** When the durations are already in ascending order, the median is the duration at index n / 2. */
  lemma MedianOfSorted(ts: seq<Transition>)
    requires |ts| > 0
    requires SortedAscending(Durations(ts))
    ensures StatOf(ts).durationMedian == ts[|ts| / 2].duration
  {
    SortedUnique(SortAscending(Durations(ts)), Durations(ts));
  }

  /** The median depends only on the multiset of durations, not on their order in the log. */
  lemma MedianIgnoresOrder(ts: seq<Transition>, us: seq<Transition>)
    requires |ts| > 0
    requires multiset(Durations(ts)) == multiset(Durations(us))
    ensures StatOf(ts).durationMedian == StatOf(us).durationMedian
  {
    assert |Durations(us)| == |Durations(ts)|;
    SortedUnique(SortAscending(Durations(ts)), SortAscending(Durations(us)));
  }

  /** Four transitions of durations 10, 20, 30, 40 have median 30 (the upper middle) and mean 25. */
  lemma MedianIsUpperMiddle(ts: seq<Transition>)
    requires |ts| == 4
    requires ts[0].duration == 10 && ts[1].duration == 20 && ts[2].duration == 30 && ts[3].duration == 40
    ensures StatOf(ts).durationMedian == 30
    ensures StatOf(ts).durationMean == 25
  {
    MedianOfSorted(ts);
    assert SumDurations(ts[..1]) == 10 by { assert ts[..1][..0] == []; }
    assert ts[..2][..1] == ts[..1] && ts[..3][..2] == ts[..2] && ts[..4][..3] == ts[..3] && ts[..4] == ts;
    assert SumDurations(ts[..2]) == 30;
    assert SumDurations(ts[..3]) == 60;
  }

  /** Durations 1, 2, 2 have mean 1: five thirds, truncated. */
  lemma MeanTruncates(ts: seq<Transition>)
    requires |ts| == 3
    requires ts[0].duration == 1 && ts[1].duration == 2 && ts[2].duration == 2
    ensures StatOf(ts).durationMean == 1
  {
    assert SumDurations(ts[..1]) == 1 by { assert ts[..1][..0] == []; }
    assert ts[..2][..1] == ts[..1] && ts[..3][..2] == ts[..2] && ts[..3] == ts;
    assert SumDurations(ts[..2]) == 3;
  }

  /** slices.SortFunc by ascending duration, on the durations alone; an insertion sort in place. */
  method SortInPlace(a: array<nat>)
    modifies a
    ensures SortedAscending(a[..])
    ensures multiset(a[..]) == multiset(old(a[..]))
  {
    for i := 0 to a.Length
      invariant SortedPrefix(a[..], i)
      invariant multiset(a[..]) == multiset(old(a[..]))
    {
      var j := i;
      StartInsert(a[..], i);
      while j > 0 && a[j - 1] > a[j]
        invariant 0 <= j <= i
        invariant SortedExcept(a[..], i, j)
        invariant multiset(a[..]) == multiset(old(a[..]))
      {
        ghost var before := a[..];
        a[j - 1], a[j] := a[j], a[j - 1];
        assert a[..] == before[j - 1 := before[j]][j := before[j - 1]];
        SwapDown(before, i, j);
        j := j - 1;
      }
      EndInsert(a[..], i, j);
    }
  }

  /** The first `i` elements are in ascending order. */
  predicate SortedPrefix(s: seq<nat>, i: nat)
    requires i <= |s|
  {
    forall k, l :: 0 <= k < l < i ==> s[k] <= s[l]
  }

  /**
   * While s[i] sinks to its place, now at position j: the first i + 1
   * elements are in order apart from the element at j, and everything
   * before j is at most everything after it.
   */
  predicate SortedExcept(s: seq<nat>, i: nat, j: nat)
    requires j <= i < |s|
  {
    && (forall k, l :: 0 <= k < l <= i && l != j ==> s[k] <= s[l])
    && (forall k, l :: 0 <= k < j < l <= i ==> s[k] <= s[l])
  }

  lemma StartInsert(s: seq<nat>, i: nat)
    requires i < |s| && SortedPrefix(s, i)
    ensures SortedExcept(s, i, i)
  {
  }

  lemma SwapDown(s: seq<nat>, i: nat, j: nat)
    requires 0 < j <= i < |s| && SortedExcept(s, i, j) && s[j - 1] > s[j]
    ensures SortedExcept(s[j - 1 := s[j]][j := s[j - 1]], i, j - 1)
    ensures multiset(s[j - 1 := s[j]][j := s[j - 1]]) == multiset(s)
  {
  }

  lemma EndInsert(s: seq<nat>, i: nat, j: nat)
    requires j <= i < |s| && SortedExcept(s, i, j)
    requires j == 0 || s[j - 1] <= s[j]
    ensures SortedPrefix(s, i + 1)
  {
  }

  /** slices.MinFunc by duration: the first element of least duration. */
  method MinFunc(ts: seq<Transition>) returns (lo: nat)
    requires |ts| > 0
    ensures lo == FirstMinimum(ts)
  {
    lo := 0;
    for i := 1 to |ts|
      invariant lo < i
      invariant forall j :: 0 <= j < i ==> ts[lo].duration <= ts[j].duration
      invariant forall j :: 0 <= j < lo ==> ts[j].duration > ts[lo].duration
    {
      if ts[i].duration < ts[lo].duration {
        lo := i;
      }
    }
  }

  /** slices.MaxFunc by duration: the first element of greatest duration. */
  method MaxFunc(ts: seq<Transition>) returns (hi: nat)
    requires |ts| > 0
    ensures hi == FirstMaximum(ts)
  {
    hi := 0;
    for i := 1 to |ts|
      invariant hi < i
      invariant forall j :: 0 <= j < i ==> ts[hi].duration >= ts[j].duration
      invariant forall j :: 0 <= j < hi ==> ts[j].duration < ts[hi].duration
    {
      if ts[i].duration > ts[hi].duration {
        hi := i;
      }
    }
  }

  /** The summing loop of newStat. */
  method Sum(ts: seq<Transition>) returns (sum: nat)
    ensures sum == SumDurations(ts)
  {
    sum := 0;
    for i := 0 to |ts|
      invariant sum == SumDurations(ts[..i])
    {
      assert ts[..i + 1][..i] == ts[..i];
      sum := sum + ts[i].duration;
    }
    assert ts[..|ts|] == ts;
  }

  /** The median step of newStat: sort the durations and take the one at index n / 2. */
  method Median(ts: seq<Transition>) returns (median: nat)
    requires |ts| > 0
    ensures median == SortAscending(Durations(ts))[|ts| / 2]
  {
    var a := new nat[|ts|](i requires 0 <= i < |ts| => ts[i].duration);
    assert a[..] == Durations(ts);
    SortInPlace(a);
    SortedUnique(a[..], SortAscending(Durations(ts)));
    median := a[|ts| / 2];
  }

  /** newStat: the summary of one category, computed with the scans and the sort of the source. */
  method NewStat(ts: seq<Transition>) returns (st: Stat)
    ensures st == StatOf(ts)
  {
    if |ts| == 0 {
      return ZeroStat;
    }
    var lo := MinFunc(ts);
    var hi := MaxFunc(ts);
    var sum := Sum(ts);
    var median := Median(ts);
    var mean := Mean(sum, |ts|);
    assert ts[lo] == StatOf(ts).minT && ts[hi] == StatOf(ts).maxT;
    assert median == StatOf(ts).durationMedian && mean == StatOf(ts).durationMean;
    st := Stat(ts[lo].duration, ts[hi].duration, median, mean, ts[lo], ts[hi], |ts|);
  }
}
