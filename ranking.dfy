/**
 * Ranking of birthdays by a per-day series.
 *
 * The page sorts a copy of the 366-value series, takes the first five sorted
 * values and maps each back to a day of the original series. For a run of
 * equal sorted values it searches on from just after the day it found last,
 * so that no day is listed twice.
 */
module Ranking {
  import opened Calendar
  import opened Players
  import opened Aggregation

  /** How many days the page lists at the top and at the bottom. */
  const RankCount := 5

  /** `a` may come before `b`: not smaller for a descending sort, not larger for an ascending one. */
  predicate InOrder(a: real, b: real, descending: bool) {
    if descending then a >= b else a <= b
  }

  predicate Ordered(s: seq<real>, descending: bool) {
    forall i, j :: 0 <= i < j < |s| ==> InOrder(s[i], s[j], descending)
  }

  function Insert(x: real, s: seq<real>, descending: bool): (r: seq<real>)
    requires Ordered(s, descending)
    ensures multiset(r) == multiset(s) + multiset{x}
    ensures Ordered(r, descending)
  {
    if s == [] || InOrder(x, s[0], descending) then
      [x] + s
    else
      var rest := Insert(x, s[1..], descending);
      InsertHeadFirst(x, s, rest, descending);
      [s[0]] + rest
  }

  /** The head of a sorted list still comes first once x, which it precedes, is inserted behind it. */
  lemma InsertHeadFirst(x: real, s: seq<real>, rest: seq<real>, descending: bool)
    requires s != [] && Ordered(s, descending) && !InOrder(x, s[0], descending)
    requires multiset(rest) == multiset(s[1..]) + multiset{x} && Ordered(rest, descending)
    ensures multiset([s[0]] + rest) == multiset(s) + multiset{x}
    ensures Ordered([s[0]] + rest, descending)
  {
    assert s == [s[0]] + s[1..];
    forall k | 0 <= k < |rest| ensures InOrder(s[0], rest[k], descending) {
      assert rest[k] in multiset(rest);
      if rest[k] != x {
        assert rest[k] in multiset(s[1..]);
        var j :| 0 <= j < |s[1..]| && s[1..][j] == rest[k];
        assert s[j + 1] == rest[k];
      }
    }
  }

  /** Python's sorted(series), or sorted(series, reverse=True) when descending. */
  function SortedBy(s: seq<real>, descending: bool): (r: seq<real>)
    ensures multiset(r) == multiset(s) && |r| == |s|
    ensures Ordered(r, descending)
  {
    if s == [] then []
    else
      assert s == [s[0]] + s[1..];
      Insert(s[0], SortedBy(s[1..], descending), descending)
  }

  /** No position in [lo, hi) of s holds x. */
  predicate Absent(s: seq<real>, x: real, lo: int, hi: int) {
    forall j :: lo <= j < hi && 0 <= j < |s| ==> s[j] != x
  }

  /**
   * list.index(x, start): the first position at or after `start` holding x,
   * or -1 where Python raises ValueError because there is none.
   */
  function IndexFrom(s: seq<real>, x: real, start: nat): (k: int)
    ensures k == -1 || (start <= k < |s| && s[k] == x)
    ensures k == -1 ==> Absent(s, x, start, |s|)
    ensures k != -1 ==> Absent(s, x, start, k)
    decreases |s| - start
  {
    if start >= |s| then -1
    else if s[start] == x then start
    else IndexFrom(s, x, start + 1)
  }

  /** The first sorted value is an extreme of the whole series. */
  lemma FirstIsExtreme(s: seq<real>, descending: bool, k: int)
    requires 0 <= k < |s|
    ensures InOrder(SortedBy(s, descending)[0], s[k], descending)
  {
    var r := SortedBy(s, descending);
    assert s[k] in multiset(r);
    var j :| 0 <= j < |r| && r[j] == s[k];
    assert j == 0 || InOrder(r[0], r[j], descending);
  }

  /** Number of copies of v among the first n values of s. */
  function Occ(s: seq<real>, v: real, n: int): (c: nat)
    requires 0 <= n <= |s|
    ensures c <= n
  {
    if n == 0 then 0 else Occ(s, v, n - 1) + (if s[n - 1] == v then 1 else 0)
  }

  /** Counting over a stretch that holds no copy of v adds nothing. */
  lemma {:induction false} OccAcrossAbsent(s: seq<real>, v: real, from: int, k: int)
    requires 0 <= from <= k <= |s| && Absent(s, v, from, k)
    ensures Occ(s, v, k) == Occ(s, v, from)
    decreases k - from
  {
    if k > from {
      OccAcrossAbsent(s, v, from, k - 1);
    }
  }

  /** Counting further never counts fewer. */
  lemma {:induction false} OccGrows(s: seq<real>, v: real, a: int, b: int)
    requires 0 <= a <= b <= |s|
    ensures Occ(s, v, a) <= Occ(s, v, b)
    decreases b - a
  {
    if b > a {
      OccGrows(s, v, a, b - 1);
    }
  }

  /** Counting the whole sequence gives its multiplicity. */
  lemma {:induction false} OccIsMultiplicity(s: seq<real>, v: real)
    ensures Occ(s, v, |s|) == multiset(s)[v]
  {
    if s != [] {
      var init := s[..|s| - 1];
      assert s == init + [s[|s| - 1]];
      OccIsMultiplicity(init, v);
      OccOfPrefix(s, init, v, |init|);
    }
  }

  /** Counting only looks at the counted prefix. */
  lemma {:induction false} OccOfPrefix(s: seq<real>, t: seq<real>, v: real, n: int)
    requires 0 <= n <= |t| <= |s| && t == s[..|t|]
    ensures Occ(s, v, n) == Occ(t, v, n)
  {
    if n > 0 {
      OccOfPrefix(s, t, v, n - 1);
    }
  }

  /**
   * One pass of the loop: `next` is the position the page finds for sorted
   * value number |prev|, given the positions `prev` found before it. A value
   * equal to the previous one is the next copy after the previous position;
   * any other value is its first occurrence. Either way the series up to
   * `next` holds as many copies of the value as the sorted prefix does.
   */
  ghost predicate StepFinds(series: seq<real>, sorted: seq<real>, prev: seq<int>, next: int)
    requires |prev| < |sorted|
  {
    var i := |prev|;
    && 0 <= next < |series| && series[next] == sorted[i]
    && (if i > 0 && sorted[i] == sorted[i - 1] then
          prev[i - 1] < next && Absent(series, sorted[i], prev[i - 1] + 1, next)
        else
          Absent(series, sorted[i], 0, next))
    && Occ(series, sorted[i], next + 1) == Occ(sorted, sorted[i], i + 1)
  }

  /** Every position of idxs is the one its pass of the loop finds. */
  ghost predicate Resolved(series: seq<real>, sorted: seq<real>, idxs: seq<int>)
    decreases |idxs|
  {
    && |idxs| <= |sorted|
    && (idxs != [] ==>
         && Resolved(series, sorted, idxs[..|idxs| - 1])
         && StepFinds(series, sorted, idxs[..|idxs| - 1], idxs[|idxs| - 1]))
  }

  /**
   * One pass of the loop finds what it should: the value is present where the
   * page searches for it, and the position found extends the resolution.
   */
  lemma ResolveStep(series: seq<real>, sorted: seq<real>, descending: bool, idxs: seq<int>, next: int)
    requires Ordered(sorted, descending) && multiset(sorted) == multiset(series)
    requires Resolved(series, sorted, idxs) && |idxs| < |sorted|
    requires next == if |idxs| > 0 && sorted[|idxs|] == sorted[|idxs| - 1] then
      IndexFrom(series, sorted[|idxs|], idxs[|idxs| - 1] + 1)
    else
      IndexFrom(series, sorted[|idxs|], 0)
    ensures Resolved(series, sorted, idxs + [next])
  {
    var i := |idxs|;
    var v := sorted[i];
    OccIsMultiplicity(sorted, v);
    OccIsMultiplicity(series, v);
    OccGrows(sorted, v, i + 1, |sorted|);
    if i > 0 && v == sorted[i - 1] {
      RepeatFinds(series, sorted, idxs, next);
    } else {
      FreshFinds(series, sorted, descending, idxs, next);
    }
    Extend(series, sorted, idxs, next);
  }

  /** A value equal to the previous one: its next copy lies after the previous position. */
  lemma RepeatFinds(series: seq<real>, sorted: seq<real>, idxs: seq<int>, next: int)
    requires 0 < |idxs| < |sorted| && sorted[|idxs|] == sorted[|idxs| - 1]
    requires StepFinds(series, sorted, idxs[..|idxs| - 1], idxs[|idxs| - 1])
    requires Occ(sorted, sorted[|idxs|], |idxs| + 1) <= Occ(series, sorted[|idxs|], |series|)
    requires next == IndexFrom(series, sorted[|idxs|], idxs[|idxs| - 1] + 1)
    ensures StepFinds(series, sorted, idxs, next)
  {
    var v := sorted[|idxs|];
    var prev := idxs[|idxs| - 1];
    if next == -1 {
      OccAcrossAbsent(series, v, prev + 1, |series|);
      assert false;
    }
    OccAcrossAbsent(series, v, prev + 1, next);
  }

  /** A value different from the previous one: its first copy in the series. */
  lemma FreshFinds(series: seq<real>, sorted: seq<real>, descending: bool, idxs: seq<int>, next: int)
    requires Ordered(sorted, descending) && |idxs| < |sorted|
    requires |idxs| == 0 || sorted[|idxs|] != sorted[|idxs| - 1]
    requires Occ(sorted, sorted[|idxs|], |idxs| + 1) <= Occ(series, sorted[|idxs|], |series|)
    requires next == IndexFrom(series, sorted[|idxs|], 0)
    ensures StepFinds(series, sorted, idxs, next)
  {
    var i := |idxs|;
    var v := sorted[i];
    if next == -1 {
      OccAcrossAbsent(series, v, 0, |series|);
      assert false;
    }
    OccAcrossAbsent(series, v, 0, next);
    forall p | 0 <= p < i ensures sorted[p] != v {
      if p < i - 1 {
        assert InOrder(sorted[p], sorted[i - 1], descending);
      }
      assert InOrder(sorted[i - 1], v, descending);
    }
    OccAcrossAbsent(sorted, v, 0, i);
  }

  /** A resolved list extended by the position its next pass finds is resolved. */
  lemma Extend(series: seq<real>, sorted: seq<real>, idxs: seq<int>, next: int)
    requires Resolved(series, sorted, idxs) && |idxs| < |sorted|
    requires StepFinds(series, sorted, idxs, next)
    ensures Resolved(series, sorted, idxs + [next])
  {
    var r := idxs + [next];
    assert r[..|idxs|] == idxs;
    assert r[|idxs|] == next;
  }

  /** Each position of a resolved list is the one its own pass found. */
  lemma {:induction false} ResolvedAt(series: seq<real>, sorted: seq<real>, idxs: seq<int>, k: int)
    requires Resolved(series, sorted, idxs) && 0 <= k < |idxs|
    ensures StepFinds(series, sorted, idxs[..k], idxs[k])
    decreases |idxs|
  {
    var n := |idxs|;
    if k < n - 1 {
      ResolvedAt(series, sorted, idxs[..n - 1], k);
      assert idxs[..n - 1][..k] == idxs[..k];
    }
  }

  /** Positions resolved for different sorted ranks are different; within a run of equal values they increase. */
  lemma {:induction false} ResolvedDistinct(series: seq<real>, sorted: seq<real>, descending: bool, idxs: seq<int>, p: int, q: int)
    requires Ordered(sorted, descending) && Resolved(series, sorted, idxs) && 0 <= p < q < |idxs|
    ensures idxs[p] != idxs[q]
    ensures sorted[p] == sorted[q] ==> idxs[p] < idxs[q]
  {
    ResolvedAt(series, sorted, idxs, p);
    ResolvedAt(series, sorted, idxs, q);
    if sorted[p] != sorted[q] {
      assert series[idxs[p]] != series[idxs[q]];
    } else {
      assert InOrder(sorted[p], sorted[q - 1], descending) || p == q - 1;
      assert InOrder(sorted[q - 1], sorted[q], descending);
      assert sorted[q - 1] == sorted[q];
      assert idxs[..q][q - 1] == idxs[q - 1];
      if p < q - 1 {
        ResolvedDistinct(series, sorted, descending, idxs, p, q - 1);
      }
    }
  }

  /** What the pass that resolved position i says about it. */
  lemma ResolvedAtMeans(series: seq<real>, sorted: seq<real>, idxs: seq<int>, i: int)
    requires Resolved(series, sorted, idxs) && 0 <= i < |idxs|
    ensures 0 <= idxs[i] < |series| && series[idxs[i]] == sorted[i]
    ensures i > 0 && sorted[i] == sorted[i - 1] ==>
      idxs[i - 1] < idxs[i] && Absent(series, sorted[i], idxs[i - 1] + 1, idxs[i])
    ensures (i == 0 || sorted[i] != sorted[i - 1]) ==> Absent(series, sorted[i], 0, idxs[i])
  {
    ResolvedAt(series, sorted, idxs, i);
    if i > 0 {
      assert idxs[..i][i - 1] == idxs[i - 1];
    }
  }

  /** What a complete resolution of RankCount values says about the positions. */
  lemma ResolvedMeans(series: seq<real>, descending: bool, idxs: seq<int>)
    requires Resolved(series, SortedBy(series, descending), idxs) && |idxs| == RankCount
    ensures forall i :: 0 <= i < RankCount ==>
      0 <= idxs[i] < |series| && series[idxs[i]] == SortedBy(series, descending)[i]
    ensures forall i, j :: 0 <= i < j < RankCount ==> idxs[i] != idxs[j]
    ensures forall i :: 0 < i < RankCount && SortedBy(series, descending)[i] == SortedBy(series, descending)[i - 1] ==>
      idxs[i - 1] < idxs[i] && Absent(series, SortedBy(series, descending)[i], idxs[i - 1] + 1, idxs[i])
    ensures Absent(series, SortedBy(series, descending)[0], 0, idxs[0])
    ensures forall i :: 0 < i < RankCount && SortedBy(series, descending)[i] != SortedBy(series, descending)[i - 1] ==>
      Absent(series, SortedBy(series, descending)[i], 0, idxs[i])
  {
    var sorted := SortedBy(series, descending);
    forall i | 0 <= i < RankCount
      ensures 0 <= idxs[i] < |series| && series[idxs[i]] == sorted[i]
      ensures i > 0 && sorted[i] == sorted[i - 1] ==>
        idxs[i - 1] < idxs[i] && Absent(series, sorted[i], idxs[i - 1] + 1, idxs[i])
      ensures (i == 0 || sorted[i] != sorted[i - 1]) ==> Absent(series, sorted[i], 0, idxs[i])
    {
      ResolvedAtMeans(series, sorted, idxs, i);
    }
    ResolvedAtMeans(series, sorted, idxs, 0);
    forall p, q | 0 <= p < q < RankCount ensures idxs[p] != idxs[q] {
      ResolvedDistinct(series, sorted, descending, idxs, p, q);
    }
  }

  /**
   * The loop that resolves the first five sorted values to days of the
   * original series (idx starts at -1; a value equal to the previous one is
   * searched from idx + 1, any other value from the start).
   */
  method ResolveRanked(series: seq<real>, descending: bool) returns (idxs: seq<int>)
    requires |series| >= RankCount
    ensures |idxs| == RankCount
    ensures forall i :: 0 <= i < RankCount ==>
      0 <= idxs[i] < |series| && series[idxs[i]] == SortedBy(series, descending)[i]
    ensures forall i, j :: 0 <= i < j < RankCount ==> idxs[i] != idxs[j]
    ensures forall i :: 0 < i < RankCount && SortedBy(series, descending)[i] == SortedBy(series, descending)[i - 1] ==>
      idxs[i - 1] < idxs[i] && Absent(series, SortedBy(series, descending)[i], idxs[i - 1] + 1, idxs[i])
    ensures Absent(series, SortedBy(series, descending)[0], 0, idxs[0])
    ensures forall i :: 0 < i < RankCount && SortedBy(series, descending)[i] != SortedBy(series, descending)[i - 1] ==>
      Absent(series, SortedBy(series, descending)[i], 0, idxs[i])
  {
    var sorted := SortedBy(series, descending);
    idxs := [];
    var idx: int := -1;
    var i := 0;
    while i < RankCount
      invariant 0 <= i <= RankCount && |idxs| == i
      invariant i > 0 ==> idx == idxs[i - 1]
      invariant Resolved(series, sorted, idxs)
    {
      var v := sorted[i];
      if i > 0 && v == sorted[i - 1] {
        idx := IndexFrom(series, v, idx + 1);
      } else {
        idx := IndexFrom(series, v, 0);
      }
      ResolveStep(series, sorted, descending, idxs, idx);
      idxs := idxs + [idx];
      i := i + 1;
    }
    ResolvedMeans(series, descending, idxs);
  }

  /**
   * Whether a low average ranks a day as better: the page swaps the two
   * orders for the ERA and WHIP averages.
   */
  predicate LowerIsBetter(stat: Stat, isAvg: bool) {
    isAvg && (stat == Of(Era) || stat == Of(Whip))
  }

  /** Maps resolved series positions to calendar slots with get_month_and_day. */
  method ToDays(idxs: seq<int>) returns (days: seq<MonthDay>)
    requires forall i :: 0 <= i < |idxs| ==> 0 <= idxs[i] < 366
    ensures |days| == |idxs|
    ensures forall i :: 0 <= i < |idxs| ==>
      IsSlot(days[i].month, days[i].day) && DayIndex(days[i].month, days[i].day) == idxs[i]
  {
    days := [];
    for i := 0 to |idxs|
      invariant |days| == i
      invariant forall p :: 0 <= p < i ==>
        IsSlot(days[p].month, days[p].day) && DayIndex(days[p].month, days[p].day) == idxs[p]
    {
      var md := GetMonthAndDay(idxs[i]);
      days := days + [md.value];
    }
  }

  /**
   * One listing of the page: the days of the first five sorted values, each
   * found by the resolving loop and turned into a calendar slot. The days are
   * distinct, and the first holds an extreme value of the whole series.
   */
  method RankedDays(series: seq<real>, descending: bool) returns (days: seq<MonthDay>)
    requires |series| == 366
    ensures |days| == RankCount
    ensures forall i :: 0 <= i < RankCount ==>
      IsSlot(days[i].month, days[i].day) && series[DayIndex(days[i].month, days[i].day)] == SortedBy(series, descending)[i]
    ensures forall i, j :: 0 <= i < j < RankCount ==> days[i] != days[j]
    ensures forall k :: 0 <= k < |series| ==>
      InOrder(series[DayIndex(days[0].month, days[0].day)], series[k], descending)
  {
    var idxs := ResolveRanked(series, descending);
    days := ToDays(idxs);
    forall k | 0 <= k < |series|
      ensures InOrder(SortedBy(series, descending)[0], series[k], descending)
    {
      FirstIsExtreme(series, descending, k);
    }
  }

  /**
   * The five best and the five worst birthdays of a 366-day series: highest
   * values first, except for the ERA and WHIP averages, where lowest come
   * first. The best day holds an extreme value of the whole series in the
   * right direction, and the worst day one in the other; no day is listed
   * twice in either list.
   */
  method TopAndBottomDays(series: seq<real>, stat: Stat, isAvg: bool)
    returns (best: seq<MonthDay>, worst: seq<MonthDay>)
    requires |series| == 366
    ensures |best| == RankCount && |worst| == RankCount
    ensures forall i :: 0 <= i < RankCount ==>
      IsSlot(best[i].month, best[i].day)
      && series[DayIndex(best[i].month, best[i].day)] == SortedBy(series, !LowerIsBetter(stat, isAvg))[i]
    ensures forall i :: 0 <= i < RankCount ==>
      IsSlot(worst[i].month, worst[i].day)
      && series[DayIndex(worst[i].month, worst[i].day)] == SortedBy(series, LowerIsBetter(stat, isAvg))[i]
    ensures forall k :: 0 <= k < |series| ==>
      && InOrder(series[DayIndex(best[0].month, best[0].day)], series[k], !LowerIsBetter(stat, isAvg))
      && InOrder(series[DayIndex(worst[0].month, worst[0].day)], series[k], LowerIsBetter(stat, isAvg))
    ensures forall i, j :: 0 <= i < j < RankCount ==> best[i] != best[j] && worst[i] != worst[j]
  {
    var lower := LowerIsBetter(stat, isAvg);
    best := RankedDays(series, !lower);
    worst := RankedDays(series, lower);
  }
}
