/** The ranking of stalls, and independence from the order events arrived in. */
module Ranking {
  import opened Collections
  import opened Schema
  import opened Trace
  import opened Causal
  import opened Nearest

  ghost predicate Sorted(s: seq<TraceEvent>) {
    forall i, j :: 0 <= i < j < |s| ==> s[j].duration <= s[i].duration
  }

  function DurationIs(d: u64): TraceEvent -> bool { (e: TraceEvent) => e.duration == d }

  /** Stalls of equal duration appear in the same order, each as often. */
  ghost predicate SameByDuration(s: seq<TraceEvent>, r: seq<TraceEvent>) {
    forall d: u64 :: Filter(s, DurationIs(d)) == Filter(r, DurationIs(d))
  }

  lemma {:induction false} InsertMembers(s: seq<TraceEvent>, e: TraceEvent)
    ensures forall x :: x in InsertByDuration(s, e) ==> x in s || x == e
    ensures multiset(InsertByDuration(s, e)) == multiset(s) + multiset{e}
  {
    if s != [] && Last(s).duration < e.duration {
      InsertMembers(Init(s), e);
      assert s == Init(s) + [Last(s)];
    }
  }

  lemma {:induction false} InsertSorted(s: seq<TraceEvent>, e: TraceEvent)
    requires Sorted(s)
    ensures Sorted(InsertByDuration(s, e))
  {
    if s != [] && Last(s).duration < e.duration {
      InsertSorted(Init(s), e);
      InsertMembers(Init(s), e);
      assert forall x :: x in InsertByDuration(Init(s), e) ==> x.duration >= Last(s).duration;
    }
  }

  lemma {:induction false} InsertStable(s: seq<TraceEvent>, e: TraceEvent, d: u64)
    requires Sorted(s)
    ensures Filter(InsertByDuration(s, e), DurationIs(d)) == Filter(s, DurationIs(d)) + if e.duration == d then [e] else []
  {
    if s == [] || Last(s).duration >= e.duration {
      FilterAppend(s, e, DurationIs(d));
    } else {
      InsertStable(Init(s), e, d);
      FilterAppend(InsertByDuration(Init(s), e), Last(s), DurationIs(d));
    }
  }

  /** The ranking is a stable descending sort: a permutation, sorted, with ties in arrival order. */
  lemma {:induction false} SortFacts(s: seq<TraceEvent>)
    ensures Sorted(SortByDuration(s)) && multiset(SortByDuration(s)) == multiset(s)
    ensures SameByDuration(SortByDuration(s), s)
  {
    if s != [] {
      var init, last := Init(s), Last(s);
      SortFacts(init);
      assert s == init + [last];
      forall d: u64 ensures Filter(SortByDuration(s), DurationIs(d)) == Filter(s, DurationIs(d)) {
        InsertStable(SortByDuration(init), last, d);
      }
      InsertMembers(SortByDuration(init), last);
      InsertSorted(SortByDuration(init), last);
    }
  }

  lemma SameEnd(a: seq<TraceEvent>, b: seq<TraceEvent>)
    requires SameByDuration(a, b) && a != [] && b != [] && Last(a).duration == Last(b).duration
    ensures Last(a) == Last(b) && SameByDuration(Init(a), Init(b))
  {
    var end := DurationIs(Last(a).duration);
    assert Filter(a, end) == Filter(b, end);
    assert Last(Filter(a, end)) == Last(a) && Last(Filter(b, end)) == Last(b);
    forall d: u64 ensures Filter(Init(a), DurationIs(d)) == Filter(Init(b), DurationIs(d)) {
      assert Filter(a, DurationIs(d)) == Filter(b, DurationIs(d));
      if Last(a).duration == d {
        assert Filter(Init(a), end) == Init(Filter(a, end));
        assert Filter(Init(b), end) == Init(Filter(b, end));
      }
    }
  }

  /** And it is the only one: anything sorted with ties in arrival order is the ranking. */
  lemma {:induction false} SortUnique(a: seq<TraceEvent>, b: seq<TraceEvent>)
    requires Sorted(a) && Sorted(b) && SameByDuration(a, b)
    ensures a == b
  {
    EmptyByDuration(a, b);
    if a != [] {
      LastByDuration(a, b);
      LastByDuration(b, a);
      SameEnd(a, b);
      SortUnique(Init(a), Init(b));
      assert a == Init(a) + [Last(a)] && b == Init(b) + [Last(b)];
    }
  }

  lemma EmptyByDuration(a: seq<TraceEvent>, b: seq<TraceEvent>)
    requires SameByDuration(a, b)
    ensures a == [] <==> b == []
  {
    SomeDurationFound(a);
    SomeDurationFound(b);
  }

  lemma SomeDurationFound(s: seq<TraceEvent>)
    ensures s == [] <==> forall d: u64 :: Filter(s, DurationIs(d)) == []
  {
    if s != [] {
      assert Filter(s, DurationIs(Last(s).duration)) != [];
    }
  }

  lemma LastByDuration(a: seq<TraceEvent>, b: seq<TraceEvent>)
    requires Sorted(b) && SameByDuration(a, b) && a != [] && b != []
    ensures Last(b).duration <= Last(a).duration
  {
    var d := Last(a).duration;
    assert Filter(a, DurationIs(d)) == Filter(b, DurationIs(d));
    assert Last(a) in Filter(a, DurationIs(d));
    FilterMembers(b, DurationIs(d));
    var i :| 0 <= i < |b| && b[i] == Last(a);
  }

  /** Cutting a descending list in two leaves nothing longer behind. */
  lemma CutSorted(sorted: seq<TraceEvent>, k: nat)
    requires Sorted(sorted) && k <= |sorted|
    ensures multiset(sorted) == multiset(sorted[..k]) + multiset(sorted[k..])
    ensures forall e, r :: e in sorted[k..] && r in sorted[..k] ==> e.duration <= r.duration
  {
    assert sorted == sorted[..k] + sorted[k..];
    forall e, r | e in sorted[k..] && r in sorted[..k] ensures e.duration <= r.duration {
      var i :| 0 <= i < |sorted[k..]| && sorted[k..][i] == e;
      assert sorted[k + i] == e;
    }
  }

  /** The reported stalls are among the longest, with none left out that is longer than one reported. */
  lemma SlowestAreSlowest(trace: TraceFile, n: nat)
    ensures var blocks, top := Partitioned(trace.events).block, Slowest(trace, n);
      && |top| == (if n <= |blocks| then n else |blocks|)
      && multiset(top) <= multiset(blocks)
      && forall e, r :: e in multiset(blocks) - multiset(top) && r in top ==> e.duration <= r.duration
  {
    hide SortByDuration, Filter, Sorted, SameByDuration;
    var blocks, top := Partitioned(trace.events).block, Slowest(trace, n);
    SortFacts(blocks);
    CutSorted(SortByDuration(blocks), |top|);
    var rest := SortByDuration(blocks)[|top|..];
    assert multiset(blocks) - multiset(top) == multiset(rest);
    assert forall e :: e in multiset(rest) <==> e in rest;
  }

  function AtLeast(d: u64): TraceEvent -> bool { (e: TraceEvent) => e.duration >= d }

  lemma {:induction false} FilterPrefix(s: seq<TraceEvent>, n: nat, p: TraceEvent -> bool)
    requires n <= |s| && forall e :: e in s[..n] ==> p(e)
    ensures n <= |Filter(s, p)|
  {
    if n < |s| {
      assert s[..|s| - 1][..n] == s[..n];
      FilterPrefix(s[..|s| - 1], n, p);
    } else if n > 0 {
      assert s[..n][n - 1] == s[n - 1] && s[..n] == s;
      assert s[..|s| - 1][..n - 1] == s[..n - 1] && forall e :: e in s[..n - 1] ==> e in s;
      FilterPrefix(s[..|s| - 1], n - 1, p);
    }
  }

  lemma FilterPermuted(s: seq<TraceEvent>, r: seq<TraceEvent>, p: TraceEvent -> bool)
    requires multiset(s) == multiset(r)
    ensures |Filter(s, p)| == |Filter(r, p)|
  {
    forall e: TraceEvent ensures multiset(Filter(s, p))[e] == multiset(Filter(r, p))[e] {
      FilterMultiset(s, p, e);
      FilterMultiset(r, p, e);
    }
    assert multiset(Filter(s, p)) == multiset(Filter(r, p));
    assert |multiset(Filter(s, p))| == |Filter(s, p)| && |multiset(Filter(r, p))| == |Filter(r, p)|;
  }

  /** A stall is reported whenever no more than `n` stalls are at least as long. */
  lemma AmongSlowest(trace: TraceFile, n: nat, stall: TraceEvent) returns (i: nat)
    requires stall in Partitioned(trace.events).block
    requires |Filter(Partitioned(trace.events).block, AtLeast(stall.duration))| <= n
    ensures i < |Slowest(trace, n)| && Slowest(trace, n)[i] == stall
  {
    hide SortByDuration, Filter, SameByDuration;
    var blocks := Partitioned(trace.events).block;
    var sorted := SortByDuration(blocks);
    SortFacts(blocks);
    assert stall in multiset(sorted);
    i :| 0 <= i < |sorted| && sorted[i] == stall;
    FilterPrefix(sorted, i + 1, AtLeast(stall.duration));
    FilterPermuted(sorted, blocks, AtLeast(stall.duration));
  }

  /** Asking for fewer stalls prints a prefix of what asking for more prints. */
  lemma RankedPrefix(sysfs: (u32, u32) -> Option<string>, trace: TraceFile, k: nat, n: nat)
    requires k <= n
    ensures Explanations(sysfs, trace, Slowest(trace, k)) <= Explanations(sysfs, trace, Slowest(trace, n))
  {
    var first, top := Slowest(trace, k), Slowest(trace, n);
    assert first == top[..|first|];
    MapPrefix(Explanation(sysfs, trace), top, |first|);
  }

  lemma {:induction false} MapPrefix<A, B>(f: A -> B, s: seq<A>, n: nat)
    requires n <= |s|
    ensures MapSeq(f, s[..n]) <= MapSeq(f, s)
  {
  }

  // ------------------------------------------------------ order independence

  /** The candidates are the same events, and a timestamp identifies one of them. */
  ghost predicate SameCandidates(c1: seq<TraceEvent>, c2: seq<TraceEvent>) {
    (forall e :: e in c1 <==> e in c2) &&
    forall d, e :: d in c1 && e in c1 && d.timestamp == e.timestamp ==> d == e
  }

  lemma PrecedingOrderFree(c1: seq<TraceEvent>, c2: seq<TraceEvent>, anchor: u64, pred: TraceEvent -> bool)
    requires SameCandidates(c1, c2)
    ensures NearestPreceding(c1, anchor, pred) == NearestPreceding(c2, anchor, pred)
  {
    PrecedingFacts(c1, anchor, pred);
    PrecedingFacts(c2, anchor, pred);
  }

  lemma FollowingOrderFree(c1: seq<TraceEvent>, c2: seq<TraceEvent>, anchor: u64, pred: TraceEvent -> bool)
    requires SameCandidates(c1, c2)
    ensures NearestFollowing(c1, anchor, pred) == NearestFollowing(c2, anchor, pred)
  {
    FollowingFacts(c1, anchor, pred);
    FollowingFacts(c2, anchor, pred);
  }

  ghost predicate SameTyped(t1: Typed, t2: Typed) {
    SameCandidates(t1.futexWait, t2.futexWait) && SameCandidates(t1.futexWake, t2.futexWake) &&
    SameCandidates(t1.blockIo, t2.blockIo)
  }

  lemma {:induction false} WalkOrderFree(wait: TraceEvent, t1: Typed, t2: Typed, depth: nat)
    requires SameTyped(t1, t2)
    ensures Walk(wait, t1, depth) == Walk(wait, t2, depth)
    decreases MAX_CHAIN_DEPTH - depth, 1
  {
    hide NearestPreceding, NearestFollowing;
    PrecedingOrderFree(t1.futexWake, t2.futexWake, wait.timestamp, KeyIs(wait.key));
    var found := FindWake(wait, t1);
    if found.Some? && depth < MAX_CHAIN_DEPTH {
      BeforeOrderFree(found.value, t1, t2, depth);
    }
  }

  lemma {:induction false} BeforeOrderFree(wake: TraceEvent, t1: Typed, t2: Typed, depth: nat)
    requires SameTyped(t1, t2) && depth < MAX_CHAIN_DEPTH
    ensures BeforeWake(wake, t1, depth) == BeforeWake(wake, t2, depth)
    decreases MAX_CHAIN_DEPTH - depth, 0
  {
    hide NearestPreceding, NearestFollowing;
    PrecedingOrderFree(t1.futexWait, t2.futexWait, WakeStart(wake), TidIs(wake.tid));
    PrecedingOrderFree(t1.blockIo, t2.blockIo, WakeStart(wake), TidIs(wake.tid));
    assert CauseOfWake(wake, t1) == CauseOfWake(wake, t2);
    var cause := CauseOfWake(wake, t1);
    if cause.Futex? {
      WalkOrderFree(cause.wait, t1, t2, depth + 1);
    }
  }

  lemma ChainOrderFree(stall: TraceEvent, t1: Typed, t2: Typed)
    requires SameTyped(t1, t2)
    ensures ChainOf(stall, t1) == ChainOf(stall, t2)
  {
    hide NearestPreceding, NearestFollowing;
    FollowingOrderFree(t1.futexWait, t2.futexWait, stall.timestamp, TidIs(stall.tid));
    PrecedingOrderFree(t1.blockIo, t2.blockIo, stall.timestamp, TidIs(stall.tid));
    var cause := ClassifyResumeCause(stall.tid, stall.timestamp, t1);
    assert cause == ClassifyResumeCause(stall.tid, stall.timestamp, t2);
    if cause.Futex? {
      WalkOrderFree(cause.wait, t1, t2, 1);
    }
  }

  /** Within each searched type a timestamp names one event; among stalls a duration does. */
  ghost predicate Unambiguous(events: seq<TraceEvent>) {
    forall d, e :: d in events && e in events && d.eventType == e.eventType ==>
      (d.eventType != EVENT_SCHED_BLOCK && d.timestamp == e.timestamp ==> d == e) &&
      (d.eventType == EVENT_SCHED_BLOCK && d.duration == e.duration ==> d == e)
  }

  lemma PermutedType(e1: seq<TraceEvent>, e2: seq<TraceEvent>, kind: u8)
    requires multiset(e1) == multiset(e2)
    ensures multiset(Filter(e1, TypeIs(kind))) == multiset(Filter(e2, TypeIs(kind)))
    ensures forall e :: e in Filter(e1, TypeIs(kind)) <==> e in Filter(e2, TypeIs(kind))
    ensures forall e :: e in Filter(e1, TypeIs(kind)) ==> e in e1 && e.eventType == kind
  {
    forall e ensures multiset(Filter(e1, TypeIs(kind)))[e] == multiset(Filter(e2, TypeIs(kind)))[e] {
      FilterMultiset(e1, TypeIs(kind), e);
      FilterMultiset(e2, TypeIs(kind), e);
    }
    FilterMembers(e1, TypeIs(kind));
    assert forall e :: e in Filter(e2, TypeIs(kind)) <==> e in multiset(Filter(e2, TypeIs(kind)));
    assert forall e :: e in Filter(e1, TypeIs(kind)) <==> e in multiset(Filter(e1, TypeIs(kind)));
  }

  /** The last of a sorted list is one of its shortest, so two such lists end alike. */
  lemma LastIsShortest(a: seq<TraceEvent>, b: seq<TraceEvent>)
    requires Sorted(b) && a != [] && multiset(a) == multiset(b)
    ensures b != [] && Last(b).duration <= Last(a).duration && Last(b) in a
  {
    assert Last(a) in multiset(b);
    assert Last(b) in multiset(a);
  }

  lemma MultisetInit(a: seq<TraceEvent>)
    requires a != []
    ensures multiset(Init(a)) == multiset(a) - multiset{Last(a)}
    ensures forall e :: e in Init(a) ==> e in a
  {
    assert a == Init(a) + [Last(a)];
  }

  ghost predicate DurationIdentifies(s: seq<TraceEvent>) {
    forall d, e :: d in s && e in s && d.duration == e.duration ==> d == e
  }

  lemma SameLast(a: seq<TraceEvent>, b: seq<TraceEvent>)
    requires Sorted(a) && Sorted(b) && multiset(a) == multiset(b) && DurationIdentifies(a) && a != []
    ensures b != [] && Last(a) == Last(b)
  {
    LastIsShortest(a, b);
    LastIsShortest(b, a);
  }

  lemma {:induction false} SortedPermutationUnique(a: seq<TraceEvent>, b: seq<TraceEvent>)
    requires Sorted(a) && Sorted(b) && multiset(a) == multiset(b) && DurationIdentifies(a)
    ensures a == b
  {
    if a == [] {
      assert |b| == |multiset(b)| == |multiset(a)| == 0;
    } else {
      SameLast(a, b);
      MultisetInit(a);
      MultisetInit(b);
      SortedPermutationUnique(Init(a), Init(b));
      assert a == Init(a) + [Last(a)] && b == Init(b) + [Last(b)];
    }
  }

  lemma SlowestOrderFree(t1: TraceFile, t2: TraceFile, slowest: nat)
    requires multiset(t1.events) == multiset(t2.events) && Unambiguous(t1.events)
    ensures Slowest(t1, slowest) == Slowest(t2, slowest)
  {
    hide SortByDuration, Filter;
    var b1, b2 := Partitioned(t1.events).block, Partitioned(t2.events).block;
    PermutedType(t1.events, t2.events, EVENT_SCHED_BLOCK);
    SortFacts(b1);
    SortFacts(b2);
    assert forall e :: e in SortByDuration(b1) ==> e in multiset(b1);
    SortedPermutationUnique(SortByDuration(b1), SortByDuration(b2));
  }

  lemma TypedOrderFree(e1: seq<TraceEvent>, e2: seq<TraceEvent>)
    requires multiset(e1) == multiset(e2) && Unambiguous(e1)
    ensures SameTyped(Partitioned(e1), Partitioned(e2))
  {
    PermutedType(e1, e2, EVENT_FUTEX_WAIT);
    PermutedType(e1, e2, EVENT_FUTEX_WAKE);
    PermutedType(e1, e2, EVENT_BLOCK_IO);
  }

  /** However the ring delivered the events, the whole output is the same. */
  lemma ArrivalOrderIrrelevant(
    sysfs: (u32, u32) -> Option<string>, t1: TraceFile, t2: TraceFile, slowest: nat)
    requires multiset(t1.events) == multiset(t2.events) && Unambiguous(t1.events)
    requires t1.realtimeAnchor == t2.realtimeAnchor && t1.monotonicAnchor == t2.monotonicAnchor
    ensures Explanations(sysfs, t1, Slowest(t1, slowest)) == Explanations(sysfs, t2, Slowest(t2, slowest))
  {
    SlowestOrderFree(t1, t2, slowest);
    TypedOrderFree(t1.events, t2.events);
    forall e { ChainOrderFree(e, Partitioned(t1.events), Partitioned(t2.events)); }
    SameExplanations(sysfs, t1, t2, Slowest(t1, slowest));
  }

  lemma SameRendering(sysfs: (u32, u32) -> Option<string>, t1: TraceFile, t2: TraceFile, c: Chain)
    requires t1.realtimeAnchor == t2.realtimeAnchor && t1.monotonicAnchor == t2.monotonicAnchor
    ensures Render(sysfs, t1, c) == Render(sysfs, t2, c)
  {
    hide RenderLinks, CauseSubject;
  }

  lemma SameExplanations(
    sysfs: (u32, u32) -> Option<string>, t1: TraceFile, t2: TraceFile, stalls: seq<TraceEvent>)
    requires t1.realtimeAnchor == t2.realtimeAnchor && t1.monotonicAnchor == t2.monotonicAnchor
    requires forall e :: ChainOf(e, Partitioned(t1.events)) == ChainOf(e, Partitioned(t2.events))
    ensures Explanations(sysfs, t1, stalls) == Explanations(sysfs, t2, stalls)
  {
    hide ChainOf, Render, Partitioned;
    var a, b := Explanations(sysfs, t1, stalls), Explanations(sysfs, t2, stalls);
    forall i | 0 <= i < |stalls| ensures a[i] == b[i] {
      SameRendering(sysfs, t1, t2, ChainOf(stalls[i], Partitioned(t1.events)));
      assert a[i] == Explanation(sysfs, t1)(stalls[i]) && b[i] == Explanation(sysfs, t2)(stalls[i]);
    }
  }
}
