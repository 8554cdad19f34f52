/**
 * A chain only looks at a bounded stretch of the trace: from 75 ms and seven
 * wake durations before the resume to 5 ms after it.
 */
module Locality {
  import opened Collections
  import opened Schema
  import opened Trace
  import opened Causal
  import opened Nearest

  const WINDOW := MATCH_WINDOW_NS as int

  function InRange(lo: int, hi: int): TraceEvent -> bool { (e: TraceEvent) => lo <= e.timestamp <= hi }

  ghost predicate AgreeOn(c1: seq<TraceEvent>, c2: seq<TraceEvent>, lo: int, hi: int) {
    Filter(c1, InRange(lo, hi)) == Filter(c2, InRange(lo, hi))
  }

  ghost predicate Agree(t1: Typed, t2: Typed, lo: int, hi: int) {
    AgreeOn(t1.futexWait, t2.futexWait, lo, hi) &&
    AgreeOn(t1.futexWake, t2.futexWake, lo, hi) &&
    AgreeOn(t1.blockIo, t2.blockIo, lo, hi)
  }

  /** No wake takes longer than `d`. */
  ghost predicate WakesAtMost(typed: Typed, d: int) {
    forall w :: w in typed.futexWake ==> w.duration <= d
  }

  lemma SameMatches(c1: seq<TraceEvent>, c2: seq<TraceEvent>, lo: int, hi: int, m: TraceEvent -> bool)
    requires AgreeOn(c1, c2, lo, hi)
    requires forall e :: m(e) ==> lo <= e.timestamp <= hi
    ensures Filter(c1, m) == Filter(c2, m)
  {
    FilterFilter(c1, InRange(lo, hi), m, m);
    FilterFilter(c2, InRange(lo, hi), m, m);
  }

  lemma PrecedingLocal(c1: seq<TraceEvent>, c2: seq<TraceEvent>, lo: int, hi: int, anchor: u64, pred: TraceEvent -> bool)
    requires AgreeOn(c1, c2, lo, hi) && lo <= anchor - WINDOW && anchor <= hi
    ensures NearestPreceding(c1, anchor, pred) == NearestPreceding(c2, anchor, pred)
  {
    SameMatches(c1, c2, lo, hi, Preceding(anchor, pred));
  }

  lemma FollowingLocal(c1: seq<TraceEvent>, c2: seq<TraceEvent>, lo: int, hi: int, anchor: u64, pred: TraceEvent -> bool)
    requires AgreeOn(c1, c2, lo, hi) && lo <= anchor && anchor + WINDOW <= hi
    ensures NearestFollowing(c1, anchor, pred) == NearestFollowing(c2, anchor, pred)
  {
    SameMatches(c1, c2, lo, hi, Following(anchor, pred));
  }

  /** How far back from a wait the walk may look when it starts at a given depth. */
  function Reach(depth: nat, d: int): int
    decreases MAX_CHAIN_DEPTH - depth
  {
    if depth >= MAX_CHAIN_DEPTH then WINDOW else 2 * WINDOW + d + Reach(depth + 1, d)
  }

  lemma {:induction false} ReachPositive(depth: nat, d: int)
    requires 0 <= d
    ensures Reach(depth, d) >= WINDOW
    decreases MAX_CHAIN_DEPTH - depth
  {
    if depth < MAX_CHAIN_DEPTH {
      ReachPositive(depth + 1, d);
    }
  }

  lemma ReachFromHeadline(d: int)
    ensures Reach(1, d) == 75_000_000 + 7 * d
  {
    assert Reach(8, d) == WINDOW;
    assert Reach(6, d) == 2 * (2 * WINDOW + d) + WINDOW;
    assert Reach(4, d) == 4 * (2 * WINDOW + d) + WINDOW;
    assert Reach(2, d) == 6 * (2 * WINDOW + d) + WINDOW;
  }

  lemma {:induction false} WalkLocal(wait: TraceEvent, t1: Typed, t2: Typed, depth: nat, d: int, lo: int, hi: int)
    requires 0 <= d && WakesAtMost(t1, d) && Agree(t1, t2, lo, hi)
    requires lo <= wait.timestamp - Reach(depth, d) && wait.timestamp <= hi
    ensures Walk(wait, t1, depth) == Walk(wait, t2, depth)
    decreases MAX_CHAIN_DEPTH - depth, 1
  {
    hide NearestPreceding, NearestFollowing;
    ReachPositive(depth, d);
    PrecedingLocal(t1.futexWake, t2.futexWake, lo, hi, wait.timestamp, KeyIs(wait.key));
    PrecedingFacts(t1.futexWake, wait.timestamp, KeyIs(wait.key));
    var found := FindWake(wait, t1);
    if found.Some? && depth < MAX_CHAIN_DEPTH {
      BeforeLocal(found.value, t1, t2, depth, d, lo, hi);
    }
  }

  lemma {:induction false} BeforeLocal(wake: TraceEvent, t1: Typed, t2: Typed, depth: nat, d: int, lo: int, hi: int)
    requires 0 <= d && Agree(t1, t2, lo, hi) && WakesAtMost(t1, d) && wake.duration <= d && depth < MAX_CHAIN_DEPTH
    requires lo <= wake.timestamp - WINDOW - d - Reach(depth + 1, d) && wake.timestamp <= hi
    ensures BeforeWake(wake, t1, depth) == BeforeWake(wake, t2, depth)
    decreases MAX_CHAIN_DEPTH - depth, 0
  {
    hide NearestPreceding, NearestFollowing;
    var start := WakeStart(wake);
    ReachPositive(depth + 1, d);
    PrecedingLocal(t1.futexWait, t2.futexWait, lo, hi, start, TidIs(wake.tid));
    PrecedingLocal(t1.blockIo, t2.blockIo, lo, hi, start, TidIs(wake.tid));
    assert CauseOfWake(wake, t1) == CauseOfWake(wake, t2);
    PrecedingFacts(t1.futexWait, start, TidIs(wake.tid));
    var cause := CauseOfWake(wake, t1);
    if cause.Futex? {
      WalkLocal(cause.wait, t1, t2, depth + 1, d, lo, hi);
    }
  }

  /** The part of a trace a stall's chain can depend on, when no wake takes longer than `d`. */
  function Relevant(stall: TraceEvent, d: int): TraceEvent -> bool {
    InRange(stall.timestamp - 75_000_000 - 7 * d, stall.timestamp + 5_000_000)
  }

  lemma ChainLocal(stall: TraceEvent, t1: Typed, t2: Typed, d: int)
    requires 0 <= d && WakesAtMost(t1, d)
    requires Agree(t1, t2, stall.timestamp - 75_000_000 - 7 * d, stall.timestamp + 5_000_000)
    ensures ChainOf(stall, t1) == ChainOf(stall, t2)
  {
    hide NearestPreceding, NearestFollowing;
    var r, lo, hi := stall.timestamp, stall.timestamp - 75_000_000 - 7 * d, stall.timestamp + 5_000_000;
    FollowingLocal(t1.futexWait, t2.futexWait, lo, hi, r, TidIs(stall.tid));
    PrecedingLocal(t1.blockIo, t2.blockIo, lo, hi, r, TidIs(stall.tid));
    var cause := ClassifyResumeCause(stall.tid, r, t1);
    assert cause == ClassifyResumeCause(stall.tid, r, t2);
    FollowingFacts(t1.futexWait, r, TidIs(stall.tid));
    if cause.Futex? {
      ReachFromHeadline(d);
      WalkLocal(cause.wait, t1, t2, 1, d, lo, hi);
    }
  }

  lemma FiltersCommute(events: seq<TraceEvent>, kind: u8, m: TraceEvent -> bool)
    ensures Filter(Filter(events, TypeIs(kind)), m) == Filter(Filter(events, m), TypeIs(kind))
  {
    var both := (e: TraceEvent) => e.eventType == kind && m(e);
    FilterFilter(events, TypeIs(kind), m, both);
    FilterFilter(events, m, TypeIs(kind), both);
  }

  /** A chain is a function of the relevant events alone: any two traces with the same relevant events,
      in the same order, give a stall the same chain. */
  lemma ChainDependsOnRelevantEvents(stall: TraceEvent, e1: seq<TraceEvent>, e2: seq<TraceEvent>, d: int)
    requires 0 <= d && forall e :: e in e1 && e.eventType == EVENT_FUTEX_WAKE ==> e.duration <= d
    requires Filter(e1, Relevant(stall, d)) == Filter(e2, Relevant(stall, d))
    ensures ChainOf(stall, Partitioned(e1)) == ChainOf(stall, Partitioned(e2))
  {
    hide ChainOf, Filter;
    forall kind: u8 ensures Filter(Filter(e1, TypeIs(kind)), Relevant(stall, d))
                         == Filter(Filter(e2, TypeIs(kind)), Relevant(stall, d)) {
      FiltersCommute(e1, kind, Relevant(stall, d));
      FiltersCommute(e2, kind, Relevant(stall, d));
    }
    FilterMembers(e1, TypeIs(EVENT_FUTEX_WAKE));
    ChainLocal(stall, Partitioned(e1), Partitioned(e2), d);
  }

  /** Deleting everything outside the relevant stretch changes nothing. */
  lemma DeletingTheRest(stall: TraceEvent, events: seq<TraceEvent>, d: int)
    requires 0 <= d && forall e :: e in events && e.eventType == EVENT_FUTEX_WAKE ==> e.duration <= d
    ensures ChainOf(stall, Partitioned(Filter(events, Relevant(stall, d)))) == ChainOf(stall, Partitioned(events))
  {
    hide ChainOf, Filter;
    FilterFilter(events, Relevant(stall, d), Relevant(stall, d), Relevant(stall, d));
    ChainDependsOnRelevantEvents(stall, events, Filter(events, Relevant(stall, d)), d);
  }

  lemma {:induction false} FilterNone(s: seq<TraceEvent>, p: TraceEvent -> bool)
    requires forall e :: e in s ==> !p(e)
    ensures Filter(s, p) == []
  {
    FilterMembers(s, p);
    if Filter(s, p) != [] {
      assert Filter(s, p)[0] in Filter(s, p);
    }
  }

  lemma {:induction false} FilterConcat(s: seq<TraceEvent>, t: seq<TraceEvent>, p: TraceEvent -> bool)
    ensures Filter(s + t, p) == Filter(s, p) + Filter(t, p)
  {
    if t == [] {
      assert s + t == s;
    } else {
      assert (s + t)[..|s + t| - 1] == s + Init(t);
      FilterConcat(s, Init(t), p);
    }
  }

  /** Whatever is recorded more than 5 ms after a stall ended never changes its chain. */
  lemma LaterEventsIgnored(stall: TraceEvent, events: seq<TraceEvent>, later: seq<TraceEvent>)
    requires forall e :: e in later ==> e.timestamp > stall.timestamp + 5_000_000
    ensures ChainOf(stall, Partitioned(events + later)) == ChainOf(stall, Partitioned(events))
  {
    hide ChainOf, Filter;
    var m := Relevant(stall, TWO_64);
    FilterConcat(events, later, m);
    FilterNone(later, m);
    assert Filter(events, m) + [] == Filter(events, m);
    ChainDependsOnRelevantEvents(stall, events, events + later, TWO_64);
  }
}
