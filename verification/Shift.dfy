/** Moving the event clock's origin changes nothing the tool prints. */
module Shift {
  import opened Collections
  import opened Schema
  import opened Trace
  import opened Causal
  import opened Ranking

  /** The event can be moved by `d` without overflow, and its span starts at a valid time both before
      and after. */
  predicate Shiftable(e: TraceEvent, d: int) {
    0 <= e.timestamp + d < TWO_64 && e.duration <= e.timestamp && e.duration <= e.timestamp + d
  }

  /** The event moved by `d`; the result only matters for events that can be moved. */
  function Moved(d: int): TraceEvent -> TraceEvent {
    (e: TraceEvent) => if Shiftable(e, d) then e.(timestamp := e.timestamp + d) else e
  }

  ghost predicate AllShiftable(s: seq<TraceEvent>, d: int) {
    forall e :: e in s ==> Shiftable(e, d)
  }

  function MovedSeq(s: seq<TraceEvent>, d: int): seq<TraceEvent> {
    MapSeq(Moved(d), s)
  }

  function MovedOption(o: Option<TraceEvent>, d: int): Option<TraceEvent> {
    match o case Some(e) => Some(Moved(d)(e)) case None => None
  }

  lemma {:induction false} LastMaxMoved(s: seq<TraceEvent>, d: int)
    requires AllShiftable(s, d)
    ensures LastMax(MovedSeq(s, d)) == MovedOption(LastMax(s), d)
    ensures LastMax(s).Some? ==> LastMax(s).value in s
  {
    if s != [] {
      LastMaxMoved(Init(s), d);
    }
  }

  lemma {:induction false} FirstMinMoved(s: seq<TraceEvent>, d: int)
    requires AllShiftable(s, d)
    ensures FirstMin(MovedSeq(s, d)) == MovedOption(FirstMin(s), d)
    ensures FirstMin(s).Some? ==> FirstMin(s).value in s
  {
    if s != [] {
      FirstMinMoved(Init(s), d);
    }
  }

  /** The predicate looks only at what a move leaves alone. */
  ghost predicate IgnoresTime(pred: TraceEvent -> bool, d: int) {
    forall e :: pred(Moved(d)(e)) <==> pred(e)
  }

  lemma PrecedingMoved(c: seq<TraceEvent>, anchor: u64, pred: TraceEvent -> bool, d: int)
    requires AllShiftable(c, d) && IgnoresTime(pred, d) && 0 <= anchor + d < TWO_64
    ensures NearestPreceding(MovedSeq(c, d), anchor + d, pred) == MovedOption(NearestPreceding(c, anchor, pred), d)
    ensures NearestPreceding(c, anchor, pred).Some? ==> NearestPreceding(c, anchor, pred).value in c
  {
    FilterMap(c, Moved(d), Preceding(anchor + d, pred), Preceding(anchor, pred));
    FilterMembers(c, Preceding(anchor, pred));
    LastMaxMoved(Filter(c, Preceding(anchor, pred)), d);
  }

  lemma FollowingMoved(c: seq<TraceEvent>, anchor: u64, pred: TraceEvent -> bool, d: int)
    requires AllShiftable(c, d) && IgnoresTime(pred, d) && 0 <= anchor + d < TWO_64
    ensures NearestFollowing(MovedSeq(c, d), anchor + d, pred) == MovedOption(NearestFollowing(c, anchor, pred), d)
    ensures NearestFollowing(c, anchor, pred).Some? ==> NearestFollowing(c, anchor, pred).value in c
  {
    FilterMap(c, Moved(d), Following(anchor + d, pred), Following(anchor, pred));
    FilterMembers(c, Following(anchor, pred));
    FirstMinMoved(Filter(c, Following(anchor, pred)), d);
  }

  function MovedTyped(t: Typed, d: int): Typed {
    Typed(MovedSeq(t.block, d), MovedSeq(t.futexWait, d), MovedSeq(t.futexWake, d), MovedSeq(t.blockIo, d))
  }

  ghost predicate TypedShiftable(t: Typed, d: int) {
    AllShiftable(t.block, d) && AllShiftable(t.futexWait, d) && AllShiftable(t.futexWake, d) && AllShiftable(t.blockIo, d)
  }

  function MovedCause(c: Cause, d: int): Cause {
    match c
    case Futex(wait) => Futex(Moved(d)(wait))
    case BlockIo(io) => BlockIo(Moved(d)(io))
    case Unknown => Unknown
  }

  function MovedLink(d: int): Link -> Link {
    (l: Link) => match l
      case WokenBy(e) => WokenBy(Moved(d)(e))
      case OnFutex(waker, e) => OnFutex(waker, Moved(d)(e))
      case OnBlockIo(waker, e) => OnBlockIo(waker, Moved(d)(e))
  }

  function MovedLinks(links: seq<Link>, d: int): seq<Link> {
    if links == [] then [] else [MovedLink(d)(links[0])] + MovedLinks(links[1..], d)
  }

  lemma MovedMore(link: Link, rest: seq<Link>, d: int)
    ensures MovedLinks([link] + rest, d) == [MovedLink(d)(link)] + MovedLinks(rest, d)
  {
    assert ([link] + rest)[1..] == rest;
  }

  lemma WakeStartMoved(wake: TraceEvent, d: int)
    requires Shiftable(wake, d)
    ensures WakeStart(Moved(d)(wake)) == WakeStart(wake) + d
  {
  }

  lemma PriorMoved(wake: TraceEvent, t: Typed, d: int)
    requires TypedShiftable(t, d) && Shiftable(wake, d)
    ensures CauseOfWake(Moved(d)(wake), MovedTyped(t, d)) == MovedCause(CauseOfWake(wake, t), d)
    ensures CauseOfWake(wake, t).Futex? ==> CauseOfWake(wake, t).wait in t.futexWait
    ensures CauseOfWake(wake, t).BlockIo? ==> CauseOfWake(wake, t).io in t.blockIo
  {
    hide NearestPreceding, MovedSeq;
    WakeStartMoved(wake, d);
    PrecedingMoved(t.futexWait, WakeStart(wake), TidIs(wake.tid), d);
    PrecedingMoved(t.blockIo, WakeStart(wake), TidIs(wake.tid), d);
  }

  lemma {:induction false} WalkMoved(wait: TraceEvent, t: Typed, depth: nat, d: int)
    requires TypedShiftable(t, d) && Shiftable(wait, d)
    ensures Walk(Moved(d)(wait), MovedTyped(t, d), depth) == MovedLinks(Walk(wait, t, depth), d)
    decreases MAX_CHAIN_DEPTH - depth, 1
  {
    hide NearestPreceding, MovedSeq;
    PrecedingMoved(t.futexWake, wait.timestamp, KeyIs(wait.key), d);
    var found := FindWake(wait, t);
    if found.Some? {
      MovedMore(WokenBy(found.value), if depth >= MAX_CHAIN_DEPTH then [] else BeforeWake(found.value, t, depth), d);
      if depth < MAX_CHAIN_DEPTH {
        BeforeMoved(found.value, t, depth, d);
      }
    }
  }

  lemma {:induction false} BeforeMoved(wake: TraceEvent, t: Typed, depth: nat, d: int)
    requires TypedShiftable(t, d) && Shiftable(wake, d) && depth < MAX_CHAIN_DEPTH
    ensures BeforeWake(Moved(d)(wake), MovedTyped(t, d), depth) == MovedLinks(BeforeWake(wake, t, depth), d)
    decreases MAX_CHAIN_DEPTH - depth, 0
  {
    hide NearestPreceding, MovedSeq, CauseOfWake;
    PriorMoved(wake, t, d);
    match CauseOfWake(wake, t)
    case Futex(next) =>
      WalkMoved(next, t, depth + 1, d);
      MovedMore(OnFutex(wake.tid, next), Walk(next, t, depth + 1), d);
    case BlockIo(io) => MovedMore(OnBlockIo(wake.tid, io), [], d);
    case Unknown =>
  }

  lemma RenderLinkMoved(sysfs: (u32, u32) -> Option<string>, link: Link, d: int)
    ensures RenderLink(sysfs, MovedLink(d)(link)) == RenderLink(sysfs, link)
  {
    var e, e' := link.event, Moved(d)(link.event);
    assert e'.tid == e.tid && e'.key == e.key && e'.duration == e.duration;
    match link
    case WokenBy(_) => assert MovedLink(d)(link) == WokenBy(e');
    case OnFutex(waker, _) => assert MovedLink(d)(link) == OnFutex(waker, e');
    case OnBlockIo(waker, _) => assert MovedLink(d)(link) == OnBlockIo(waker, e');
  }

  lemma {:induction false} RenderMoved(sysfs: (u32, u32) -> Option<string>, links: seq<Link>, d: int)
    ensures RenderLinks(sysfs, MovedLinks(links, d)) == RenderLinks(sysfs, links)
  {
    if links != [] {
      var rest := MovedLinks(links[1..], d);
      RenderMoved(sysfs, links[1..], d);
      RenderLinkMoved(sysfs, links[0], d);
      RenderMore(sysfs, MovedLink(d)(links[0]), rest);
    }
  }

  lemma ResumeMoved(stall: TraceEvent, t: Typed, d: int)
    requires TypedShiftable(t, d) && Shiftable(stall, d)
    ensures ClassifyResumeCause(stall.tid, stall.timestamp + d, MovedTyped(t, d))
         == MovedCause(ClassifyResumeCause(stall.tid, stall.timestamp, t), d)
    ensures var c := ClassifyResumeCause(stall.tid, stall.timestamp, t); c.Futex? ==> c.wait in t.futexWait
  {
    hide NearestPreceding, NearestFollowing, MovedSeq;
    FollowingMoved(t.futexWait, stall.timestamp, TidIs(stall.tid), d);
    PrecedingMoved(t.blockIo, stall.timestamp, TidIs(stall.tid), d);
  }

  function MovedTrace(t: TraceFile, d: int): TraceFile
    requires 0 <= t.monotonicAnchor + d < TWO_64
  {
    t.(monotonicAnchor := t.monotonicAnchor + d, events := MovedSeq(t.events, d))
  }

  lemma PartitionMoved(events: seq<TraceEvent>, d: int)
    requires AllShiftable(events, d)
    ensures Partitioned(MovedSeq(events, d)) == MovedTyped(Partitioned(events), d)
    ensures TypedShiftable(Partitioned(events), d)
  {
    forall kind: u8 ensures Filter(MovedSeq(events, d), TypeIs(kind)) == MovedSeq(Filter(events, TypeIs(kind)), d) {
      FilterMap(events, Moved(d), TypeIs(kind), TypeIs(kind));
    }
    forall kind: u8 ensures AllShiftable(Filter(events, TypeIs(kind)), d) {
      FilterMembers(events, TypeIs(kind));
    }
  }

  function MovedChain(c: Chain, d: int): Chain {
    Chain(Moved(d)(c.stall), MovedCause(c.cause, d), MovedLinks(c.links, d))
  }

  lemma ChainMoved(stall: TraceEvent, t: Typed, d: int)
    requires TypedShiftable(t, d) && Shiftable(stall, d)
    ensures ChainOf(Moved(d)(stall), MovedTyped(t, d)) == MovedChain(ChainOf(stall, t), d)
  {
    hide NearestPreceding, NearestFollowing, MovedSeq, Walk, ClassifyResumeCause;
    ResumeMoved(stall, t, d);
    var cause := ClassifyResumeCause(stall.tid, stall.timestamp, t);
    if cause.Futex? {
      WalkMoved(cause.wait, t, 1, d);
    }
  }

  lemma RenderChainMoved(sysfs: (u32, u32) -> Option<string>, trace: TraceFile, c: Chain, d: int)
    requires 0 <= trace.monotonicAnchor + d < TWO_64 && Shiftable(c.stall, d)
    ensures Render(sysfs, MovedTrace(trace, d), MovedChain(c, d)) == Render(sysfs, trace, c)
  {
    hide MovedSeq, RenderLinks, MovedLinks;
    RenderMoved(sysfs, c.links, d);
  }

  lemma StallMoved(sysfs: (u32, u32) -> Option<string>, trace: TraceFile, stall: TraceEvent, d: int)
    requires 0 <= trace.monotonicAnchor + d < TWO_64
    requires AllShiftable(trace.events, d) && Shiftable(stall, d)
    ensures Explanation(sysfs, MovedTrace(trace, d))(Moved(d)(stall)) == Explanation(sysfs, trace)(stall)
  {
    hide ChainOf, MovedSeq, Partitioned, Render, MovedChain, Moved;
    PartitionMoved(trace.events, d);
    ChainMoved(stall, Partitioned(trace.events), d);
    assert ChainOf(stall, Partitioned(trace.events)).stall == stall by { ChainStall(stall, Partitioned(trace.events)); }
    RenderChainMoved(sysfs, trace, ChainOf(stall, Partitioned(trace.events)), d);
  }

  lemma ChainStall(stall: TraceEvent, t: Typed)
    ensures ChainOf(stall, t).stall == stall
  {
    hide Walk, ClassifyResumeCause;
  }

  lemma {:induction false} InsertMoved(s: seq<TraceEvent>, e: TraceEvent, d: int)
    ensures MovedSeq(InsertByDuration(s, e), d) == InsertByDuration(MovedSeq(s, d), Moved(d)(e))
  {
    if s == [] || Last(s).duration >= e.duration {
      MapAppend(Moved(d), s, e);
    } else {
      InsertMoved(Init(s), e, d);
      MapAppend(Moved(d), InsertByDuration(Init(s), e), Last(s));
    }
  }

  lemma {:induction false} SortMoved(s: seq<TraceEvent>, d: int)
    ensures MovedSeq(SortByDuration(s), d) == SortByDuration(MovedSeq(s, d))
  {
    if s != [] {
      SortMoved(Init(s), d);
      InsertMoved(SortByDuration(Init(s)), Last(s), d);
    }
  }

  lemma MovedLength(s: seq<TraceEvent>, d: int)
    ensures |MovedSeq(s, d)| == |s|
  {
  }

  lemma {:induction false} MovedPrefix(s: seq<TraceEvent>, d: int, n: nat)
    requires n <= |s|
    ensures MovedSeq(s, d)[..n] == MovedSeq(s[..n], d)
  {
    if n < |s| {
      MovedPrefix(Init(s), d, n);
      assert Init(s)[..n] == s[..n];
    } else {
      assert s[..n] == s;
    }
  }

  lemma {:induction false} StallsMoved(
    sysfs: (u32, u32) -> Option<string>, trace: TraceFile, stalls: seq<TraceEvent>, d: int)
    requires 0 <= trace.monotonicAnchor + d < TWO_64
    requires AllShiftable(trace.events, d) && AllShiftable(stalls, d)
    ensures Explanations(sysfs, MovedTrace(trace, d), MovedSeq(stalls, d)) == Explanations(sysfs, trace, stalls)
  {
    hide Explanation, MovedTrace;
    if stalls != [] {
      StallsMoved(sysfs, trace, Init(stalls), d);
      StallMoved(sysfs, trace, Last(stalls), d);
    }
  }

  /** Add any constant to every event timestamp and to the monotonic anchor: the whole output, its
      wall times included, stays the same. */
  lemma ClockShift(sysfs: (u32, u32) -> Option<string>, trace: TraceFile, slowest: nat, d: int)
    requires 0 <= trace.monotonicAnchor + d < TWO_64 && AllShiftable(trace.events, d)
    ensures Explanations(sysfs, MovedTrace(trace, d), Slowest(MovedTrace(trace, d), slowest))
         == Explanations(sysfs, trace, Slowest(trace, slowest))
  {
    hide SortByDuration, Filter, Explanations, MovedSeq;
    var blocks := Partitioned(trace.events).block;
    PartitionMoved(trace.events, d);
    SortMoved(blocks, d);
    SlowestAreSlowest(trace, slowest);
    var sorted := SortByDuration(blocks);
    var top := Slowest(trace, slowest);
    forall e | e in top ensures Shiftable(e, d) {
      assert e in multiset(top);
    }
    assert Partitioned(MovedTrace(trace, d).events).block == MovedSeq(blocks, d);
    MovedLength(sorted, d);
    if slowest <= |sorted| {
      MovedPrefix(sorted, d, slowest);
    }
    assert Slowest(MovedTrace(trace, d), slowest) == MovedSeq(top, d);
    StallsMoved(sysfs, trace, top, d);
  }
}
