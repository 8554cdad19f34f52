/**
 * The causal inference engine: bounded-window nearest-match joins, the backward
 * walk over waits and wakes, and the ranking of stalls.
 *
 * A chain is kept as the events the walk chose; `Render` turns it into the
 * records the tool prints.
 */
module Causal {
  import opened Collections
  import opened Schema
  import opened Trace

  const MATCH_WINDOW_NS: u64 := 5_000_000
  const MAX_CHAIN_DEPTH: nat := 8

  datatype Typed = Typed(
    block: seq<TraceEvent>, futexWait: seq<TraceEvent>, futexWake: seq<TraceEvent>, blockIo: seq<TraceEvent>)

  function TypeIs(kind: u8): TraceEvent -> bool { (e: TraceEvent) => e.eventType == kind }

  function TidIs(tid: u32): TraceEvent -> bool { (e: TraceEvent) => e.tid == tid }

  function KeyIs(key: u64): TraceEvent -> bool { (e: TraceEvent) => e.key == key }

  /** The events of each type, in arrival order. */
  function Partitioned(events: seq<TraceEvent>): Typed {
    Typed(
      Filter(events, TypeIs(EVENT_SCHED_BLOCK)),
      Filter(events, TypeIs(EVENT_FUTEX_WAIT)),
      Filter(events, TypeIs(EVENT_FUTEX_WAKE)),
      Filter(events, TypeIs(EVENT_BLOCK_IO)))
  }

  /** `list` holds exactly the events of one type, each as often and in the order it arrived. */
  ghost predicate Picks(events: seq<TraceEvent>, list: seq<TraceEvent>, kind: u8) {
    && Subsequence(list, events)
    && forall e: TraceEvent :: multiset(list)[e] == if e.eventType == kind then multiset(events)[e] else 0
  }

  lemma PartitionPicks(events: seq<TraceEvent>)
    ensures var t := Partitioned(events);
      Picks(events, t.block, 0) && Picks(events, t.futexWait, 1) && Picks(events, t.futexWake, 2) && Picks(events, t.blockIo, 3)
  {
    FilterPicks(events, EVENT_SCHED_BLOCK);
    FilterPicks(events, EVENT_FUTEX_WAIT);
    FilterPicks(events, EVENT_FUTEX_WAKE);
    FilterPicks(events, EVENT_BLOCK_IO);
  }

  lemma FilterPicks(events: seq<TraceEvent>, kind: u8)
    ensures Picks(events, Filter(events, TypeIs(kind)), kind)
  {
    hide Filter, Subsequence;
    FilterSubsequence(events, TypeIs(kind));
    forall e: TraceEvent { FilterMultiset(events, TypeIs(kind), e); }
  }

  method Partition(events: seq<TraceEvent>) returns (t: Typed)
    ensures t == Partitioned(events)
    ensures Picks(events, t.block, 0) && Picks(events, t.futexWait, 1)
    ensures Picks(events, t.futexWake, 2) && Picks(events, t.blockIo, 3)
  {
    var block, futexWait, futexWake, blockIo := [], [], [], [];
    for i := 0 to |events|
      invariant Typed(block, futexWait, futexWake, blockIo) == Partitioned(events[..i])
    {
      var e := events[i];
      assert events[..i + 1][..i] == events[..i];
      if e.eventType == EVENT_SCHED_BLOCK {
        block := block + [e];
      } else if e.eventType == EVENT_FUTEX_WAIT {
        futexWait := futexWait + [e];
      } else if e.eventType == EVENT_FUTEX_WAKE {
        futexWake := futexWake + [e];
      } else if e.eventType == EVENT_BLOCK_IO {
        blockIo := blockIo + [e];
      }
    }
    assert events[..|events|] == events;
    t := Typed(block, futexWait, futexWake, blockIo);
    PartitionPicks(events);
  }

  // ------------------------------------------------------- nearest matches

  /** Matches, at or before the anchor, and no more than the window earlier. */
  function Preceding(anchor: u64, pred: TraceEvent -> bool): TraceEvent -> bool {
    (e: TraceEvent) => pred(e) && e.timestamp <= anchor && anchor - e.timestamp <= MATCH_WINDOW_NS
  }

  /** Matches, at or after the anchor, and no more than the window later. */
  function Following(anchor: u64, pred: TraceEvent -> bool): TraceEvent -> bool {
    (e: TraceEvent) => pred(e) && e.timestamp >= anchor && e.timestamp - anchor <= MATCH_WINDOW_NS
  }

  /** `max_by_key` on the timestamp: among several maxima, the last. */
  function LastMax(s: seq<TraceEvent>): Option<TraceEvent> {
    if s == [] then None
    else match LastMax(Init(s))
      case None => Some(Last(s))
      case Some(best) => if best.timestamp > Last(s).timestamp then Some(best) else Some(Last(s))
  }

  /** `min_by_key` on the timestamp: among several minima, the first. */
  function FirstMin(s: seq<TraceEvent>): Option<TraceEvent> {
    if s == [] then None
    else match FirstMin(Init(s))
      case None => Some(Last(s))
      case Some(best) => if best.timestamp <= Last(s).timestamp then Some(best) else Some(Last(s))
  }

  function NearestPreceding(candidates: seq<TraceEvent>, anchor: u64, pred: TraceEvent -> bool): Option<TraceEvent> {
    LastMax(Filter(candidates, Preceding(anchor, pred)))
  }

  function NearestFollowing(candidates: seq<TraceEvent>, anchor: u64, pred: TraceEvent -> bool): Option<TraceEvent> {
    FirstMin(Filter(candidates, Following(anchor, pred)))
  }

  // ----------------------------------------------------------------- causes

  datatype Cause = Futex(wait: TraceEvent) | BlockIo(io: TraceEvent) | Unknown

  function ClassifyResumeCause(tid: u32, resumeTs: u64, typed: Typed): Cause {
    var fw := NearestFollowing(typed.futexWait, resumeTs, TidIs(tid));
    var io := NearestPreceding(typed.blockIo, resumeTs, TidIs(tid));
    match (fw, io)
    case (Some(f), Some(i)) =>
      if SaturatingSub(f.timestamp, resumeTs) <= SaturatingSub(resumeTs, i.timestamp) then Futex(f) else BlockIo(i)
    case (Some(f), None) => Futex(f)
    case (None, Some(i)) => BlockIo(i)
    case (None, None) => Unknown
  }

  function ClassifyPriorCause(tid: u32, anchorTs: u64, typed: Typed): Cause {
    var fw := NearestPreceding(typed.futexWait, anchorTs, TidIs(tid));
    var io := NearestPreceding(typed.blockIo, anchorTs, TidIs(tid));
    match (fw, io)
    case (Some(f), Some(i)) => if f.timestamp >= i.timestamp then Futex(f) else BlockIo(i)
    case (Some(f), None) => Futex(f)
    case (None, Some(i)) => BlockIo(i)
    case (None, None) => Unknown
  }

  // ------------------------------------------------------------------ chains

  /** One record after the headline, with the event it was read from. */
  datatype Link =
    | WokenBy(event: TraceEvent)
    | OnFutex(waker: u32, event: TraceEvent)
    | OnBlockIo(waker: u32, event: TraceEvent)

  datatype Chain = Chain(stall: TraceEvent, cause: Cause, links: seq<Link>)

  function WakeStart(wake: TraceEvent): u64 {
    SaturatingSub(wake.timestamp, wake.duration)
  }

  function FindWake(wait: TraceEvent, typed: Typed): Option<TraceEvent> {
    NearestPreceding(typed.futexWake, wait.timestamp, KeyIs(wait.key))
  }

  function CauseOfWake(wake: TraceEvent, typed: Typed): Cause {
    ClassifyPriorCause(wake.tid, WakeStart(wake), typed)
  }

  /** The backward walk from a futex wait, cut off by the depth guard. */
  function Walk(wait: TraceEvent, typed: Typed, depth: nat): seq<Link>
    decreases MAX_CHAIN_DEPTH - depth, 1
  {
    match FindWake(wait, typed)
    case None => []
    case Some(wake) =>
      [WokenBy(wake)] + if depth >= MAX_CHAIN_DEPTH then [] else BeforeWake(wake, typed, depth)
  }

  /** What the waker had been blocked on just before it started to wake us. */
  function BeforeWake(wake: TraceEvent, typed: Typed, depth: nat): seq<Link>
    requires depth < MAX_CHAIN_DEPTH
    decreases MAX_CHAIN_DEPTH - depth, 0
  {
    match CauseOfWake(wake, typed)
    case Futex(next) => [OnFutex(wake.tid, next)] + Walk(next, typed, depth + 1)
    case BlockIo(io) => [OnBlockIo(wake.tid, io)]
    case Unknown => []
  }

  function ChainOf(stall: TraceEvent, typed: Typed): Chain {
    var cause := ClassifyResumeCause(stall.tid, stall.timestamp, typed);
    Chain(stall, cause, if cause.Futex? then Walk(cause.wait, typed, 1) else [])
  }

  // ------------------------------------------------------------------ records

  /** A device as sysfs names it, or its numbers when sysfs does not. */
  datatype DevName = Named(name: string) | Numbered(major: u32, minor: u32)

  datatype Subject = OnFutexAddress(address: u64) | OnRequest(device: DevName, sector: u32) | NoCorrelatedCause

  datatype Line =
    | Headline(wallNs: u64, tid: u32, durationNs: u64, on: Subject)
    | WokenByLine(tid: u32)
    | BlockedLine(tid: u32, durationNs: u64, on: Subject)

  /** Resolution of a raw device number through a directory that does not change meanwhile. */
  function DeviceName(sysfs: (u32, u32) -> Option<string>, dev: u32): DevName {
    var major, minor := dev / 0x10_0000, dev % 0x10_0000;
    match sysfs(major, minor)
    case Some(name) => Named(name)
    case None => Numbered(major, minor)
  }

  /** The high 12 bits of a device number are its major, the low 20 its minor. */
  lemma DeviceNameSplits(sysfs: (u32, u32) -> Option<string>, major: u32, minor: u32)
    requires major < 4096 && minor < 1048576
    ensures DeviceName(sysfs, major * 1048576 + minor) ==
      match sysfs(major, minor) case Some(name) => Named(name) case None => Numbered(major, minor)
  {
    var dev: u32 := major * 1048576 + minor;
    assert dev / 1048576 == major && dev % 1048576 == minor;
  }

  function RequestSubject(sysfs: (u32, u32) -> Option<string>, key: u64): Subject {
    var (dev, sector) := UnpackBlockKey(key);
    OnRequest(DeviceName(sysfs, dev), sector)
  }

  function RenderLink(sysfs: (u32, u32) -> Option<string>, link: Link): Line {
    match link
    case WokenBy(wake) => WokenByLine(wake.tid)
    case OnFutex(waker, wait) => BlockedLine(waker, wait.duration, OnFutexAddress(wait.key))
    case OnBlockIo(waker, io) => BlockedLine(waker, io.duration, RequestSubject(sysfs, io.key))
  }

  function RenderLinks(sysfs: (u32, u32) -> Option<string>, links: seq<Link>): seq<Line> {
    if links == [] then [] else [RenderLink(sysfs, links[0])] + RenderLinks(sysfs, links[1..])
  }

  function CauseSubject(sysfs: (u32, u32) -> Option<string>, cause: Cause): Subject {
    match cause
    case Futex(wait) => OnFutexAddress(wait.key)
    case BlockIo(io) => RequestSubject(sysfs, io.key)
    case Unknown => NoCorrelatedCause
  }

  function Render(sysfs: (u32, u32) -> Option<string>, trace: TraceFile, c: Chain): seq<Line> {
    var wall := WallNsFor(trace, SaturatingSub(c.stall.timestamp, c.stall.duration));
    [Headline(wall, c.stall.tid, c.stall.duration, CauseSubject(sysfs, c.cause))] + RenderLinks(sysfs, c.links)
  }

  /** What a headline says the stall was on: the futex address of a wait, the device in the high half of a
      request's key and the sector in its low half, or nothing. */
  ghost predicate SaysCause(sysfs: (u32, u32) -> Option<string>, cause: Cause, on: Subject) {
    match cause
    case Futex(w) => on == OnFutexAddress(w.key)
    case BlockIo(r) => on == OnRequest(DeviceName(sysfs, r.key / 0x1_0000_0000), r.key % 0x1_0000_0000)
    case Unknown => on == NoCorrelatedCause
  }

  /** What the record of a link says: who woke, or who was blocked, for how long and on what. */
  ghost predicate SaysLink(sysfs: (u32, u32) -> Option<string>, link: Link, line: Line) {
    match link
    case WokenBy(x) => line == WokenByLine(x.tid)
    case OnFutex(waker, w) => line == BlockedLine(waker, w.duration, OnFutexAddress(w.key))
    case OnBlockIo(waker, r) =>
      line == BlockedLine(waker, r.duration, OnRequest(DeviceName(sysfs, r.key / 0x1_0000_0000), r.key % 0x1_0000_0000))
  }

  /** The headline tells when the stall began by the wall clock, whose it was and how long it took. */
  ghost predicate SaysStall(trace: TraceFile, stall: TraceEvent, line: Line) {
    var began := if stall.duration <= stall.timestamp then stall.timestamp - stall.duration else 0;
    var wall := trace.realtimeAnchor + began - trace.monotonicAnchor;
    && line.Headline? && line.tid == stall.tid && line.durationNs == stall.duration
    && line.wallNs == if wall < 0 then 0 else wall % 0x1_0000_0000_0000_0000
  }

  /** The printed records of a chain: its headline, then one record per link, in order. */
  ghost predicate Prints(sysfs: (u32, u32) -> Option<string>, trace: TraceFile, c: Chain, lines: seq<Line>) {
    && |lines| == |c.links| + 1
    && SaysStall(trace, c.stall, lines[0]) && SaysCause(sysfs, c.cause, lines[0].on)
    && forall k :: 0 <= k < |c.links| ==> SaysLink(sysfs, c.links[k], lines[k + 1])
  }

  lemma {:induction false} RenderLinksAt(sysfs: (u32, u32) -> Option<string>, links: seq<Link>, k: nat)
    ensures |RenderLinks(sysfs, links)| == |links|
    ensures k < |links| ==> SaysLink(sysfs, links[k], RenderLinks(sysfs, links)[k])
  {
    hide DeviceName;
    if links != [] {
      RenderLinksAt(sysfs, links[1..], if k == 0 then 0 else k - 1);
    }
  }

  lemma RenderPrints(sysfs: (u32, u32) -> Option<string>, trace: TraceFile, c: Chain)
    ensures Prints(sysfs, trace, c, Render(sysfs, trace, c))
  {
    hide DeviceName, SaysLink, RenderLinks;
    RenderLinksAt(sysfs, c.links, 0);
    forall k: nat { RenderLinksAt(sysfs, c.links, k); }
  }

  /** The records of a chain are determined by what they say. */
  lemma PrintsIff(sysfs: (u32, u32) -> Option<string>, trace: TraceFile, c: Chain, lines: seq<Line>)
    ensures lines == Render(sysfs, trace, c) <==> Prints(sysfs, trace, c, lines)
  {
    hide DeviceName, Render;
    RenderPrints(sysfs, trace, c);
    var printed := Render(sysfs, trace, c);
    if Prints(sysfs, trace, c, lines) {
      assert lines[0] == printed[0];
      forall k | 0 < k < |lines| ensures lines[k] == printed[k] {
        assert SaysLink(sysfs, c.links[k - 1], lines[k - 1 + 1]) && SaysLink(sysfs, c.links[k - 1], printed[k - 1 + 1]);
      }
    }
  }

  // ------------------------------------------------------------------ ranking

  /** Insert after everything at least as long: equal durations keep their order. */
  function InsertByDuration(s: seq<TraceEvent>, e: TraceEvent): (r: seq<TraceEvent>)
    ensures |r| == |s| + 1
  {
    if s == [] || Last(s).duration >= e.duration then s + [e]
    else InsertByDuration(Init(s), e) + [Last(s)]
  }

  /** A stable sort by descending duration. */
  function SortByDuration(s: seq<TraceEvent>): (r: seq<TraceEvent>)
    ensures |r| == |s|
  {
    if s == [] then [] else InsertByDuration(SortByDuration(Init(s)), Last(s))
  }

  function Slowest(trace: TraceFile, slowest: nat): seq<TraceEvent> {
    var sorted := SortByDuration(Partitioned(trace.events).block);
    if slowest <= |sorted| then sorted[..slowest] else sorted
  }

  function Explanation(sysfs: (u32, u32) -> Option<string>, trace: TraceFile): TraceEvent -> seq<Line> {
    (stall: TraceEvent) => Render(sysfs, trace, ChainOf(stall, Partitioned(trace.events)))
  }

  function Explanations(
    sysfs: (u32, u32) -> Option<string>, trace: TraceFile, stalls: seq<TraceEvent>): seq<seq<Line>>
  {
    MapSeq(Explanation(sysfs, trace), stalls)
  }

  // ------------------------------------------------------- the running engine

  /** The device-name cache. */
  class DevNames {
    const sysfs: (u32, u32) -> Option<string>
    var cache: map<u32, DevName>

    /** Every cached name is the one a fresh lookup would give. */
    ghost predicate Valid()
      reads this
    {
      forall dev :: dev in cache ==> cache[dev] == DeviceName(sysfs, dev)
    }

    constructor (sysfs: (u32, u32) -> Option<string>)
      ensures Valid() && this.sysfs == sysfs && cache == map[]
    {
      this.sysfs := sysfs;
      cache := map[];
    }

    method Name(dev: u32) returns (name: DevName)
      requires Valid()
      modifies this
      ensures Valid() && name == DeviceName(sysfs, dev)
      ensures cache == old(cache)[dev := name]
    {
      if dev in cache {
        return cache[dev];
      }
      var major, minor := dev / 0x10_0000, dev % 0x10_0000;
      name := match sysfs(major, minor) case Some(n) => Named(n) case None => Numbered(major, minor);
      cache := cache[dev := name];
    }

    /** `block I/O (dev ..., sector ...)` for a packed request key. */
    method Request(key: u64) returns (subject: Subject)
      requires Valid()
      modifies this
      ensures Valid() && subject == RequestSubject(sysfs, key)
    {
      var (dev, sector) := UnpackBlockKey(key);
      var name := Name(dev);
      subject := OnRequest(name, sector);
    }
  }

  lemma RenderMore(sysfs: (u32, u32) -> Option<string>, link: Link, rest: seq<Link>)
    ensures RenderLinks(sysfs, [link] + rest) == [RenderLink(sysfs, link)] + RenderLinks(sysfs, rest)
    ensures RenderLinks(sysfs, []) == []
  {
    assert ([link] + rest)[1..] == rest;
  }

  method WalkFromFutexWait(wait: TraceEvent, typed: Typed, devNames: DevNames, depth: nat, before: seq<Line>)
    returns (lines: seq<Line>)
    requires devNames.Valid()
    modifies devNames
    ensures devNames.Valid()
    ensures lines == before + RenderLinks(devNames.sysfs, Walk(wait, typed, depth))
    decreases MAX_CHAIN_DEPTH - depth, 1
  {
    hide NearestPreceding, NearestFollowing;
    lines := before;
    var found := FindWake(wait, typed);
    if found.Some? {
      var wake := found.value;
      lines := lines + [WokenByLine(wake.tid)];
      if depth >= MAX_CHAIN_DEPTH {
        RenderMore(devNames.sysfs, WokenBy(wake), []);
      } else {
        RenderMore(devNames.sysfs, WokenBy(wake), BeforeWake(wake, typed, depth));
        lines := WalkFromWake(wake, typed, devNames, depth, lines);
      }
    }
  }

  method WalkFromWake(wake: TraceEvent, typed: Typed, devNames: DevNames, depth: nat, before: seq<Line>)
    returns (lines: seq<Line>)
    requires devNames.Valid() && depth < MAX_CHAIN_DEPTH
    modifies devNames
    ensures devNames.Valid()
    ensures lines == before + RenderLinks(devNames.sysfs, BeforeWake(wake, typed, depth))
    decreases MAX_CHAIN_DEPTH - depth, 0
  {
    hide NearestPreceding, NearestFollowing;
    match ClassifyPriorCause(wake.tid, WakeStart(wake), typed)
    case Futex(next) =>
      RenderMore(devNames.sysfs, OnFutex(wake.tid, next), Walk(next, typed, depth + 1));
      lines := before + [BlockedLine(wake.tid, next.duration, OnFutexAddress(next.key))];
      lines := WalkFromFutexWait(next, typed, devNames, depth + 1, lines);
    case BlockIo(io) =>
      RenderMore(devNames.sysfs, OnBlockIo(wake.tid, io), []);
      var subject := devNames.Request(io.key);
      lines := before + [BlockedLine(wake.tid, io.duration, subject)];
    case Unknown =>
      lines := before;
  }

  method ExplainOneStall(block: TraceEvent, trace: TraceFile, typed: Typed, devNames: DevNames)
    returns (lines: seq<Line>)
    requires devNames.Valid()
    modifies devNames
    ensures devNames.Valid()
    ensures lines == Render(devNames.sysfs, trace, ChainOf(block, typed))
    ensures Prints(devNames.sysfs, trace, ChainOf(block, typed), lines)
  {
    hide NearestPreceding, NearestFollowing, Prints;
    RenderPrints(devNames.sysfs, trace, ChainOf(block, typed));
    var wall := WallNsFor(trace, SaturatingSub(block.timestamp, block.duration));
    match ClassifyResumeCause(block.tid, block.timestamp, typed)
    case Futex(wait) =>
      lines := [Headline(wall, block.tid, block.duration, OnFutexAddress(wait.key))];
      lines := WalkFromFutexWait(wait, typed, devNames, 1, lines);
    case BlockIo(io) =>
      var subject := devNames.Request(io.key);
      lines := [Headline(wall, block.tid, block.duration, subject)];
    case Unknown =>
      lines := [Headline(wall, block.tid, block.duration, NoCorrelatedCause)];
  }

  /** The `slowest` longest stalls, each with its chain, through one shared cache. */
  method Explain(trace: TraceFile, slowest: nat, sysfs: (u32, u32) -> Option<string>)
    returns (chains: seq<seq<Line>>)
    ensures chains == Explanations(sysfs, trace, Slowest(trace, slowest))
    ensures var typed := Partitioned(trace.events); var ranked := SortByDuration(typed.block);
      && |chains| == (if slowest < |ranked| then slowest else |ranked|)
      && forall i :: 0 <= i < |chains| ==> Prints(sysfs, trace, ChainOf(ranked[i], typed), chains[i])
  {
    hide ChainOf, Render, Prints, Picks, SortByDuration, Partitioned;
    var typed := Partition(trace.events);
    var blocks := SortByDuration(typed.block);
    if slowest < |blocks| {
      blocks := blocks[..slowest];
    }
    var devNames := new DevNames(sysfs);
    chains := ExplainStalls(blocks, trace, typed, devNames);
  }

  method ExplainStalls(blocks: seq<TraceEvent>, trace: TraceFile, typed: Typed, devNames: DevNames)
    returns (chains: seq<seq<Line>>)
    requires devNames.Valid() && typed == Partitioned(trace.events)
    modifies devNames
    ensures chains == Explanations(devNames.sysfs, trace, blocks)
    ensures |chains| == |blocks|
    ensures forall i :: 0 <= i < |chains| ==> Prints(devNames.sysfs, trace, ChainOf(blocks[i], typed), chains[i])
  {
    hide ChainOf, Render, Partitioned, Prints;
    chains := [];
    for i := 0 to |blocks|
      invariant devNames.Valid()
      invariant chains == Explanations(devNames.sysfs, trace, blocks[..i])
      invariant |chains| == i && forall j :: 0 <= j < i ==> Prints(devNames.sysfs, trace, ChainOf(blocks[j], typed), chains[j])
    {
      var lines := ExplainOneStall(blocks[i], trace, typed, devNames);
      assert blocks[..i + 1] == blocks[..i] + [blocks[i]];
      MapAppend(Explanation(devNames.sysfs, trace), blocks[..i], blocks[i]);
      chains := chains + [lines];
    }
    assert blocks[..|blocks|] == blocks;
  }
}
