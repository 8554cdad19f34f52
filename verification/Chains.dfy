/** Shape, order and termination of the backward walk. */
module Chains {
  import opened Collections
  import opened Schema
  import opened Trace
  import opened Causal
  import opened Nearest

  // ------------------------------------------------------------------- links

  /** What the join from a wait to its wake guarantees. */
  lemma WakeFacts(wait: TraceEvent, typed: Typed)
    ensures FindWake(wait, typed).Some? ==>
      var wake := FindWake(wait, typed).value;
      wake in typed.futexWake && wake.key == wait.key &&
      wake.timestamp <= wait.timestamp <= wake.timestamp + MATCH_WINDOW_NS
  {
    PrecedingFacts(typed.futexWake, wait.timestamp, KeyIs(wait.key));
  }

  /** What the search before a wake guarantees: the waker's own latest wait or I/O before the wake began. */
  lemma PriorFacts(wake: TraceEvent, typed: Typed)
    ensures var start := WakeStart(wake);
      match CauseOfWake(wake, typed)
      case Futex(w) => w in typed.futexWait && w.tid == wake.tid && w.timestamp <= start <= w.timestamp + MATCH_WINDOW_NS
      case BlockIo(i) => i in typed.blockIo && i.tid == wake.tid && i.timestamp <= start <= i.timestamp + MATCH_WINDOW_NS
      case Unknown =>
        forall e :: (e in typed.futexWait || e in typed.blockIo) && e.tid == wake.tid ==> !Preceding(start, TidIs(wake.tid))(e)
  {
    PrecedingFacts(typed.futexWait, WakeStart(wake), TidIs(wake.tid));
    PrecedingFacts(typed.blockIo, WakeStart(wake), TidIs(wake.tid));
  }

  // ------------------------------------------------------------- size and order

  function CountWakes(links: seq<Link>): nat {
    if links == [] then 0 else CountWakes(links[1..]) + if links[0].WokenBy? then 1 else 0
  }

  lemma CountMore(link: Link, rest: seq<Link>)
    ensures CountWakes([link] + rest) == CountWakes(rest) + if link.WokenBy? then 1 else 0
  {
    assert ([link] + rest)[1..] == rest;
  }

  /** The depth guard bounds the walk: wakes and what explains them alternate, down to depth 8. */
  lemma {:induction false} WalkBound(wait: TraceEvent, typed: Typed, depth: nat)
    requires 1 <= depth <= MAX_CHAIN_DEPTH
    ensures |Walk(wait, typed, depth)| <= 2 * (MAX_CHAIN_DEPTH - depth) + 1
    ensures CountWakes(Walk(wait, typed, depth)) <= MAX_CHAIN_DEPTH - depth + 1
    decreases MAX_CHAIN_DEPTH - depth, 1
  {
    hide NearestPreceding, NearestFollowing;
    var found := FindWake(wait, typed);
    if found.Some? {
      if depth < MAX_CHAIN_DEPTH {
        BeforeBound(found.value, typed, depth);
        CountMore(WokenBy(found.value), BeforeWake(found.value, typed, depth));
      } else {
        CountMore(WokenBy(found.value), []);
      }
    }
  }

  lemma {:induction false} BeforeBound(wake: TraceEvent, typed: Typed, depth: nat)
    requires 1 <= depth < MAX_CHAIN_DEPTH
    ensures |BeforeWake(wake, typed, depth)| <= 2 * (MAX_CHAIN_DEPTH - depth)
    ensures CountWakes(BeforeWake(wake, typed, depth)) <= MAX_CHAIN_DEPTH - depth
    decreases MAX_CHAIN_DEPTH - depth, 0
  {
    hide NearestPreceding, NearestFollowing;
    match CauseOfWake(wake, typed)
    case Futex(next) =>
      WalkBound(next, typed, depth + 1);
      CountMore(OnFutex(wake.tid, next), Walk(next, typed, depth + 1));
    case BlockIo(io) => CountMore(OnBlockIo(wake.tid, io), []);
    case Unknown =>
  }

  predicate IsWake(l: Link) {
    l.WokenBy?
  }

  lemma {:induction false} WakesCounted(links: seq<Link>)
    ensures CountWakes(links) == |Filter(links, IsWake)|
  {
    if links != [] {
      WakesCounted(links[1..]);
      FilterCons(links[0], links[1..], IsWake);
      assert [links[0]] + links[1..] == links;
    }
  }

  /** In every trace a printed chain has at most 16 records and names at most 8 wakes. */
  lemma ChainBound(sysfs: (u32, u32) -> Option<string>, trace: TraceFile, stall: TraceEvent, typed: Typed)
    ensures |Render(sysfs, trace, ChainOf(stall, typed))| <= 16
    ensures |Filter(ChainOf(stall, typed).links, IsWake)| <= 8
  {
    hide NearestPreceding, NearestFollowing;
    var c := ChainOf(stall, typed);
    if c.cause.Futex? {
      WalkBound(c.cause.wait, typed, 1);
    }
    RenderLength(sysfs, c.links);
    WakesCounted(c.links);
  }

  lemma {:induction false} RenderLength(sysfs: (u32, u32) -> Option<string>, links: seq<Link>)
    ensures |RenderLinks(sysfs, links)| == |links|
  {
    if links != [] {
      RenderLength(sysfs, links[1..]);
    }
  }

  /** Timestamps never increase along the links, and none is later than `t`. */
  ghost predicate Descending(links: seq<Link>, t: u64) {
    (forall i :: 0 <= i < |links| ==> links[i].event.timestamp <= t) &&
    forall i, j :: 0 <= i < j < |links| ==> links[j].event.timestamp <= links[i].event.timestamp
  }

  lemma DescendingMore(link: Link, rest: seq<Link>, t: u64)
    requires link.event.timestamp <= t && Descending(rest, link.event.timestamp)
    ensures Descending([link] + rest, t)
  {
  }

  lemma {:induction false} WalkDescends(wait: TraceEvent, typed: Typed, depth: nat)
    ensures Descending(Walk(wait, typed, depth), wait.timestamp)
    decreases MAX_CHAIN_DEPTH - depth, 1
  {
    hide NearestPreceding, NearestFollowing;
    WakeFacts(wait, typed);
    var found := FindWake(wait, typed);
    if found.Some? && depth < MAX_CHAIN_DEPTH {
      BeforeDescends(found.value, typed, depth);
      DescendingMore(WokenBy(found.value), BeforeWake(found.value, typed, depth), wait.timestamp);
    }
  }

  lemma {:induction false} BeforeDescends(wake: TraceEvent, typed: Typed, depth: nat)
    requires depth < MAX_CHAIN_DEPTH
    ensures Descending(BeforeWake(wake, typed, depth), wake.timestamp)
    decreases MAX_CHAIN_DEPTH - depth, 0
  {
    hide NearestPreceding, NearestFollowing;
    PriorFacts(wake, typed);
    var cause := CauseOfWake(wake, typed);
    if cause.Futex? {
      WalkDescends(cause.wait, typed, depth + 1);
      DescendingMore(OnFutex(wake.tid, cause.wait), Walk(cause.wait, typed, depth + 1), wake.timestamp);
    }
  }

  /** After the headline, a chain only ever goes back in time. */
  lemma ChainOrder(stall: TraceEvent, typed: Typed)
    ensures var c := ChainOf(stall, typed);
      c.links != [] ==> c.cause.Futex? && Descending(c.links, c.cause.wait.timestamp)
  {
    hide NearestPreceding, NearestFollowing;
    var c := ChainOf(stall, typed);
    if c.cause.Futex? {
      WalkDescends(c.cause.wait, typed, 1);
    }
  }

  // -------------------------------------------------------------- acyclicity

  /** From `wait` the walk can reach a wait with the same timestamp: the wake found for it takes no
      recorded time and ends with it, and the waker has a wait of its own ending then. */
  ghost predicate StandsStill(wait: TraceEvent, wake: TraceEvent, typed: Typed) {
    && wake.timestamp == wait.timestamp && (wake.duration == 0 || wake.timestamp == 0)
    && exists w :: w in typed.futexWait && w.tid == wake.tid && w.timestamp == wait.timestamp
  }

  /** Then the search before the wake finds that wait or another one ending with it. */
  lemma StillFound(wake: TraceEvent, typed: Typed, w: TraceEvent)
    requires wake.duration == 0 || wake.timestamp == 0
    requires w in typed.futexWait && w.tid == wake.tid && w.timestamp == wake.timestamp
    ensures CauseOfWake(wake, typed).Futex? && CauseOfWake(wake, typed).wait.timestamp == wake.timestamp
  {
    hide NearestPreceding;
    PrecedingFacts(typed.futexWait, WakeStart(wake), TidIs(wake.tid));
    PrecedingFacts(typed.blockIo, WakeStart(wake), TidIs(wake.tid));
    assert Preceding(WakeStart(wake), TidIs(wake.tid))(w);
  }

  /** One hop of the walk goes to a wait with the same timestamp exactly when the recorded events allow it. */
  lemma HopStandsStillIff(wait: TraceEvent, typed: Typed)
    requires FindWake(wait, typed).Some?
    ensures var wake := FindWake(wait, typed).value; var cause := CauseOfWake(wake, typed);
      cause.Futex? && cause.wait.timestamp == wait.timestamp <==> StandsStill(wait, wake, typed)
  {
    hide NearestPreceding, CauseOfWake;
    var wake := FindWake(wait, typed).value;
    WakeFacts(wait, typed);
    PriorFacts(wake, typed);
    if StandsStill(wait, wake, typed) {
      var w :| w in typed.futexWait && w.tid == wake.tid && w.timestamp == wait.timestamp;
      StillFound(wake, typed, w);
    }
  }

  /** No recorded wait stands still. */
  ghost predicate NoStandstill(typed: Typed) {
    forall wait :: wait in typed.futexWait && FindWake(wait, typed).Some? ==>
      !StandsStill(wait, FindWake(wait, typed).value, typed)
  }

  /** Every hop between recorded waits goes strictly back in time. */
  ghost predicate HopsGoBack(typed: Typed) {
    forall wait :: wait in typed.futexWait && FindWake(wait, typed).Some? ==>
      var cause := CauseOfWake(FindWake(wait, typed).value, typed);
      cause.Futex? ==> cause.wait.timestamp < wait.timestamp
  }

  lemma HopsGoBackIff(typed: Typed)
    ensures HopsGoBack(typed) <==> NoStandstill(typed)
  {
    hide NearestPreceding, ClassifyPriorCause, StandsStill;
    forall wait | wait in typed.futexWait && FindWake(wait, typed).Some?
      ensures var wake := FindWake(wait, typed).value; var cause := CauseOfWake(wake, typed);
        (cause.Futex? ==> cause.wait.timestamp < wait.timestamp) <==> !StandsStill(wait, wake, typed)
    {
      HopStandsStillIff(wait, typed);
      if CauseOfWake(FindWake(wait, typed).value, typed).Futex? {
        HopBack(wait, typed);
      }
    }
  }

  lemma HopBack(wait: TraceEvent, typed: Typed)
    requires FindWake(wait, typed).Some? && CauseOfWake(FindWake(wait, typed).value, typed).Futex?
    ensures CauseOfWake(FindWake(wait, typed).value, typed).wait.timestamp <= wait.timestamp
    ensures CauseOfWake(FindWake(wait, typed).value, typed).wait in typed.futexWait
  {
    WakeFacts(wait, typed);
    PriorFacts(FindWake(wait, typed).value, typed);
  }

  /** No wake is instantaneous, and none claims to have begun before time zero. */
  ghost predicate PositiveWakes(typed: Typed) {
    forall w :: w in typed.futexWake ==> 0 < w.duration <= w.timestamp
  }

  lemma PositiveWakesMove(typed: Typed)
    requires PositiveWakes(typed)
    ensures NoStandstill(typed)
  {
    forall wait | wait in typed.futexWait { WakeFacts(wait, typed); }
  }

  /** The same walk with no depth guard: it terminates because every hop goes strictly back. */
  ghost function FreeWalk(wait: TraceEvent, typed: Typed): seq<Link>
    requires NoStandstill(typed) && wait in typed.futexWait
    decreases wait.timestamp, 1
  {
    match FindWake(wait, typed)
    case None => []
    case Some(wake) => [WokenBy(wake)] + FreeBefore(wait, wake, typed)
  }

  ghost function FreeBefore(wait: TraceEvent, wake: TraceEvent, typed: Typed): seq<Link>
    requires NoStandstill(typed) && wait in typed.futexWait && FindWake(wait, typed) == Some(wake)
    decreases wait.timestamp, 0
  {
    HopsGoBackIff(typed);
    match CauseOfWake(wake, typed)
    case Futex(next) =>
      HopBack(wait, typed);
      [OnFutex(wake.tid, next)] + FreeWalk(next, typed)
    case BlockIo(io) => [OnBlockIo(wake.tid, io)]
    case Unknown => []
  }

  function Take<T>(s: seq<T>, n: nat): seq<T> {
    if n <= |s| then s[..n] else s
  }

  /** The guard only ever truncates: the guarded walk is exactly the first records of the unguarded one. */
  lemma {:induction false} GuardTruncates(wait: TraceEvent, typed: Typed, depth: nat)
    requires NoStandstill(typed) && wait in typed.futexWait && 1 <= depth <= MAX_CHAIN_DEPTH
    ensures Walk(wait, typed, depth) == Take(FreeWalk(wait, typed), 2 * (MAX_CHAIN_DEPTH - depth) + 1)
    decreases MAX_CHAIN_DEPTH - depth, 1
  {
    hide NearestPreceding, ClassifyPriorCause, NoStandstill;
    var found := FindWake(wait, typed);
    if found.Some? {
      TakeMore(WokenBy(found.value), FreeBefore(wait, found.value, typed), 2 * (MAX_CHAIN_DEPTH - depth));
      if depth < MAX_CHAIN_DEPTH {
        GuardTruncatesBefore(wait, found.value, typed, depth);
      }
    }
  }

  lemma {:induction false} GuardTruncatesBefore(wait: TraceEvent, wake: TraceEvent, typed: Typed, depth: nat)
    requires NoStandstill(typed) && wait in typed.futexWait && FindWake(wait, typed) == Some(wake)
    requires 1 <= depth < MAX_CHAIN_DEPTH
    ensures BeforeWake(wake, typed, depth) == Take(FreeBefore(wait, wake, typed), 2 * (MAX_CHAIN_DEPTH - depth))
    decreases MAX_CHAIN_DEPTH - depth, 0
  {
    hide NearestPreceding, ClassifyPriorCause, NoStandstill;
    var cause := CauseOfWake(wake, typed);
    if cause.Futex? {
      HopBack(wait, typed);
      GuardTruncates(cause.wait, typed, depth + 1);
      TakeMore(OnFutex(wake.tid, cause.wait), FreeWalk(cause.wait, typed), 2 * (MAX_CHAIN_DEPTH - depth) - 1);
    }
  }

  lemma TakeMore<T>(x: T, s: seq<T>, n: nat)
    ensures Take([x] + s, n + 1) == [x] + Take(s, n)
    ensures Take(s, 0) == []
  {
  }

  // ------------------------------------------------------------- no repetition

  /** Each link's event is a recorded one of the right kind. */
  ghost predicate Sourced(links: seq<Link>, typed: Typed) {
    forall l :: l in links ==>
      match l
      case WokenBy(e) => e in typed.futexWake
      case OnFutex(_, e) => e in typed.futexWait
      case OnBlockIo(_, e) => e in typed.blockIo
  }

  /** The waits go strictly back in time, all before `t`; a request ends the chain. */
  ghost predicate WaitsGoBack(links: seq<Link>, t: u64) {
    && (forall l :: l in links && l.OnFutex? ==> l.event.timestamp < t)
    && (forall i, j :: 0 <= i < j < |links| && links[i].OnFutex? && links[j].OnFutex? ==>
      links[j].event.timestamp < links[i].event.timestamp)
    && (forall i :: 0 <= i < |links| - 1 ==> !links[i].OnBlockIo?)
  }

  /** A wake explained by a wait is followed by that wait, and no wake comes twice. */
  ghost predicate WakesOnce(links: seq<Link>, typed: Typed) {
    && (forall l :: l in links && l.WokenBy? && CauseOfWake(l.event, typed).Futex? ==>
      OnFutex(l.event.tid, CauseOfWake(l.event, typed).wait) in links)
    && (forall i, j :: 0 <= i < j < |links| && links[i].WokenBy? && links[j].WokenBy? ==> links[i].event != links[j].event)
  }

  ghost predicate Progress(links: seq<Link>, typed: Typed, t: u64) {
    Sourced(links, typed) && WaitsGoBack(links, t) && WakesOnce(links, typed)
  }

  /** Without a standstill every wait of the unguarded walk is strictly earlier than the one before, and
      no wake occurs twice: it would lead to the same wait again. */
  lemma {:induction false} FreeWalkProgress(wait: TraceEvent, typed: Typed)
    requires NoStandstill(typed) && wait in typed.futexWait
    ensures Progress(FreeWalk(wait, typed), typed, wait.timestamp)
    decreases wait.timestamp, 1
  {
    hide NearestPreceding, ClassifyPriorCause, NoStandstill;
    WakeFacts(wait, typed);
    var found := FindWake(wait, typed);
    if found.Some? {
      FreeBeforeProgress(wait, found.value, typed);
      ProgressMore(WokenBy(found.value), FreeBefore(wait, found.value, typed), typed, wait.timestamp);
    }
  }

  lemma {:induction false} FreeBeforeProgress(wait: TraceEvent, wake: TraceEvent, typed: Typed)
    requires NoStandstill(typed) && wait in typed.futexWait && FindWake(wait, typed) == Some(wake)
    ensures var links, cause := FreeBefore(wait, wake, typed), CauseOfWake(wake, typed);
      && Progress(links, typed, wait.timestamp) && WokenBy(wake) !in links
      && (cause.Futex? ==> OnFutex(wake.tid, cause.wait) in links)
    decreases wait.timestamp, 0
  {
    hide NearestPreceding, ClassifyPriorCause, NoStandstill;
    PriorFacts(wake, typed);
    var cause := CauseOfWake(wake, typed);
    if cause.Futex? {
      HopsGoBackIff(typed);
      HopBack(wait, typed);
      var rest := FreeWalk(cause.wait, typed);
      FreeWalkProgress(cause.wait, typed);
      ProgressMore(OnFutex(wake.tid, cause.wait), rest, typed, wait.timestamp);
      assert OnFutex(wake.tid, cause.wait) !in rest;
    }
  }

  lemma SourcedMore(link: Link, rest: seq<Link>, typed: Typed)
    requires Sourced([link], typed) && Sourced(rest, typed)
    ensures Sourced([link] + rest, typed)
  {
    assert link in [link];
  }

  lemma WaitsGoBackMore(link: Link, rest: seq<Link>, t: u64)
    requires !link.OnBlockIo?
    requires if link.OnFutex? then link.event.timestamp < t && WaitsGoBack(rest, link.event.timestamp) else WaitsGoBack(rest, t)
    ensures WaitsGoBack([link] + rest, t)
  {
    var links := [link] + rest;
    assert forall i :: 0 < i < |links| ==> links[i] == rest[i - 1];
    forall j | 0 < j < |links| && link.OnFutex? && links[j].OnFutex? ensures links[j].event.timestamp < link.event.timestamp {
      assert links[j] in rest;
    }
  }

  lemma WakesOnceMore(link: Link, rest: seq<Link>, typed: Typed)
    requires WakesOnce(rest, typed) && (link.WokenBy? ==> link !in rest)
    requires link.WokenBy? && CauseOfWake(link.event, typed).Futex? ==>
      OnFutex(link.event.tid, CauseOfWake(link.event, typed).wait) in rest
    ensures WakesOnce([link] + rest, typed)
  {
    hide CauseOfWake;
    var links := [link] + rest;
    assert forall i :: 0 < i < |links| ==> links[i] == rest[i - 1];
    forall j | 0 < j < |links| && link.WokenBy? && links[j].WokenBy? ensures links[j].event != link.event {
      assert links[j] in rest;
    }
  }

  lemma ProgressMore(link: Link, rest: seq<Link>, typed: Typed, t: u64)
    requires Sourced([link], typed) && !link.OnBlockIo?
    requires link.OnFutex? ==> link.event.timestamp < t && Progress(rest, typed, link.event.timestamp)
    requires link.WokenBy? ==> Progress(rest, typed, t) && link !in rest
    requires link.WokenBy? && CauseOfWake(link.event, typed).Futex? ==>
      OnFutex(link.event.tid, CauseOfWake(link.event, typed).wait) in rest
    ensures Progress([link] + rest, typed, t)
  {
    hide CauseOfWake, Sourced, WaitsGoBack, WakesOnce;
    SourcedMore(link, rest, typed);
    WaitsGoBackMore(link, rest, t);
    WakesOnceMore(link, rest, typed);
  }

  /** Over a recorded trace without a standstill, no event appears twice in a chain, nor does the wait in
      its headline appear again. */
  lemma NoEventRepeats(stall: TraceEvent, events: seq<TraceEvent>)
    requires NoStandstill(Partitioned(events))
    ensures var c := ChainOf(stall, Partitioned(events));
      && (forall i, j :: 0 <= i < j < |c.links| ==> c.links[i].event != c.links[j].event)
      && (c.cause.Futex? ==> forall l :: l in c.links ==> l.event != c.cause.wait)
  {
    hide NearestPreceding, NearestFollowing, ClassifyPriorCause, NoStandstill;
    var typed := Partitioned(events);
    var c := ChainOf(stall, typed);
    if c.cause.Futex? {
      FollowingFacts(typed.futexWait, stall.timestamp, TidIs(stall.tid));
      GuardTruncates(c.cause.wait, typed, 1);
      FreeWalkProgress(c.cause.wait, typed);
      EventsDiffer(FreeWalk(c.cause.wait, typed), events, c.cause.wait);
    }
  }

  /** Links of different kinds hold events of different types. */
  lemma EventsDiffer(links: seq<Link>, events: seq<TraceEvent>, wait: TraceEvent)
    requires Progress(links, Partitioned(events), wait.timestamp) && wait in Partitioned(events).futexWait
    ensures forall i, j :: 0 <= i < j < |links| ==> links[i].event != links[j].event
    ensures forall l :: l in links ==> l.event != wait
  {
    hide CauseOfWake;
    FilterMembers(events, TypeIs(EVENT_FUTEX_WAIT));
    FilterMembers(events, TypeIs(EVENT_FUTEX_WAKE));
    FilterMembers(events, TypeIs(EVENT_BLOCK_IO));
    forall l | l in links ensures l.event.eventType == LinkType(l) {
    }
    forall i, j | 0 <= i < j < |links| ensures links[i].event != links[j].event {
      assert links[i] in links && links[j] in links;
    }
  }

  function LinkType(l: Link): u8 {
    match l
    case WokenBy(_) => EVENT_FUTEX_WAKE
    case OnFutex(_, _) => EVENT_FUTEX_WAIT
    case OnBlockIo(_, _) => EVENT_BLOCK_IO
  }

  // ------------------------------------------------ with positive wake durations

  /** Strictly descending from wake to wake and from wait to wait, and strictly from a wake to the wait
      before it; only a wait and the wake ending it may share a timestamp. */
  ghost predicate Acyclic(links: seq<Link>, t: int) {
    (forall i :: 0 <= i < |links| ==> links[i].event.timestamp <= t) &&
    (forall i, j :: 0 <= i < j < |links| ==>
      links[j].event.timestamp < links[i].event.timestamp ||
      (links[j].event.timestamp == links[i].event.timestamp && j == i + 1 && links[i].OnFutex? && links[j].WokenBy?))
  }

  /** When wakes take recorded time, the unguarded walk is strictly descending. */
  lemma {:induction false} FreeWalkAcyclic(wait: TraceEvent, typed: Typed)
    requires PositiveWakes(typed) && wait in typed.futexWait
    ensures NoStandstill(typed)
    ensures Acyclic(FreeWalk(wait, typed), wait.timestamp)
    ensures FreeWalk(wait, typed) != [] ==> FreeWalk(wait, typed)[0].WokenBy?
    ensures Before(FreeWalk(wait, typed), 1, wait.timestamp)
    decreases wait.timestamp, 1
  {
    hide NearestPreceding, NearestFollowing, ClassifyPriorCause, NoStandstill;
    PositiveWakesMove(typed);
    WakeFacts(wait, typed);
    var found := FindWake(wait, typed);
    if found.Some? {
      FreeBeforeAcyclic(wait, found.value, typed);
      AcyclicMore(WokenBy(found.value), FreeBefore(wait, found.value, typed), wait.timestamp);
    }
  }

  lemma {:induction false} FreeBeforeAcyclic(wait: TraceEvent, wake: TraceEvent, typed: Typed)
    requires PositiveWakes(typed) && NoStandstill(typed) && wait in typed.futexWait && FindWake(wait, typed) == Some(wake)
    ensures Acyclic(FreeBefore(wait, wake, typed), wake.timestamp) && Before(FreeBefore(wait, wake, typed), 0, wake.timestamp)
    decreases wait.timestamp, 0
  {
    hide NearestPreceding, NearestFollowing, ClassifyPriorCause, NoStandstill;
    WakeFacts(wait, typed);
    PriorFacts(wake, typed);
    var cause := CauseOfWake(wake, typed);
    if cause.Futex? {
      FreeWalkAcyclic(cause.wait, typed);
      AcyclicMore(OnFutex(wake.tid, cause.wait), FreeWalk(cause.wait, typed), wake.timestamp);
    }
  }

  /** From position `from` on, every event is strictly before `t`. */
  ghost predicate Before(links: seq<Link>, from: nat, t: int) {
    forall i :: from <= i < |links| ==> links[i].event.timestamp < t
  }

  lemma AcyclicMore(link: Link, rest: seq<Link>, t: int)
    requires link.event.timestamp <= t
    requires Acyclic(rest, link.event.timestamp)
    requires Before(rest, if link.OnFutex? then 1 else 0, link.event.timestamp)
    requires link.OnFutex? && rest != [] ==> rest[0].WokenBy?
    ensures Acyclic([link] + rest, t)
    ensures link.WokenBy? ==> Before([link] + rest, 1, t)
    ensures link.event.timestamp < t ==> Before([link] + rest, 0, t)
  {
  }

  /** The same wait and wake over and over. */
  function Repeating(wait: TraceEvent, wake: TraceEvent, hops: nat): (r: seq<Link>)
    ensures |r| == 2 * hops + 1
  {
    [WokenBy(wake)] + if hops == 0 then [] else [OnFutex(wake.tid, wait)] + Repeating(wait, wake, hops - 1)
  }

  /** A hop that comes back to the same wait is repeated until the depth guard stops it. */
  lemma {:induction false} LoopRunsToTheGuard(wait: TraceEvent, wake: TraceEvent, typed: Typed, depth: nat)
    requires 1 <= depth <= MAX_CHAIN_DEPTH
    requires FindWake(wait, typed) == Some(wake) && CauseOfWake(wake, typed) == Futex(wait)
    ensures Walk(wait, typed, depth) == Repeating(wait, wake, MAX_CHAIN_DEPTH - depth)
    decreases MAX_CHAIN_DEPTH - depth
  {
    hide NearestPreceding, NearestFollowing;
    if depth < MAX_CHAIN_DEPTH {
      LoopRunsToTheGuard(wait, wake, typed, depth + 1);
    }
  }

  /** Such a trace exists: a zero-length wake by the waiter itself, stamped like its wait. Its chain
      repeats one wait until it reaches the 16-record limit. */
  lemma GuardIsNeeded(sysfs: (u32, u32) -> Option<string>, stall: TraceEvent, wait: TraceEvent, wake: TraceEvent)
    requires stall == TraceEvent(100, 50, 0, 1, 7, EVENT_SCHED_BLOCK, [])
    requires wait == TraceEvent(100, 60, 9, 1, 7, EVENT_FUTEX_WAIT, [])
    requires wake == TraceEvent(100, 0, 9, 1, 7, EVENT_FUTEX_WAKE, [])
    ensures var trace := TraceFile(0, 0, [stall, wait, wake]);
      var chain := ChainOf(stall, Partitioned(trace.events));
      chain.links == Repeating(wait, wake, 7) && |Render(sysfs, trace, chain)| == 16
  {
    var typed := Typed([stall], [wait], [wake], []);
    ThreeEvents(stall, wait, wake);
    UniqueFollowing(typed.futexWait, 100, TidIs(7), wait);
    PrecedingFacts(typed.blockIo, 100, TidIs(7));
    assert ClassifyResumeCause(7, 100, typed) == Futex(wait);
    SelfWake(wait, wake, typed);
    LoopRunsToTheGuard(wait, wake, typed, 1);
    RenderLength(sysfs, Repeating(wait, wake, 7));
  }

  lemma SelfWake(wait: TraceEvent, wake: TraceEvent, typed: Typed)
    requires typed.futexWait == [wait] && typed.futexWake == [wake] && typed.blockIo == []
    requires wait.timestamp == wake.timestamp && wake.duration == 0 && wait.key == wake.key && wait.tid == wake.tid
    ensures FindWake(wait, typed) == Some(wake) && CauseOfWake(wake, typed) == Futex(wait)
  {
    UniquePreceding(typed.futexWake, wait.timestamp, KeyIs(wait.key), wake);
    UniquePreceding(typed.futexWait, WakeStart(wake), TidIs(wake.tid), wait);
    PrecedingFacts(typed.blockIo, WakeStart(wake), TidIs(wake.tid));
  }

  lemma ThreeEvents(stall: TraceEvent, wait: TraceEvent, wake: TraceEvent)
    requires stall.eventType == EVENT_SCHED_BLOCK && wait.eventType == EVENT_FUTEX_WAIT && wake.eventType == EVENT_FUTEX_WAKE
    ensures Partitioned([stall, wait, wake]) == Typed([stall], [wait], [wake], [])
  {
    hide Filter;
    FilterThree(stall, wait, wake, TypeIs(EVENT_SCHED_BLOCK));
    FilterThree(stall, wait, wake, TypeIs(EVENT_FUTEX_WAIT));
    FilterThree(stall, wait, wake, TypeIs(EVENT_FUTEX_WAKE));
    FilterThree(stall, wait, wake, TypeIs(EVENT_BLOCK_IO));
  }
}
