/**
 * What the tool's searches and its backward walk find, said of the recorded
 * events alone: which wake, wait or request is chosen, and when a chain goes on
 * or ends.
 */
module Joins {
  import opened Collections
  import opened Schema
  import opened Trace
  import opened Causal
  import opened Nearest

  // ------------------------------------------------------------ the searches

  /** The thread's event ended at or before the anchor, no more than 5 ms earlier. */
  predicate EndedBefore(e: TraceEvent, tid: u32, anchor: u64) {
    e.tid == tid && e.timestamp <= anchor <= e.timestamp + 5_000_000
  }

  /** The thread's event ended at or after the anchor, no more than 5 ms later. */
  predicate EndedAfter(e: TraceEvent, tid: u32, anchor: u64) {
    e.tid == tid && anchor <= e.timestamp <= anchor + 5_000_000
  }

  /** The latest of the thread's events in `c` that ended before the anchor; the last of several at once. */
  ghost predicate LastBefore(c: seq<TraceEvent>, tid: u32, anchor: u64, i: nat) {
    i < |c| && EndedBefore(c[i], tid, anchor) &&
    forall j :: 0 <= j < |c| && EndedBefore(c[j], tid, anchor) ==>
      c[j].timestamp < c[i].timestamp || (c[j].timestamp == c[i].timestamp && j <= i)
  }

  /** The earliest of the thread's events in `c` that ended after the anchor; the first of several at once. */
  ghost predicate FirstAfter(c: seq<TraceEvent>, tid: u32, anchor: u64, i: nat) {
    i < |c| && EndedAfter(c[i], tid, anchor) &&
    forall j :: 0 <= j < |c| && EndedAfter(c[j], tid, anchor) ==>
      c[i].timestamp < c[j].timestamp || (c[i].timestamp == c[j].timestamp && i <= j)
  }

  ghost predicate LastEnded(c: seq<TraceEvent>, tid: u32, anchor: u64, e: TraceEvent) {
    exists i: nat :: LastBefore(c, tid, anchor, i) && c[i] == e
  }

  ghost predicate FirstEnded(c: seq<TraceEvent>, tid: u32, anchor: u64, e: TraceEvent) {
    exists i: nat :: FirstAfter(c, tid, anchor, i) && c[i] == e
  }

  lemma PrecedingIs(c: seq<TraceEvent>, tid: u32, anchor: u64, e: TraceEvent)
    ensures NearestPreceding(c, anchor, TidIs(tid)) == Some(e) <==> LastEnded(c, tid, anchor, e)
    ensures NearestPreceding(c, anchor, TidIs(tid)).None? <==> forall d :: d in c ==> !EndedBefore(d, tid, anchor)
    ensures LastEnded(c, tid, anchor, e) ==>
      e in c && EndedBefore(e, tid, anchor) && forall d :: d in c && EndedBefore(d, tid, anchor) ==> d.timestamp <= e.timestamp
  {
    hide NearestPreceding;
    NearestPrecedingIff(c, anchor, TidIs(tid), e);
    assert forall d :: Preceding(anchor, TidIs(tid))(d) <==> EndedBefore(d, tid, anchor);
    assert forall i: nat :: LatestAt(c, Preceding(anchor, TidIs(tid)), i) <==> LastBefore(c, tid, anchor, i);
  }

  lemma FollowingIs(c: seq<TraceEvent>, tid: u32, anchor: u64, e: TraceEvent)
    ensures NearestFollowing(c, anchor, TidIs(tid)) == Some(e) <==> FirstEnded(c, tid, anchor, e)
    ensures NearestFollowing(c, anchor, TidIs(tid)).None? <==> forall d :: d in c ==> !EndedAfter(d, tid, anchor)
    ensures FirstEnded(c, tid, anchor, e) ==>
      e in c && EndedAfter(e, tid, anchor) && forall d :: d in c && EndedAfter(d, tid, anchor) ==> e.timestamp <= d.timestamp
  {
    hide NearestFollowing;
    NearestFollowingIff(c, anchor, TidIs(tid), e);
    assert forall d :: Following(anchor, TidIs(tid))(d) <==> EndedAfter(d, tid, anchor);
    assert forall i: nat :: EarliestAt(c, Following(anchor, TidIs(tid)), i) <==> FirstAfter(c, tid, anchor, i);
  }

  // ------------------------------------------------------- who woke the waiter

  /** The wake is on the wait's address and ended at or before it, no more than 5 ms earlier. */
  predicate CouldWake(x: TraceEvent, wait: TraceEvent) {
    x.key == wait.key && x.timestamp <= wait.timestamp <= x.timestamp + 5_000_000
  }

  /** The latest such wake; the last of several at once. */
  ghost predicate LastWake(typed: Typed, wait: TraceEvent, i: nat) {
    i < |typed.futexWake| && CouldWake(typed.futexWake[i], wait) &&
    forall j :: 0 <= j < |typed.futexWake| && CouldWake(typed.futexWake[j], wait) ==>
      typed.futexWake[j].timestamp < typed.futexWake[i].timestamp ||
      (typed.futexWake[j].timestamp == typed.futexWake[i].timestamp && j <= i)
  }

  ghost predicate WokenByWake(typed: Typed, wait: TraceEvent, x: TraceEvent) {
    exists i: nat :: LastWake(typed, wait, i) && typed.futexWake[i] == x
  }

  ghost predicate NobodyWoke(typed: Typed, wait: TraceEvent) {
    forall x :: x in typed.futexWake ==> !CouldWake(x, wait)
  }

  lemma FindWakeIff(wait: TraceEvent, typed: Typed, x: TraceEvent)
    ensures FindWake(wait, typed) == Some(x) <==> WokenByWake(typed, wait, x)
    ensures FindWake(wait, typed).None? <==> NobodyWoke(typed, wait)
  {
    hide NearestPreceding;
    var c, m := typed.futexWake, Preceding(wait.timestamp, KeyIs(wait.key));
    NearestPrecedingIff(c, wait.timestamp, KeyIs(wait.key), x);
    assert forall d :: m(d) <==> CouldWake(d, wait);
    assert forall i: nat :: LatestAt(c, m, i) <==> LastWake(typed, wait, i);
  }

  // ------------------------------------------------------------- the headline

  /** The stall ends in the wait `w`: no wait of the thread exits sooner after the resume, and no request
      of it completed nearer before. */
  ghost predicate ResumedFromWait(typed: Typed, tid: u32, resume: u64, w: TraceEvent) {
    && FirstEnded(typed.futexWait, tid, resume, w)
    && forall r :: r in typed.blockIo && EndedBefore(r, tid, resume) ==> w.timestamp - resume <= resume - r.timestamp
  }

  /** The stall ends with the request `r`: it is the latest, and strictly nearer than every wait. */
  ghost predicate ResumedFromRequest(typed: Typed, tid: u32, resume: u64, r: TraceEvent) {
    && LastEnded(typed.blockIo, tid, resume, r)
    && forall w :: w in typed.futexWait && EndedAfter(w, tid, resume) ==> resume - r.timestamp < w.timestamp - resume
  }

  ghost predicate ResumedFromNothing(typed: Typed, tid: u32, resume: u64) {
    && (forall w :: w in typed.futexWait ==> !EndedAfter(w, tid, resume))
    && forall r :: r in typed.blockIo ==> !EndedBefore(r, tid, resume)
  }

  lemma ResumeCauseIs(typed: Typed, tid: u32, resume: u64, e: TraceEvent)
    ensures var cause := ClassifyResumeCause(tid, resume, typed);
      && (cause == Cause.Futex(e) <==> ResumedFromWait(typed, tid, resume, e))
      && (cause == Cause.BlockIo(e) <==> ResumedFromRequest(typed, tid, resume, e))
      && (cause == Cause.Unknown <==> ResumedFromNothing(typed, tid, resume))
  {
    hide NearestPreceding, NearestFollowing, LastEnded, FirstEnded;
    var fw := NearestFollowing(typed.futexWait, resume, TidIs(tid));
    var io := NearestPreceding(typed.blockIo, resume, TidIs(tid));
    FollowingIs(typed.futexWait, tid, resume, e);
    PrecedingIs(typed.blockIo, tid, resume, e);
    if fw.Some? { FollowingIs(typed.futexWait, tid, resume, fw.value); }
    if io.Some? { PrecedingIs(typed.blockIo, tid, resume, io.value); }
  }

  // ---------------------------------------------------- what the waker had done

  /** When the wake began. */
  function Began(x: TraceEvent): u64 {
    if x.duration <= x.timestamp then x.timestamp - x.duration else 0
  }

  ghost predicate AfterWait(typed: Typed, x: TraceEvent, w: TraceEvent) {
    && LastEnded(typed.futexWait, x.tid, Began(x), w)
    && forall r :: r in typed.blockIo && EndedBefore(r, x.tid, Began(x)) ==> r.timestamp <= w.timestamp
  }

  ghost predicate AfterRequest(typed: Typed, x: TraceEvent, r: TraceEvent) {
    && LastEnded(typed.blockIo, x.tid, Began(x), r)
    && forall w :: w in typed.futexWait && EndedBefore(w, x.tid, Began(x)) ==> w.timestamp < r.timestamp
  }

  ghost predicate AfterNothing(typed: Typed, x: TraceEvent) {
    forall e :: e in typed.futexWait || e in typed.blockIo ==> !EndedBefore(e, x.tid, Began(x))
  }

  lemma PriorCauseIs(typed: Typed, x: TraceEvent, e: TraceEvent)
    ensures var cause := CauseOfWake(x, typed);
      && (cause == Cause.Futex(e) <==> AfterWait(typed, x, e))
      && (cause == Cause.BlockIo(e) <==> AfterRequest(typed, x, e))
      && (cause == Cause.Unknown <==> AfterNothing(typed, x))
  {
    hide NearestPreceding, LastEnded;
    var fw := NearestPreceding(typed.futexWait, Began(x), TidIs(x.tid));
    var io := NearestPreceding(typed.blockIo, Began(x), TidIs(x.tid));
    PrecedingIs(typed.futexWait, x.tid, Began(x), e);
    PrecedingIs(typed.blockIo, x.tid, Began(x), e);
    if fw.Some? { PrecedingIs(typed.futexWait, x.tid, Began(x), fw.value); }
    if io.Some? { PrecedingIs(typed.blockIo, x.tid, Began(x), io.value); }
  }

  // ------------------------------------------------------------ the whole walk

  /** Link `k` is what the link before it leads to: wakes at even places, and at odd places what the waker
      had been blocked on. Only a wait is followed by another wake. */
  ghost predicate LinkHolds(typed: Typed, wait: TraceEvent, links: seq<Link>, k: nat)
    requires k < |links|
  {
    match links[k]
    case WokenBy(x) =>
      k % 2 == 0 && if k == 0 then WokenByWake(typed, wait, x) else links[k - 1].OnFutex? && WokenByWake(typed, links[k - 1].event, x)
    case OnFutex(tid, w) => k % 2 == 1 && links[k - 1].WokenBy? && tid == links[k - 1].event.tid && AfterWait(typed, links[k - 1].event, w)
    case OnBlockIo(tid, r) => k % 2 == 1 && links[k - 1].WokenBy? && tid == links[k - 1].event.tid && AfterRequest(typed, links[k - 1].event, r)
  }

  /** The chain ends only where nothing more is known, at a request, or at link `limit`. */
  ghost predicate EndHolds(typed: Typed, wait: TraceEvent, links: seq<Link>, limit: nat) {
    if links == [] then NobodyWoke(typed, wait)
    else
      match Last(links)
      case WokenBy(x) => |links| - 1 == limit || (|links| - 1 < limit && AfterNothing(typed, x))
      case OnFutex(_, w) => |links| - 1 < limit && NobodyWoke(typed, w)
      case OnBlockIo(_, _) => |links| - 1 < limit
  }

  ghost predicate IsWalk(typed: Typed, wait: TraceEvent, links: seq<Link>, limit: nat) {
    (forall k: nat :: k < |links| ==> LinkHolds(typed, wait, links, k)) && EndHolds(typed, wait, links, limit)
  }

  /** A walk of a wake and a wait goes on as a walk from that wait, and conversely. */
  lemma WalkGoesOn(typed: Typed, wait: TraceEvent, x: TraceEvent, w: TraceEvent, rest: seq<Link>, limit: nat)
    requires limit >= 2 && WokenByWake(typed, wait, x) && AfterWait(typed, x, w)
    ensures IsWalk(typed, wait, [WokenBy(x), OnFutex(x.tid, w)] + rest, limit) <==> IsWalk(typed, w, rest, limit - 2)
  {
    hide WokenByWake, AfterWait, AfterRequest, AfterNothing, NobodyWoke;
    var links := [WokenBy(x), OnFutex(x.tid, w)] + rest;
    forall k: nat | k < |rest| ensures LinkHolds(typed, wait, links, k + 2) <==> LinkHolds(typed, w, rest, k) {
      assert links[k + 2] == rest[k];
      assert k > 0 ==> links[k + 1] == rest[k - 1];
    }
    assert rest != [] ==> Last(links) == Last(rest);
    assert rest == [] ==> Last(links) == OnFutex(x.tid, w);
    if IsWalk(typed, w, rest, limit - 2) {
      forall k: nat | k < |links| ensures LinkHolds(typed, wait, links, k) {
        assert k >= 2 ==> LinkHolds(typed, w, rest, k - 2);
      }
    }
  }

  /** The first link is the wake found, if one is. */
  lemma FirstLink(typed: Typed, wait: TraceEvent, links: seq<Link>, limit: nat)
    requires IsWalk(typed, wait, links, limit)
    ensures match FindWake(wait, typed) case None => links == [] case Some(x) => links != [] && links[0] == WokenBy(x)
  {
    hide FindWake, WokenByWake, NobodyWoke;
    if links != [] {
      assert LinkHolds(typed, wait, links, 0);
      FindWakeIff(wait, typed, links[0].event);
    } else {
      FindWakeIff(wait, typed, wait);
    }
  }

  /** The second link is what the waker had been blocked on, if anything, unless the limit is reached. */
  lemma SecondLink(typed: Typed, wait: TraceEvent, links: seq<Link>, limit: nat, x: TraceEvent)
    requires IsWalk(typed, wait, links, limit) && links != [] && links[0] == WokenBy(x) && limit > 0
    ensures match CauseOfWake(x, typed)
      case Unknown => links == [WokenBy(x)]
      case BlockIo(r) => links == [WokenBy(x), OnBlockIo(x.tid, r)]
      case Futex(w) => |links| >= 2 && links[1] == OnFutex(x.tid, w)
  {
    hide CauseOfWake, WokenByWake, NobodyWoke, AfterWait, AfterRequest, AfterNothing;
    if |links| >= 2 {
      assert LinkHolds(typed, wait, links, 1);
      PriorCauseIs(typed, x, links[1].event);
      if |links| >= 3 {
        assert LinkHolds(typed, wait, links, 2);
      }
    } else {
      PriorCauseIs(typed, x, x);
    }
  }

  /** The walk at depth 1 is the one list of links that explains itself at every step and ends only where
      it must, at link 14 at the latest. */
  lemma {:induction false} WalkIff(wait: TraceEvent, typed: Typed, depth: nat, links: seq<Link>)
    requires 1 <= depth <= 8
    ensures links == Walk(wait, typed, depth) <==> IsWalk(typed, wait, links, 2 * (8 - depth))
    decreases 8 - depth, 2
  {
    hide FindWake, CauseOfWake, WokenByWake, AfterWait, AfterRequest, AfterNothing, NobodyWoke, IsWalk;
    var limit := 2 * (8 - depth);
    var found := FindWake(wait, typed);
    if IsWalk(typed, wait, links, limit) {
      FirstLink(typed, wait, links, limit);
    }
    if found.None? {
      FindWakeIff(wait, typed, wait);
      EmptyWalk(typed, wait, limit);
    } else if depth == 8 {
      FindWakeIff(wait, typed, found.value);
      LastWakeWalk(typed, wait, found.value, links);
    } else {
      FindWakeIff(wait, typed, found.value);
      WalkIffMore(wait, found.value, typed, depth, links);
    }
  }

  lemma EmptyWalk(typed: Typed, wait: TraceEvent, limit: nat)
    requires NobodyWoke(typed, wait)
    ensures IsWalk(typed, wait, [], limit)
  {
  }

  lemma LastWakeWalk(typed: Typed, wait: TraceEvent, x: TraceEvent, links: seq<Link>)
    requires WokenByWake(typed, wait, x)
    requires IsWalk(typed, wait, links, 0) ==> links != [] && links[0] == WokenBy(x)
    ensures IsWalk(typed, wait, links, 0) <==> links == [WokenBy(x)]
  {
    hide WokenByWake, NobodyWoke, AfterNothing;
  }

  /** A walk that ends with the wake, or with the request before it. */
  lemma ShortWalks(typed: Typed, wait: TraceEvent, x: TraceEvent, r: TraceEvent, limit: nat)
    requires WokenByWake(typed, wait, x) && limit >= 2
    ensures AfterNothing(typed, x) ==> IsWalk(typed, wait, [WokenBy(x)], limit)
    ensures AfterRequest(typed, x, r) ==> IsWalk(typed, wait, [WokenBy(x), OnBlockIo(x.tid, r)], limit)
  {
    hide WokenByWake, NobodyWoke, AfterNothing, AfterRequest;
  }

  lemma {:induction false} LongWalkIff(
    wait: TraceEvent, x: TraceEvent, w: TraceEvent, typed: Typed, depth: nat, links: seq<Link>)
    requires 1 <= depth < 8 && WokenByWake(typed, wait, x) && AfterWait(typed, x, w)
    requires |links| >= 2 && links[0] == WokenBy(x) && links[1] == OnFutex(x.tid, w)
    ensures links == [WokenBy(x), OnFutex(x.tid, w)] + Walk(w, typed, depth + 1) <==> IsWalk(typed, wait, links, 2 * (8 - depth))
    decreases 8 - depth, 0
  {
    hide FindWake, CauseOfWake, WokenByWake, AfterWait, IsWalk, Walk;
    var rest := links[2..];
    assert links == [WokenBy(x), OnFutex(x.tid, w)] + rest;
    WalkGoesOn(typed, wait, x, w, rest, 2 * (8 - depth));
    WalkIff(w, typed, depth + 1, rest);
  }

  lemma {:induction false} WalkIffMore(wait: TraceEvent, x: TraceEvent, typed: Typed, depth: nat, links: seq<Link>)
    requires 1 <= depth < 8 && FindWake(wait, typed) == Some(x) && WokenByWake(typed, wait, x)
    requires IsWalk(typed, wait, links, 2 * (8 - depth)) ==> links != [] && links[0] == WokenBy(x)
    ensures links == [WokenBy(x)] + BeforeWake(x, typed, depth) <==> IsWalk(typed, wait, links, 2 * (8 - depth))
    decreases 8 - depth, 1
  {
    hide FindWake, CauseOfWake, WokenByWake, AfterWait, AfterRequest, AfterNothing, NobodyWoke, IsWalk, Walk;
    var limit, walk := 2 * (8 - depth), [WokenBy(x)] + BeforeWake(x, typed, depth);
    if IsWalk(typed, wait, links, limit) {
      SecondLink(typed, wait, links, limit, x);
    }
    match CauseOfWake(x, typed)
    case Unknown =>
      PriorCauseIs(typed, x, x);
      ShortWalks(typed, wait, x, x, limit);
      assert walk == [WokenBy(x)];
    case BlockIo(r) =>
      PriorCauseIs(typed, x, r);
      ShortWalks(typed, wait, x, r, limit);
      assert walk == [WokenBy(x), OnBlockIo(x.tid, r)];
    case Futex(w) =>
      PriorCauseIs(typed, x, w);
      assert walk == [WokenBy(x), OnFutex(x.tid, w)] + Walk(w, typed, depth + 1);
      if |links| >= 2 && links[0] == WokenBy(x) && links[1] == OnFutex(x.tid, w) {
        LongWalkIff(wait, x, w, typed, depth, links);
      }
  }
}
