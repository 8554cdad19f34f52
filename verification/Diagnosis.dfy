/**
 * The reproducer's promise: the waiter's stall is explained by its futex wait,
 * the holder's wake, and the holder's last disk read. The tool keeps it exactly
 * when those four records fall within its windows and no other recorded wait or
 * request of the two threads lies nearer.
 */
module Diagnosis {
  import opened Collections
  import opened Schema
  import opened Trace
  import opened Probes
  import opened Matching
  import opened Loss
  import opened Spans
  import opened Causal
  import opened Nearest
  import opened Chains
  import opened Ranking
  import opened Attribution
  import opened Reproducer
  import opened GroundTruth

  // ------------------------------------------------------------ the condition

  /** The three timing conditions: the wait exits within 5 ms of the resume, the wake exits before the
      wait does and within 5 ms of it, and the last read completes within 5 ms of the wake's beginning. */
  ghost predicate WithinWindows(b: Event, v: Event, x: Event, c: Event) {
    && EndsInside(b, v)
    && x.timestamp <= v.timestamp <= x.timestamp + MATCH_WINDOW_NS
    && c.timestamp <= SpanStart(x) <= c.timestamp + MATCH_WINDOW_NS
  }

  /** The holder was blocked: on a futex or on a request. */
  predicate Blocking(n: Names, d: Event) {
    d.tid == n.holder && (d.eventType == EVENT_FUTEX_WAIT || d.eventType == EVENT_BLOCK_IO)
  }

  /** No wait of the holder ended, and no other request of it completed, between `c` and the wake. */
  ghost predicate NothingBetween(n: Names, es: seq<Event>, x: Event, c: Event) {
    forall d :: d in es && Blocking(n, d) && d.timestamp <= SpanStart(x) ==> d.timestamp <= c.timestamp
  }

  ghost predicate Explains(n: Names, es: seq<Event>, b: Event, v: Event, x: Event, c: Event) {
    WithinWindows(b, v, x, c) && !NearerRequest(es, b, v) && NothingBetween(n, es, x, c)
  }

  /** The chain that names the true causes. */
  function ExpectedChain(n: Names, b: Event, v: Event, x: Event, c: Event): Chain {
    Chain(FromEvent(b), Cause.Futex(FromEvent(v)), [WokenBy(FromEvent(x)), OnBlockIo(n.holder, FromEvent(c))])
  }

  /** The records printed for it. */
  function ExpectedLines(
    n: Names, sysfs: (u32, u32) -> Option<string>, trace: TraceFile, b: Event, read: (u32, u64), c: Event): seq<Line>
  {
    [ Headline(WallNsFor(trace, SaturatingSub(b.timestamp, b.duration)), n.waiter, b.duration, OnFutexAddress(n.word)),
      WokenByLine(n.holder),
      BlockedLine(n.holder, c.duration, OnRequest(DeviceName(sysfs, read.0), read.1 % TWO_32)) ]
  }

  // ------------------------------------------------------------- the recording

  /** A run of the reproducer under the probes. */
  ghost predicate RunOf(n: Names, w: World, h0: seq<Action>, turns: seq<Turn>, total: nat) {
    Distinct(n) && Beginning(w, total) && Attached(n, h0) && Runs(n, w, turns) && Ticking(History(h0, turns))
  }

  /** `es` is part of what the probes emit in such a run. */
  ghost predicate Recording(n: Names, w: World, h0: seq<Action>, turns: seq<Turn>, total: nat, es: seq<Event>) {
    RunOf(n, w, h0, turns, total) && Subsequence(es, Emitted(UNBOUNDED, History(h0, turns)))
  }

  /** The four records of the true chain: the waiter's stall, the wait on the lock it ended inside, the
      holder's wake of the lock, and the holder's last read. */
  ghost predicate Evidence(n: Names, w: World, es: seq<Event>, b: Event, v: Event, x: Event, c: Event) {
    && b in es && v in es && x in es && Enclosed(n, b, v) && LockWake(n, HOLDER, x) && IsLastRead(n, w, es, c)
  }

  /** What is known of any part of what was emitted. */
  ghost predicate Settled(n: Names, w: World, es: seq<Event>) {
    && Distinct(n) && Stamped(es) && (forall e :: e in es ==> Proper(n, e))
    && (forall d, e :: d in es && e in es && LockWait(n, d) && LockWake(n, WAITER, e) ==> d.timestamp < e.timestamp)
    && (forall d, e :: d in es && e in es && LockWake(n, HOLDER, d) && LockWake(n, HOLDER, e) ==> d == e)
    && (forall x :: x in es && LockWake(n, HOLDER, x) && w.lastRead.Some? ==> w.lastRead.value.ts <= SpanStart(x))
  }

  lemma RecordingSettled(n: Names, w: World, h0: seq<Action>, turns: seq<Turn>, total: nat, es: seq<Event>)
    requires Recording(n, w, h0, turns, total, es)
    ensures Settled(n, WorldAfter(n, w, turns), es)
  {
    var h := History(h0, turns);
    RunInvariant(n, w, h0, turns, total);
    RecordFacts(h, es);
    SubsequenceMembers(es, Emitted(UNBOUNDED, h));
    hide Emitted, After, History, WorldAfter, Runs, Beginning, ProgramInv, Stamped, Subsequence, Proper;
  }

  // ----------------------------------------------------------- the three joins

  lemma SameStamp(es: seq<Event>, d: Event, e: Event)
    requires Stamped(es) && d in es && e in es && d.timestamp == e.timestamp
    ensures d == e
  {
    var i, j :| 0 <= i < |es| && 0 <= j < |es| && es[i] == d && es[j] == e;
  }

  /** The wake found for the waiter's wait is the holder's, or there is none in the window. */
  lemma HolderWakeFound(n: Names, w: World, es: seq<Event>, v: Event, x: Event)
    requires Settled(n, w, es) && v in es && LockWait(n, v) && x in es && LockWake(n, HOLDER, x)
    ensures FindWake(FromEvent(v), Partitioned(Recorded(es)))
         == if x.timestamp <= v.timestamp <= x.timestamp + MATCH_WINDOW_NS then Some(FromEvent(x)) else None
  {
    hide NearestPreceding, UntilZero, Stamped;
    var wakes, m := Partitioned(Recorded(es)).futexWake, Preceding(v.timestamp, KeyIs(v.key));
    TypedMembers(es, EVENT_FUTEX_WAKE, FromEvent(x));
    forall y | y in wakes && m(y) ensures y == FromEvent(x) {
      TypedMembers(es, EVENT_FUTEX_WAKE, y);
      var d :| d in es && FromEvent(d) == y && d.eventType == EVENT_FUTEX_WAKE;
      assert Proper(n, d);
      assert LockWake(n, HOLDER, d) || LockWake(n, WAITER, d);
    }
    PrecedingFacts(wakes, v.timestamp, KeyIs(v.key));
    if x.timestamp <= v.timestamp <= x.timestamp + MATCH_WINDOW_NS {
      UniquePreceding(wakes, v.timestamp, KeyIs(v.key), FromEvent(x));
    }
  }

  /** The waits and requests the tool knows of are the recorded ones. */
  lemma Candidates(es: seq<Event>, e: Event)
    requires e in es
    ensures e.eventType == EVENT_FUTEX_WAIT ==> FromEvent(e) in Partitioned(Recorded(es)).futexWait
    ensures e.eventType == EVENT_BLOCK_IO ==> FromEvent(e) in Partitioned(Recorded(es)).blockIo
  {
    TypedMembers(es, EVENT_FUTEX_WAIT, FromEvent(e));
    TypedMembers(es, EVENT_BLOCK_IO, FromEvent(e));
  }

  lemma Candidate(es: seq<Event>, y: TraceEvent) returns (e: Event)
    requires y in Partitioned(Recorded(es)).futexWait || y in Partitioned(Recorded(es)).blockIo
    ensures e in es && FromEvent(e) == y
    ensures y in Partitioned(Recorded(es)).futexWait ==> e.eventType == EVENT_FUTEX_WAIT
    ensures y in Partitioned(Recorded(es)).blockIo ==> e.eventType == EVENT_BLOCK_IO
  {
    TypedMembers(es, EVENT_FUTEX_WAIT, y);
    TypedMembers(es, EVENT_BLOCK_IO, y);
    e :| e in es && FromEvent(e) == y;
  }

  /** The search before a wake names the request `c` of the waker exactly when `c` is in the window and
      the waker has no other wait or request between. */
  lemma PriorRequestIff(n: Names, es: seq<Event>, x: Event, c: Event)
    requires Stamped(es) && 0 <= SpanStart(x) && x.tid == n.holder && c in es && HolderRequest(n, c)
    ensures CauseOfWake(FromEvent(x), Partitioned(Recorded(es))) == Cause.BlockIo(FromEvent(c))
       <==> c.timestamp <= SpanStart(x) <= c.timestamp + MATCH_WINDOW_NS && NothingBetween(n, es, x, c)
  {
    hide NearestPreceding, UntilZero, Partitioned, Recorded, Stamped;
    var typed, start := Partitioned(Recorded(es)), WakeStart(FromEvent(x));
    PrecedingFacts(typed.futexWait, start, TidIs(n.holder));
    PrecedingFacts(typed.blockIo, start, TidIs(n.holder));
    Candidates(es, c);
    if CauseOfWake(FromEvent(x), typed) == Cause.BlockIo(FromEvent(c)) {
      forall d | d in es && Blocking(n, d) && d.timestamp <= SpanStart(x) ensures d.timestamp <= c.timestamp
      {
        Candidates(es, d);
        assert Preceding(start, TidIs(n.holder))(FromEvent(d)) || d.timestamp < c.timestamp;
      }
    }
    if c.timestamp <= SpanStart(x) <= c.timestamp + MATCH_WINDOW_NS && NothingBetween(n, es, x, c) {
      forall y | (y in typed.futexWait || y in typed.blockIo) && Preceding(start, TidIs(n.holder))(y) && y != FromEvent(c)
        ensures y.timestamp < c.timestamp
      {
        var d := Candidate(es, y);
        if d.timestamp == c.timestamp {
          SameStamp(es, d, c);
        }
      }
      UniquePreceding(typed.blockIo, start, TidIs(n.holder), FromEvent(c));
      assert FromEvent(c) !in typed.futexWait by {
        if FromEvent(c) in typed.futexWait {
          var d := Candidate(es, FromEvent(c));
        }
      }
    }
  }

  // ------------------------------------------------------------- the theorems

  /** What the tool chooses for the stall: the wait and its wake are never the wrong ones. */
  lemma ChosenRecords(
    n: Names, w: World, h0: seq<Action>, turns: seq<Turn>, total: nat, es: seq<Event>, b: Event, v: Event, x: Event, c: Event)
    requires Recording(n, w, h0, turns, total, es) && Evidence(n, WorldAfter(n, w, turns), es, b, v, x, c)
    ensures HeadlineCause(es, b) == Cause.Futex(FromEvent(v)) <==> EndsInside(b, v) && !NearerRequest(es, b, v)
    ensures HeadlineCause(es, b).Futex? ==> HeadlineCause(es, b) == Cause.Futex(FromEvent(v))
    ensures FindWake(FromEvent(v), Partitioned(Recorded(es)))
         == if x.timestamp <= v.timestamp <= x.timestamp + MATCH_WINDOW_NS then Some(FromEvent(x)) else None
    ensures Stamped(es) && c.timestamp <= SpanStart(x)
  {
    hide Emitted, After, History, WorldAfter, Runs, FindWake, HeadlineCause, Partitioned, Recorded, Proper, Stamped;
    RecordingSettled(n, w, h0, turns, total, es);
    HeadlineIff(History(h0, turns), es, b, v);
    HolderWakeFound(n, WorldAfter(n, w, turns), es, v, x);
  }

  /** A walk of a wake and a request: they are what the two searches found. */
  lemma WalkShape(v: TraceEvent, typed: Typed)
    requires var links := Walk(v, typed, 1); |links| == 2 && links[1].OnBlockIo?
    ensures var links := Walk(v, typed, 1); var x := links[0].event;
      && FindWake(v, typed) == Some(x) && links[0] == WokenBy(x)
      && CauseOfWake(x, typed) == Cause.BlockIo(links[1].event) && links[1].waker == x.tid
  {
    hide FindWake, CauseOfWake;
    var x := FindWake(v, typed).value;
    var rest := BeforeWake(x, typed, 1);
    assert Walk(v, typed, 1) == [WokenBy(x)] + rest;
    assert Walk(v, typed, 1)[1] == rest[0];
  }

  lemma WalkOfTwo(v: TraceEvent, typed: Typed, x: TraceEvent, io: TraceEvent)
    ensures Walk(v, typed, 1) == [WokenBy(x), OnBlockIo(x.tid, io)]
       <==> FindWake(v, typed) == Some(x) && CauseOfWake(x, typed) == Cause.BlockIo(io)
  {
    hide FindWake, CauseOfWake;
    if Walk(v, typed, 1) == [WokenBy(x), OnBlockIo(x.tid, io)] {
      WalkShape(v, typed);
    }
  }

  /** The chain ends in the holder's request `d` exactly when `d` and the other three records lie within
      the windows with nothing nearer. */
  lemma ChainIff(
    n: Names, w: World, h0: seq<Action>, turns: seq<Turn>, total: nat, es: seq<Event>,
    b: Event, v: Event, x: Event, c: Event, d: Event)
    requires Recording(n, w, h0, turns, total, es) && Evidence(n, WorldAfter(n, w, turns), es, b, v, x, c)
    requires d in es && HolderRequest(n, d)
    ensures ChainOf(FromEvent(b), Partitioned(Recorded(es))) == ExpectedChain(n, b, v, x, d) <==> Explains(n, es, b, v, x, d)
  {
    hide Recording, ClassifyResumeCause, FindWake, CauseOfWake, Partitioned, Recorded, NearerRequest, NothingBetween, Stamped, Walk, UntilZero;
    ChosenRecords(n, w, h0, turns, total, es, b, v, x, c);
    PriorRequestIff(n, es, x, d);
    WalkOfTwo(FromEvent(v), Partitioned(Recorded(es)), FromEvent(x), FromEvent(d));
  }

  /** Ground truth, end to end. Take any run of the reproducer, in any interleaving with anything else.
      Let `es` be what was recorded of it: any part of what the probes emit that kept the waiter's stall
      `b`, the wait `v` it ended inside, the holder's wake `x` and its last read `c`. The chain of the
      stall is the true one (the waiter on the lock, woken by the holder, held up by that read) if and
      only if the records lie within the windows with nothing nearer. */
  lemma GroundTruthChain(
    n: Names, w: World, h0: seq<Action>, turns: seq<Turn>, total: nat, es: seq<Event>, b: Event, v: Event, x: Event, c: Event)
    requires Recording(n, w, h0, turns, total, es) && Evidence(n, WorldAfter(n, w, turns), es, b, v, x, c)
    ensures ChainOf(FromEvent(b), Partitioned(Recorded(es))) == ExpectedChain(n, b, v, x, c) <==> Explains(n, es, b, v, x, c)
  {
    ChainIff(n, w, h0, turns, total, es, b, v, x, c, c);
  }

  /** No other request of the holder completed between its last read and its wake. */
  ghost predicate NoLaterRequest(n: Names, es: seq<Event>, x: Event, c: Event) {
    forall d :: d in es && HolderRequest(n, d) && d.timestamp <= SpanStart(x) ==> d.timestamp <= c.timestamp
  }

  /** The two requests print as the same record. */
  predicate PrintsLike(sysfs: (u32, u32) -> Option<string>, d: Event, c: Event) {
    d.duration == c.duration && RequestSubject(sysfs, d.key) == RequestSubject(sysfs, c.key)
  }

  /** The three records say what kind of chain they were printed from. */
  lemma LinesDecide(
    n: Names, sysfs: (u32, u32) -> Option<string>, trace: TraceFile, chain: Chain, b: Event, read: (u32, u64), c: Event)
    requires Render(sysfs, trace, chain) == ExpectedLines(n, sysfs, trace, b, read, c)
    ensures chain.cause.Futex? && |chain.links| == 2 && chain.links[1].OnBlockIo?
    ensures RenderLink(sysfs, chain.links[1]) == ExpectedLines(n, sysfs, trace, b, read, c)[2]
  {
    var links := chain.links;
    var lines := Render(sysfs, trace, chain);
    RenderLength(sysfs, links);
    assert lines[0].on == CauseSubject(sysfs, chain.cause);
    assert lines[1..] == RenderLinks(sysfs, links);
    assert RenderLinks(sysfs, links) == [RenderLink(sysfs, links[0])] + RenderLinks(sysfs, links[1..]);
    assert RenderLinks(sysfs, links[1..])[0] == RenderLink(sysfs, links[1]);
    assert lines[2] == RenderLink(sysfs, links[1]);
  }

  /** How the chain ending in the holder's request `d` prints. */
  lemma ExpectedRendering(
    n: Names, sysfs: (u32, u32) -> Option<string>, trace: TraceFile,
    b: Event, v: Event, x: Event, d: Event, c: Event, read: (u32, u64))
    requires b.tid == n.waiter && x.tid == n.holder && v.key == n.word && c.key == KeyOfRead(read) && PrintsLike(sysfs, d, c)
    ensures Render(sysfs, trace, ExpectedChain(n, b, v, x, d)) == ExpectedLines(n, sysfs, trace, b, read, c)
  {
    hide UntilZero, PackBlockKey, UnpackBlockKey, DeviceName;
    RenderMore(sysfs, OnBlockIo(n.holder, FromEvent(d)), []);
    RenderMore(sysfs, WokenBy(FromEvent(x)), [OnBlockIo(n.holder, FromEvent(d))]);
    UnpackOfPack(read.0, read.1);
  }

  /** Only a chain that ends in some request of the holder prints as the expected records. */
  lemma LinesOnlyIf(
    n: Names, w: World, h0: seq<Action>, turns: seq<Turn>, total: nat, es: seq<Event>, b: Event, v: Event, x: Event, c: Event,
    sysfs: (u32, u32) -> Option<string>, trace: TraceFile, read: (u32, u64)) returns (d: Event)
    requires Recording(n, w, h0, turns, total, es) && Evidence(n, WorldAfter(n, w, turns), es, b, v, x, c)
    requires c.key == KeyOfRead(read)
    requires Render(sysfs, trace, ChainOf(FromEvent(b), Partitioned(Recorded(es)))) == ExpectedLines(n, sysfs, trace, b, read, c)
    ensures d in es && HolderRequest(n, d) && PrintsLike(sysfs, d, c) && Explains(n, es, b, v, x, d)
  {
    hide Recording, ClassifyResumeCause, FindWake, CauseOfWake, Partitioned, Recorded, Explains, Stamped, Walk, UntilZero, Render, DeviceName, PackBlockKey, UnpackBlockKey;
    var typed := Partitioned(Recorded(es));
    var chain := ChainOf(FromEvent(b), typed);
    LinesDecide(n, sysfs, trace, chain, b, read, c);
    ChosenRecords(n, w, h0, turns, total, es, b, v, x, c);
    WalkShape(FromEvent(v), typed);
    var io := chain.links[1].event;
    PriorFacts(FromEvent(x), typed);
    d := Candidate(es, io);
    UnpackOfPack(read.0, read.1);
    WalkOfTwo(FromEvent(v), typed, FromEvent(x), io);
    ChainIff(n, w, h0, turns, total, es, b, v, x, c, d);
  }

  /** What is printed are the three expected records if and only if the records lie within the windows
      with nothing nearer, except that a later request of the holder that prints just like its last read
      may stand in for it. Without such a request the condition is that of the chain. */
  lemma GroundTruthLines(
    n: Names, w: World, h0: seq<Action>, turns: seq<Turn>, total: nat, es: seq<Event>, b: Event, v: Event, x: Event, c: Event,
    sysfs: (u32, u32) -> Option<string>, trace: TraceFile)
    requires Recording(n, w, h0, turns, total, es) && Evidence(n, WorldAfter(n, w, turns), es, b, v, x, c)
    requires trace.events == Recorded(es)
    ensures Explanation(sysfs, trace)(FromEvent(b))
         == ExpectedLines(n, sysfs, trace, b, WorldAfter(n, w, turns).lastRead.value.read, c)
       <==> exists d :: d in es && HolderRequest(n, d) && PrintsLike(sysfs, d, c) && Explains(n, es, b, v, x, d)
    ensures NoLaterRequest(n, es, x, c) ==>
      (Explanation(sysfs, trace)(FromEvent(b))
         == ExpectedLines(n, sysfs, trace, b, WorldAfter(n, w, turns).lastRead.value.read, c)
       <==> Explains(n, es, b, v, x, c))
  {
    var read, typed := WorldAfter(n, w, turns).lastRead.value.read, Partitioned(Recorded(es));
    hide Recording, ChainOf, Partitioned, Recorded, Explains, PrintsLike, Stamped, UntilZero, Render, ExpectedLines;
    if Render(sysfs, trace, ChainOf(FromEvent(b), typed)) == ExpectedLines(n, sysfs, trace, b, read, c) {
      var d := LinesOnlyIf(n, w, h0, turns, total, es, b, v, x, c, sysfs, trace, read);
    }
    forall d | d in es && HolderRequest(n, d) && PrintsLike(sysfs, d, c) && Explains(n, es, b, v, x, d)
      ensures Render(sysfs, trace, ChainOf(FromEvent(b), typed)) == ExpectedLines(n, sysfs, trace, b, read, c)
      ensures NoLaterRequest(n, es, x, c) ==> d == c
    {
      ChainIff(n, w, h0, turns, total, es, b, v, x, c, d);
      ExpectedRendering(n, sysfs, trace, b, v, x, d, c, read);
      ChosenRecords(n, w, h0, turns, total, es, b, v, x, c);
      LastOfAll(n, es, b, v, x, c, d);
    }
    assert PrintsLike(sysfs, c, c) by { PrintsLikeItself(sysfs, c); }
  }

  lemma PrintsLikeItself(sysfs: (u32, u32) -> Option<string>, c: Event)
    ensures PrintsLike(sysfs, c, c)
  {
  }

  lemma LastOfAll(n: Names, es: seq<Event>, b: Event, v: Event, x: Event, c: Event, d: Event)
    requires Stamped(es) && c in es && d in es && HolderRequest(n, c) && HolderRequest(n, d) && c.timestamp <= SpanStart(x)
    requires Explains(n, es, b, v, x, d)
    ensures NoLaterRequest(n, es, x, c) ==> d == c
  {
    hide Stamped;
    if NoLaterRequest(n, es, x, c) {
      SameStamp(es, c, d);
    }
  }

  /** A recorded stall is reported whenever no more than `slowest` recorded stalls are at least as long. */
  lemma StallReported(
    sysfs: (u32, u32) -> Option<string>, trace: TraceFile, slowest: nat, es: seq<Event>, b: Event) returns (i: nat)
    requires trace.events == Recorded(es) && b in es && b.eventType == EVENT_SCHED_BLOCK
    requires |Filter(Partitioned(trace.events).block, AtLeast(b.duration))| <= slowest
    ensures i < |Slowest(trace, slowest)| == |Explanations(sysfs, trace, Slowest(trace, slowest))|
    ensures Slowest(trace, slowest)[i] == FromEvent(b)
    ensures Explanations(sysfs, trace, Slowest(trace, slowest))[i] == Explanation(sysfs, trace)(FromEvent(b))
  {
    hide Slowest, Explanation, UntilZero;
    TypedMembers(es, EVENT_SCHED_BLOCK, FromEvent(b));
    i := AmongSlowest(trace, slowest, FromEvent(b));
  }

  /** The same for what `explain` returns: when no more than `slowest` recorded stalls are at least as long
      as `b`, one of the chains returned is that of `b`, and its records are the expected three exactly
      under that condition. */
  lemma GroundTruthReported(
    n: Names, w: World, h0: seq<Action>, turns: seq<Turn>, total: nat, es: seq<Event>, b: Event, v: Event, x: Event, c: Event,
    sysfs: (u32, u32) -> Option<string>, trace: TraceFile, slowest: nat) returns (i: nat)
    requires Recording(n, w, h0, turns, total, es) && Evidence(n, WorldAfter(n, w, turns), es, b, v, x, c)
    requires trace.events == Recorded(es)
    requires |Filter(Partitioned(trace.events).block, AtLeast(b.duration))| <= slowest
    ensures var chains := Explanations(sysfs, trace, Slowest(trace, slowest));
      && i < |chains| && Slowest(trace, slowest)[i] == FromEvent(b)
      && (chains[i] == ExpectedLines(n, sysfs, trace, b, WorldAfter(n, w, turns).lastRead.value.read, c)
         <==> exists d :: d in es && HolderRequest(n, d) && PrintsLike(sysfs, d, c) && Explains(n, es, b, v, x, d))
  {
    GroundTruthLines(n, w, h0, turns, total, es, b, v, x, c, sysfs, trace);
    hide Recording, WorldAfter, Runs, ExpectedLines, PrintsLike, Explains, Explanation, Explanations, Slowest, Emitted, History, UntilZero, Partitioned, Recorded, Filter;
    i := StallReported(sysfs, trace, slowest, es, b);
  }

  /** Every contended run can be diagnosed. If nothing is lost, the four records are there, and the chain
      of that stall is the true one if and only if they lie within the windows with nothing nearer. */
  lemma EveryContendedRun(n: Names, w: World, h0: seq<Action>, turns: seq<Turn>, total: nat)
    returns (b: Event, v: Event, x: Event, c: Event)
    requires RunOf(n, w, h0, turns, total) && total > 0 && Contended(WorldAfter(n, w, turns))
    ensures var es := Emitted(UNBOUNDED, History(h0, turns));
      && Evidence(n, WorldAfter(n, w, turns), es, b, v, x, c)
      && (ChainOf(FromEvent(b), Partitioned(Recorded(es))) == ExpectedChain(n, b, v, x, c) <==> Explains(n, es, b, v, x, c))
  {
    var es := Emitted(UNBOUNDED, History(h0, turns));
    b, v, x, c := EvidenceExists(n, w, h0, turns, total);
    SubsequenceRefl(es);
    hide Emitted, History, Subsequence, Explains, ChainOf, Partitioned, Recorded, Ticking, Runs, WorldAfter;
    GroundTruthChain(n, w, h0, turns, total, es, b, v, x, c);
  }

  /** For a running machine with bounded tables and a bounded ring, what the consumer has taken out of
      the ring is such a recording: however much was lost, the same condition decides. */
  lemma GroundTruthObserved(
    m: ProbeMachine, n: Names, w: World, h0: seq<Action>, turns: seq<Turn>, total: nat, b: Event, v: Event, x: Event, c: Event)
    requires m.Valid() && RunOf(n, w, h0, turns, total) && m.history == History(h0, turns)
    requires Evidence(n, WorldAfter(n, w, turns), m.drained, b, v, x, c)
    ensures Recording(n, w, h0, turns, total, m.drained)
    ensures ChainOf(FromEvent(b), Partitioned(Recorded(m.drained))) == ExpectedChain(n, b, v, x, c)
       <==> Explains(n, m.drained, b, v, x, c)
  {
    AcceptedIsTrue(m);
    PrefixSubsequence(m.drained, m.ring);
    SubsequenceTrans(m.drained, m.accepted, Emitted(UNBOUNDED, m.history));
    hide Emitted, History, WorldAfter, Runs, ProbeMachine.Valid, Subsequence, Ticking, Explains, ChainOf, Partitioned, Recorded;
    GroundTruthChain(n, w, h0, turns, total, m.drained, b, v, x, c);
  }

  /** If the wake exits after the wait, only the headline is printed. */
  lemma LateWakeIsMissed(
    n: Names, w: World, h0: seq<Action>, turns: seq<Turn>, total: nat, es: seq<Event>, b: Event, v: Event, x: Event, c: Event)
    requires Recording(n, w, h0, turns, total, es) && Evidence(n, WorldAfter(n, w, turns), es, b, v, x, c)
    requires v.timestamp < x.timestamp && EndsInside(b, v) && !NearerRequest(es, b, v)
    ensures ChainOf(FromEvent(b), Partitioned(Recorded(es))) == Chain(FromEvent(b), Cause.Futex(FromEvent(v)), [])
  {
    hide Recording, ClassifyResumeCause, FindWake, CauseOfWake, Partitioned, Recorded, NearerRequest, EndsInside, Stamped, UntilZero;
    ChosenRecords(n, w, h0, turns, total, es, b, v, x, c);
  }
}
