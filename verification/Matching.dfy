/**
 * A declarative account of what the probes report, over the history of firings
 * alone: an event is one matched pair of a firing that opens a span and the
 * first later firing that closes it. The probe machine is proved to report
 * exactly the matched pairs.
 */
module Matching {
  import opened Collections
  import opened Schema
  import opened Probes

  /** What a span is about: a thread off the CPU, a thread inside `futex`, or a block request. */
  datatype Key = Task(tid: u32) | Futex(tid: u32) | Request(packed: u64)

  datatype Start = Blocked(block: BlockStart) | InFutex(futex: FutexStart) | Issued(io: BlockIoStart)

  /** The tgid in the target slot after a history. */
  function TargetAfter(h: seq<Action>): u32 {
    if h == [] then 0
    else if Last(h).SetTarget? then Last(h).tgid
    else TargetAfter(Init(h))
  }

  /** The span a firing opens: only target threads open spans, and a switch only for a thread that does
      not stay runnable. */
  function Opens(target: u32, a: Action): Option<(Key, Start)> {
    if target == 0 then None
    else
      match a
      case SchedSwitch(ts, tgid, prevPid, prevState, prevComm, _) =>
        if prevState != 0 && tgid == target
        then Some((Task(prevPid % 0x1_0000_0000), Blocked(BlockStart(ts, tgid, prevComm)))) else None
      case FutexEnter(ts, tgid, tid, uaddr, opArg, comm) =>
        if tgid == target
        then Some((Futex(tid), InFutex(FutexStart(ts, uaddr, FutexOp(opArg), tgid, comm)))) else None
      case BlockRqIssue(ts, tgid, tid, dev, sector, comm) =>
        if tgid == target
        then Some((Request(PackBlockKey(dev, sector)), Issued(BlockIoStart(ts, tgid, tid, comm)))) else None
      case _ => None
  }

  /** The span a firing closes. A switch opens before it closes, so it can do both to one thread. */
  function Closes(target: u32, a: Action): Option<Key> {
    match a
    case SchedSwitch(_, _, _, _, _, nextPid) => if target == 0 then None else Some(Task(nextPid % 0x1_0000_0000))
    case FutexExit(_, tid) => Some(Futex(tid))
    case BlockRqComplete(_, dev, sector) => Some(Request(PackBlockKey(dev, sector)))
    case _ => None
  }

  function StartTime(start: Start): u64 {
    match start
    case Blocked(b) => b.ts
    case InFutex(f) => f.ts
    case Issued(i) => i.ts
  }

  function StartTgid(start: Start): u32 {
    match start
    case Blocked(b) => b.tgid
    case InFutex(f) => f.tgid
    case Issued(i) => i.tgid
  }

  function StartComm(start: Start): Comm {
    match start
    case Blocked(b) => b.comm
    case InFutex(f) => f.comm
    case Issued(i) => i.comm
  }

  /** The thread a span belongs to: for a request, the one that issued it. */
  function SpanTid(k: Key, start: Start): u32 {
    match k
    case Task(tid) => tid
    case Futex(tid) => tid
    case Request(_) => if start.Issued? then start.io.tid else 0
  }

  /** The event key of a span: the futex address, the packed request key, or nothing. */
  function SpanSubject(k: Key, start: Start): u64 {
    match k
    case Task(_) => 0
    case Futex(_) => if start.InFutex? then start.futex.uaddr else 0
    case Request(packed) => packed
  }

  /** `FUTEX_WAIT` or `FUTEX_WAIT_BITSET`, with or without the private and clock flags. */
  predicate IsWaitOp(op: bv32) {
    op == 0 || op == 128 || op == 256 || op == 384 || op == 9 || op == 137 || op == 265 || op == 393
  }

  /** `FUTEX_WAKE` or `FUTEX_WAKE_BITSET`, with or without the flags. */
  predicate IsWakeOp(op: bv32) {
    op == 1 || op == 129 || op == 257 || op == 385 || op == 10 || op == 138 || op == 266 || op == 394
  }

  /** The event type of a span: 0 a block, 1 a futex wait, 2 a futex wake, 3 a request; a futex span that
      is neither a wait nor a wake has none. */
  function SpanType(k: Key, start: Start): Option<u8> {
    match (k, start)
    case (Task(_), Blocked(_)) => Some(0)
    case (Futex(_), InFutex(f)) =>
      if IsWaitOp(f.op) then Some(1) else if IsWakeOp(f.op) then Some(2) else None
    case (Request(_), Issued(_)) => Some(3)
    case _ => None
  }

  /** The event describing a span: identity from its start, stamped at its end. */
  function Report(k: Key, start: Start, ts: u64): Option<Event> {
    match SpanType(k, start)
    case None => None
    case Some(kind) =>
      Some(Event(ts, if ts >= StartTime(start) then ts - StartTime(start) else 0, SpanSubject(k, start), StartTgid(start),
                 SpanTid(k, start), kind, StartComm(start)))
  }

  /** Masking off the private and clock flags leaves a wait or a wake for exactly these operations. */
  lemma FutexOperations(op: bv32)
    ensures FutexEventType(op) == Some(1) <==> IsWaitOp(op)
    ensures FutexEventType(op) == Some(2) <==> IsWakeOp(op)
    ensures FutexEventType(op).None? <==> !IsWaitOp(op) && !IsWakeOp(op)
  {
  }

  predicate OpensAt(h: seq<Action>, j: nat, k: Key) {
    j < |h| && var o := Opens(TargetAfter(h[..j]), h[j]); o.Some? && o.value.0 == k
  }

  predicate ClosesAt(h: seq<Action>, i: nat, k: Key) {
    i < |h| && Closes(TargetAfter(h[..i]), h[i]) == Some(k)
  }

  function StartedAt(h: seq<Action>, j: nat, k: Key): Start
    requires OpensAt(h, j, k)
  {
    Opens(TargetAfter(h[..j]), h[j]).value.1
  }

  /** The span of `k` opened at `j` is still the current one at the end of the history. */
  ghost predicate Open(h: seq<Action>, j: nat, k: Key) {
    && OpensAt(h, j, k)
    && (forall m :: j < m < |h| ==> !OpensAt(h, m, k))
    && (forall m :: j <= m < |h| ==> !ClosesAt(h, m, k))
  }

  /** `i` closes the span of `k` that the latest unmatched opening firing `j` began. */
  ghost predicate Pairs(h: seq<Action>, j: nat, i: nat, k: Key) {
    && j <= i < |h| && OpensAt(h, j, k) && ClosesAt(h, i, k)
    && (forall m :: j < m <= i ==> !OpensAt(h, m, k))
    && (forall m :: j <= m < i ==> !ClosesAt(h, m, k))
  }

  function Lookup(s: Tables, k: Key): Option<Start> {
    match k
    case Task(tid) => if tid in s.blocks then Some(Blocked(s.blocks[tid])) else None
    case Futex(tid) => if tid in s.futexes then Some(InFutex(s.futexes[tid])) else None
    case Request(packed) => if packed in s.requests then Some(Issued(s.requests[packed])) else None
  }

  lemma {:induction false} TargetIsLastSet(l: Limits, h: seq<Action>)
    ensures After(l, h).target == TargetAfter(h)
  {
    if h != [] {
      TargetIsLastSet(l, Init(h));
    }
  }

  /** The current span of `k` just before a firing looks for something to close. */
  function Current(s: Tables, a: Action, k: Key): Option<Start> {
    match Opens(s.target, a)
    case Some((k', start)) => if k' == k then Some(start) else Lookup(s, k)
    case None => Lookup(s, k)
  }

  /** One firing of the unbounded machine, table by table, in terms of what it opens and closes. */
  lemma StepLookup(s: Tables, a: Action, k: Key)
    ensures Lookup(Step(UNBOUNDED, s, a).tables, k)
         == if Closes(s.target, a) == Some(k) then None else Current(s, a, k)
  {
    match a
    case SchedSwitch(_, _, _, _, _, _) => SwitchLookup(s, a, k);
    case FutexEnter(_, _, _, _, _, _) => FutexLookup(s, a, k);
    case FutexExit(_, _) => FutexLookup(s, a, k);
    case _ =>
  }

  lemma SwitchLookup(s: Tables, a: Action, k: Key)
    requires a.SchedSwitch?
    ensures Lookup(Step(UNBOUNDED, s, a).tables, k)
         == if Closes(s.target, a) == Some(k) then None else Current(s, a, k)
  {
  }

  lemma FutexLookup(s: Tables, a: Action, k: Key)
    requires a.FutexEnter? || a.FutexExit?
    ensures Lookup(Step(UNBOUNDED, s, a).tables, k)
         == if Closes(s.target, a) == Some(k) then None else Current(s, a, k)
  {
    hide FutexEventType;
  }

  lemma StepEvent(s: Tables, a: Action)
    ensures Step(UNBOUNDED, s, a).event ==
      match Closes(s.target, a)
      case None => None
      case Some(k) => match Current(s, a, k) case None => None case Some(start) => Report(k, start, a.ts)
  {
    hide FutexEventType, IsWaitOp, IsWakeOp, FutexOp, PackBlockKey;
    if a.FutexExit? {
      FutexExitEvent(s, a);
    }
  }

  lemma FutexExitEvent(s: Tables, a: Action)
    requires a.FutexExit?
    ensures Step(UNBOUNDED, s, a).event ==
      match Current(s, a, Futex(a.tid)) case None => None case Some(start) => Report(Futex(a.tid), start, a.ts)
  {
    hide FutexEventType, IsWaitOp, IsWakeOp;
    if a.tid in s.futexes {
      FutexOperations(s.futexes[a.tid].op);
    }
  }

  /** Positions before the last see the same firings in the shorter history. */
  lemma PrefixAgrees(h: seq<Action>, k: Key)
    requires h != []
    ensures forall m: nat :: m < |h| - 1 ==>
      && (OpensAt(h, m, k) <==> OpensAt(Init(h), m, k))
      && (ClosesAt(h, m, k) <==> ClosesAt(Init(h), m, k))
      && (OpensAt(h, m, k) ==> StartedAt(h, m, k) == StartedAt(Init(h), m, k))
  {
    forall m: nat | m < |h| - 1 ensures Init(h)[..m] == h[..m] {
    }
  }

  /** How one more firing changes which span of `k` is open. */
  lemma OpenStep(h: seq<Action>, k: Key, j: nat)
    requires h != []
    ensures Open(h, j, k) <==>
      !ClosesAt(h, |h| - 1, k) && if OpensAt(h, |h| - 1, k) then j == |h| - 1 else Open(Init(h), j, k)
    ensures Open(h, j, k) && j < |h| - 1 ==> StartedAt(h, j, k) == StartedAt(Init(h), j, k)
  {
    hide Opens, Closes, TargetAfter;
    PrefixAgrees(h, k);
    if OpensAt(h, |h| - 1, k) {
      assert Open(h, j, k) ==> j == |h| - 1;
    }
  }

  /** The tables hold exactly the open spans. */
  lemma {:induction false} InFlight(h: seq<Action>, k: Key, start: Start)
    ensures Lookup(After(UNBOUNDED, h), k) == Some(start)
       <==> exists j :: Open(h, j, k) && StartedAt(h, j, k) == start
  {
    if h != [] {
      var init, n := Init(h), |h| - 1;
      InFlight(init, k, start);
      TargetIsLastSet(UNBOUNDED, init);
      StepLookup(After(UNBOUNDED, init), Last(h), k);
      assert h[..n] == init;
      forall j: nat { OpenStep(h, k, j); }
      if !ClosesAt(h, n, k) && OpensAt(h, n, k) {
        assert Open(h, n, k);
      } else if j :| Open(init, j, k) && StartedAt(init, j, k) == start {
        assert !ClosesAt(h, n, k) ==> Open(h, j, k);
      }
    }
  }

  /** Where a closing firing finds a current span, that span is the matched pair, and conversely. */
  lemma CurrentIsPaired(h: seq<Action>, k: Key, start: Start)
    requires h != [] && ClosesAt(h, |h| - 1, k)
    ensures Current(After(UNBOUNDED, Init(h)), Last(h), k) == Some(start)
       <==> exists j :: Pairs(h, j, |h| - 1, k) && StartedAt(h, j, k) == start
  {
    var init, n := Init(h), |h| - 1;
    TargetIsLastSet(UNBOUNDED, init);
    InFlight(init, k, start);
    PrefixAgrees(h, k);
    assert h[..n] == init;
    if OpensAt(h, n, k) {
      assert forall j: nat :: Pairs(h, j, n, k) ==> j == n;
      assert Pairs(h, n, n, k);
      assert Current(After(UNBOUNDED, init), Last(h), k) == Some(StartedAt(h, n, k));
    } else {
      assert forall j: nat :: Pairs(h, j, n, k) <==> Open(init, j, k);
    }
  }

  /** The probe machine refines its history: the last firing emits `e` exactly when it closes a
      matched pair whose report is `e`. */
  lemma EmitsMatchedPair(h: seq<Action>, e: Event)
    requires h != []
    ensures LastEvent(UNBOUNDED, h) == Some(e)
       <==> exists j, k :: Pairs(h, j, |h| - 1, k) && Report(k, StartedAt(h, j, k), Last(h).ts) == Some(e)
  {
    var init, n := Init(h), |h| - 1;
    var s := After(UNBOUNDED, init);
    TargetIsLastSet(UNBOUNDED, init);
    StepEvent(s, Last(h));
    assert h[..n] == init;
    match Closes(s.target, Last(h))
    case None =>
    case Some(k) =>
      assert ClosesAt(h, n, k);
      forall start { CurrentIsPaired(h, k, start); }
      if LastEvent(UNBOUNDED, h) == Some(e) {
        var start := Current(s, Last(h), k).value;
        var j :| Pairs(h, j, n, k) && StartedAt(h, j, k) == start;
      }
      if j, k' :| Pairs(h, j, n, k') && Report(k', StartedAt(h, j, k'), Last(h).ts) == Some(e) {
        assert k' == k;
        assert Current(s, Last(h), k) == Some(StartedAt(h, j, k));
      }
  }

  /** Two spans of one key never interleave: the later one opens after the earlier one has closed. */
  lemma PairsDisjoint(h: seq<Action>, j: nat, i: nat, j': nat, i': nat, k: Key)
    requires Pairs(h, j, i, k) && Pairs(h, j', i', k) && i < i'
    ensures i < j'
  {
    assert ClosesAt(h, i, k);
  }

  /** The event a whole history emits at position `i` is decided by the firings up to `i`. */
  lemma {:induction false} EmittedSources(l: Limits, h: seq<Action>, e: Event)
    ensures e in Emitted(l, h) <==> exists i :: 0 < i <= |h| && LastEvent(l, h[..i]) == Some(e)
  {
    hide LastEvent, After, Probes.Step;
    if h != [] {
      EmittedSources(l, Init(h), e);
      assert forall i :: 0 < i < |h| ==> Init(h)[..i] == h[..i];
      assert h[..|h|] == h;
      assert e in Emitted(l, h) <==> e in Emitted(l, Init(h)) || LastEvent(l, h) == Some(e);
      if i :| 0 < i < |h| && LastEvent(l, h[..i]) == Some(e) {
        assert LastEvent(l, Init(h)[..i]) == Some(e);
      }
    }
  }
}
