/**
 * The five kernel probes as a state machine over their in-flight tables, and
 * the bounded ring buffer they report through.
 *
 * An `Action` is one probe firing, with the values the probe reads from its
 * context and from the clock; `SetTarget` is the tool writing the target slot
 * and `Quiet` is anything no probe acts on. Probes are taken to run atomically.
 */
module Probes {
  import opened Collections
  import opened Schema

  const TASK_RUNNING := 0
  const FUTEX_WAIT: bv32 := 0
  const FUTEX_WAKE: bv32 := 1
  const FUTEX_WAIT_BITSET: bv32 := 9
  const FUTEX_WAKE_BITSET: bv32 := 10
  const FUTEX_PRIVATE_FLAG: bv32 := 128
  const FUTEX_CLOCK_REALTIME: bv32 := 256
  const FUTEX_CMD_MASK: bv32 := !(FUTEX_PRIVATE_FLAG | FUTEX_CLOCK_REALTIME)

  datatype BlockStart = BlockStart(ts: u64, tgid: u32, comm: Comm)
  datatype FutexStart = FutexStart(ts: u64, uaddr: u64, op: bv32, tgid: u32, comm: Comm)
  datatype BlockIoStart = BlockIoStart(ts: u64, tgid: u32, tid: u32, comm: Comm)

  datatype Action =
    | SetTarget(ts: u64, tgid: u32)
    | SchedSwitch(ts: u64, tgid: u32, prevPid: i32, prevState: int, prevComm: Comm, nextPid: i32)
    | FutexEnter(ts: u64, tgid: u32, tid: u32, uaddr: u64, opArg: bv64, comm: Comm)
    | FutexExit(ts: u64, tid: u32)
    | BlockRqIssue(ts: u64, tgid: u32, tid: u32, dev: u32, sector: u64, comm: Comm)
    | BlockRqComplete(ts: u64, dev: u32, sector: u64)
    | Quiet(ts: u64)

  datatype Tables = Tables(
    target: u32,
    blocks: map<u32, BlockStart>,
    futexes: map<u32, FutexStart>,
    requests: map<u64, BlockIoStart>)

  /** How many entries each table may hold; `None` is a table that is never full. */
  datatype Limits = Limits(blocks: Option<nat>, futexes: Option<nat>, requests: Option<nat>)

  const KERNEL := Limits(Some(10240), Some(10240), Some(4096))
  const UNBOUNDED := Limits(None, None, None)

  const EMPTY := Tables(0, map[], map[], map[])

  /** `BPF_ANY`: an existing key is updated, a new key is refused silently when the table is full. */
  function Insert<K, V>(m: map<K, V>, k: K, v: V, cap: Option<nat>): map<K, V> {
    if k in m || cap.None? || |m| < cap.value then m[k := v] else m
  }

  datatype Outcome = Outcome(tables: Tables, event: Option<Event>)

  function FutexOp(opArg: bv64): bv32 {
    (opArg & 0xFFFF_FFFF) as bv32
  }

  /** The cast keeps the low half of the argument. */
  lemma FutexOpIsLowHalf(opArg: bv64)
    ensures FutexOp(opArg) as bv64 == opArg % 0x1_0000_0000
  {
  }

  /** The event type reported for a futex operation, if it is a wait or a wake. */
  function FutexEventType(op: bv32): Option<u8> {
    var base := op & FUTEX_CMD_MASK;
    if base == FUTEX_WAIT || base == FUTEX_WAIT_BITSET then Some(EVENT_FUTEX_WAIT)
    else if base == FUTEX_WAKE || base == FUTEX_WAKE_BITSET then Some(EVENT_FUTEX_WAKE)
    else None
  }

  function BlockEvent(start: BlockStart, ts: u64, tid: u32): Event {
    Event(ts, SaturatingSub(ts, start.ts), 0, start.tgid, tid, EVENT_SCHED_BLOCK, start.comm)
  }

  function FutexEvent(start: FutexStart, ts: u64, tid: u32): Option<Event> {
    match FutexEventType(start.op)
    case Some(kind) => Some(Event(ts, SaturatingSub(ts, start.ts), start.uaddr, start.tgid, tid, kind, start.comm))
    case None => None
  }

  function RequestEvent(start: BlockIoStart, ts: u64, key: u64): Event {
    Event(ts, SaturatingSub(ts, start.ts), key, start.tgid, start.tid, EVENT_BLOCK_IO, start.comm)
  }

  /** A switch's first half: a target thread going off the CPU without being runnable is recorded. */
  function Outgoing(l: Limits, s: Tables, a: Action): map<u32, BlockStart>
    requires a.SchedSwitch?
  {
    if a.prevState != TASK_RUNNING && a.tgid == s.target
    then Insert(s.blocks, AsU32(a.prevPid), BlockStart(a.ts, a.tgid, a.prevComm), l.blocks)
    else s.blocks
  }

  function OnSwitch(l: Limits, s: Tables, a: Action): Outcome
    requires a.SchedSwitch?
  {
    if s.target == 0 then Outcome(s, None)
    else
      var next, table := AsU32(a.nextPid), Outgoing(l, s, a);
      if next in table
      then Outcome(s.(blocks := table - {next}), Some(BlockEvent(table[next], a.ts, next)))
      else Outcome(s.(blocks := table), None)
  }

  function OnFutexExit(s: Tables, a: Action): Outcome
    requires a.FutexExit?
  {
    if a.tid in s.futexes
    then Outcome(s.(futexes := s.futexes - {a.tid}), FutexEvent(s.futexes[a.tid], a.ts, a.tid))
    else Outcome(s, None)
  }

  function OnComplete(s: Tables, a: Action): Outcome
    requires a.BlockRqComplete?
  {
    var key := PackBlockKey(a.dev, a.sector);
    if key in s.requests
    then Outcome(s.(requests := s.requests - {key}), Some(RequestEvent(s.requests[key], a.ts, key)))
    else Outcome(s, None)
  }

  /** One firing: the new tables and the event handed to `emit`, if any. */
  function Step(l: Limits, s: Tables, a: Action): Outcome {
    match a
    case SetTarget(_, tgid) => Outcome(s.(target := tgid), None)
    case SchedSwitch(_, _, _, _, _, _) => OnSwitch(l, s, a)
    case FutexEnter(ts, tgid, tid, uaddr, opArg, comm) =>
      if s.target == 0 || tgid != s.target then Outcome(s, None)
      else
        var start := FutexStart(ts, uaddr, FutexOp(opArg), tgid, comm);
        Outcome(s.(futexes := Insert(s.futexes, tid, start, l.futexes)), None)
    case FutexExit(_, _) => OnFutexExit(s, a)
    case BlockRqIssue(ts, tgid, tid, dev, sector, comm) =>
      if s.target == 0 || tgid != s.target then Outcome(s, None)
      else
        var start := BlockIoStart(ts, tgid, tid, comm);
        Outcome(s.(requests := Insert(s.requests, PackBlockKey(dev, sector), start, l.requests)), None)
    case BlockRqComplete(_, _, _) => OnComplete(s, a)
    case Quiet(_) => Outcome(s, None)
  }

  /** The tables after a history of actions, from empty tables and no target. */
  function After(l: Limits, h: seq<Action>): Tables {
    if h == [] then EMPTY else Step(l, After(l, Init(h)), Last(h)).tables
  }

  function AsSeq<T>(x: Option<T>): seq<T> {
    match x case Some(v) => [v] case None => []
  }

  /** The event handed to `emit` by the last action of a history. */
  function LastEvent(l: Limits, h: seq<Action>): Option<Event>
    requires h != []
  {
    Step(l, After(l, Init(h)), Last(h)).event
  }

  /** Everything handed to `emit` over a history, in order. */
  function Emitted(l: Limits, h: seq<Action>): seq<Event> {
    if h == [] then [] else Emitted(l, Init(h)) + AsSeq(LastEvent(l, h))
  }

  // ------------------------------------------- the firings, spelled out

  /** The table of blocked threads after the first half of a switch: a target thread that leaves the CPU
      in a state other than 0 is recorded, if its thread id is known already or there is room. */
  function WithLeaver(target: u32, blocks: map<u32, BlockStart>, a: Action): map<u32, BlockStart>
    requires a.SchedSwitch?
  {
    var prev: u32 := a.prevPid % 0x1_0000_0000;
    if target != 0 && a.tgid == target && a.prevState != 0 && (prev in blocks || |blocks| < 10240)
    then blocks[prev := BlockStart(a.ts, a.tgid, a.prevComm)] else blocks
  }

  lemma SwitchSpelledOut(s: Tables, a: Action)
    requires a.SchedSwitch?
    ensures var next: u32, between := a.nextPid % 0x1_0000_0000, WithLeaver(s.target, s.blocks, a);
      Step(KERNEL, s, a) ==
        if s.target != 0 && next in between
        then Outcome(s.(blocks := between - {next}),
                     Some(Event(a.ts, if a.ts >= between[next].ts then a.ts - between[next].ts else 0, 0,
                                between[next].tgid, next, 0, between[next].comm)))
        else Outcome(s.(blocks := between), None)
  {
  }

  lemma ExitSpelledOut(s: Tables, a: Action)
    requires a.FutexExit?
    ensures Step(KERNEL, s, a).tables == s.(futexes := s.futexes - {a.tid})
    ensures Step(KERNEL, s, a).event ==
      if a.tid !in s.futexes then None
      else
        var start := s.futexes[a.tid];
        var kind := FutexEventType(start.op);
        if kind == None then None
        else Some(Event(a.ts, if a.ts >= start.ts then a.ts - start.ts else 0, start.uaddr, start.tgid, a.tid,
                        kind.value, start.comm))
  {
    hide FutexEventType;
    assert a.tid !in s.futexes ==> s.futexes - {a.tid} == s.futexes;
  }

  lemma CompleteSpelledOut(s: Tables, a: Action)
    requires a.BlockRqComplete?
    ensures var key: u64 := a.dev * 0x1_0000_0000 + a.sector % 0x1_0000_0000;
      && Step(KERNEL, s, a).tables == s.(requests := s.requests - {key})
      && Step(KERNEL, s, a).event ==
        if key !in s.requests then None
        else
          var start := s.requests[key];
          Some(Event(a.ts, if a.ts >= start.ts then a.ts - start.ts else 0, key, start.tgid, start.tid, 3, start.comm))
  {
    var key: u64 := a.dev * 0x1_0000_0000 + a.sector % 0x1_0000_0000;
    assert key == PackBlockKey(a.dev, a.sector);
    hide PackBlockKey;
    assert key !in s.requests ==> s.requests - {key} == s.requests;
  }

  lemma OneMoreFiring(h: seq<Action>, a: Action)
    ensures After(KERNEL, h + [a]) == Step(KERNEL, After(KERNEL, h), a).tables
    ensures LastEvent(KERNEL, h + [a]) == Step(KERNEL, After(KERNEL, h), a).event
  {
    hide Step;
    assert Init(h + [a]) == h;
  }

  // -------------------------------------------------- the running machine

  class ProbeMachine {
    /** How many records the ring buffer has room for. */
    const capacity: nat

    var target: u32
    var blockStart: map<u32, BlockStart>
    var futexStart: map<u32, FutexStart>
    var blockIoStart: map<u64, BlockIoStart>
    var ring: seq<Event>

    /** Every action so far, every record the ring accepted, and every record taken out of it. */
    ghost var history: seq<Action>
    ghost var accepted: seq<Event>
    ghost var drained: seq<Event>

    ghost predicate Valid()
      reads this
    {
      && Tables(target, blockStart, futexStart, blockIoStart) == After(KERNEL, history)
      && |ring| <= capacity
      && accepted == drained + ring
      && Subsequence(accepted, Emitted(KERNEL, history))
    }

    /** What one action does: it is recorded, the tables follow `Step` (by `Valid`), and its event
        is accepted exactly when the ring has room for it. */
    twostate predicate Fired(a: Action)
      reads this
    {
      && Valid()
      && history == old(history) + [a]
      && drained == old(drained)
      && accepted == old(accepted) +
           (if old(|ring|) < capacity then AsSeq(LastEvent(KERNEL, history)) else [])
    }

    constructor (capacity: nat)
      ensures Valid() && history == [] && drained == [] && ring == [] && this.capacity == capacity
    {
      this.capacity := capacity;
      target := 0;
      blockStart, futexStart, blockIoStart, ring := map[], map[], map[], [];
      history, accepted, drained := [], [], [];
    }

    /** Reserve, write and submit; when the ring is full the record is dropped. */
    method Emit(ev: Event)
      modifies this`ring, this`accepted
      ensures old(|ring|) < capacity ==> ring == old(ring) + [ev] && accepted == old(accepted) + [ev]
      ensures old(|ring|) >= capacity ==> ring == old(ring) && accepted == old(accepted)
    {
      if |ring| < capacity {
        ring := ring + [ev];
        accepted := accepted + [ev];
      }
    }

    /** Keeps the ghost record in step with a firing. */
    ghost method Record(a: Action, before: seq<Event>)
      requires Tables(target, blockStart, futexStart, blockIoStart) == After(KERNEL, history + [a])
      requires |ring| <= capacity && accepted == drained + ring
      requires Subsequence(before, Emitted(KERNEL, history))
      requires accepted == before || accepted == before + AsSeq(LastEvent(KERNEL, history + [a]))
      modifies this`history
      ensures Valid() && history == old(history) + [a]
    {
      assert Init(history + [a]) == history;
      var emitted, event := Emitted(KERNEL, history), LastEvent(KERNEL, history + [a]);
      assert Emitted(KERNEL, history + [a]) == emitted + AsSeq(event);
      if event.Some? {
        SubsequenceSkip(before, emitted, event.value);
        SubsequenceKeep(before, emitted, event.value);
      } else {
        assert emitted + [] == emitted && before + [] == before;
      }
      history := history + [a];
    }

    method SetTargetTgid(ts: u64, tgid: u32)
      requires Valid()
      modifies this
      ensures Fired(SetTarget(ts, tgid))
      ensures target == tgid && ring == old(ring)
      ensures blockStart == old(blockStart) && futexStart == old(futexStart) && blockIoStart == old(blockIoStart)
    {
      ghost var a, before := SetTarget(ts, tgid), accepted;
      assert Init(history + [a]) == history;
      target := tgid;
      Record(a, before);
    }

    /** What reaches the ring: the event if there is one and room for it. */
    twostate predicate Submitted(e: Option<Event>)
      reads this`ring, this`accepted
    {
      && ring == old(ring) + (if e.Some? && old(|ring|) < capacity then [e.value] else [])
      && accepted == old(accepted) + (if e.Some? && old(|ring|) < capacity then [e.value] else [])
    }

    /** A switch, the first half before the second: an incoming thread on record is reported and forgotten. */
    twostate predicate Switched(a: Action)
      requires a.SchedSwitch?
      reads this`target, this`blockStart, this`futexStart, this`blockIoStart, this`ring, this`accepted
    {
      var next: u32, between := a.nextPid % 0x1_0000_0000, WithLeaver(target, old(blockStart), a);
      && target == old(target) && futexStart == old(futexStart) && blockIoStart == old(blockIoStart)
      && if target != 0 && next in between
         then blockStart == between - {next} &&
              Submitted(Some(Event(a.ts, if a.ts >= between[next].ts then a.ts - between[next].ts else 0, 0,
                                   between[next].tgid, next, 0, between[next].comm)))
         else blockStart == between && Submitted(None)
    }

    method RecordLeaver(a: Action)
      requires a.SchedSwitch? && target != 0
      modifies this`blockStart
      ensures blockStart == WithLeaver(target, old(blockStart), a)
    {
      var prevTid := AsU32(a.prevPid);
      if a.prevState != TASK_RUNNING && a.tgid == target && (prevTid in blockStart || |blockStart| < 10240) {
        blockStart := blockStart[prevTid := BlockStart(a.ts, a.tgid, a.prevComm)];
      }
    }

    method ReportComer(ts: u64, nextTid: u32)
      modifies this`blockStart, this`ring, this`accepted
      ensures if nextTid in old(blockStart)
        then blockStart == old(blockStart) - {nextTid} &&
             Submitted(Some(Event(ts, if ts >= old(blockStart)[nextTid].ts then ts - old(blockStart)[nextTid].ts else 0, 0,
                                  old(blockStart)[nextTid].tgid, nextTid, 0, old(blockStart)[nextTid].comm)))
        else blockStart == old(blockStart) && Submitted(None)
    {
      if nextTid in blockStart {
        var start := blockStart[nextTid];
        blockStart := blockStart - {nextTid};
        var duration := SaturatingSub(ts, start.ts);
        Emit(Event(ts, duration, 0, start.tgid, nextTid, EVENT_SCHED_BLOCK, start.comm));
      }
    }

    ghost function InFlight(): Tables
      reads this`target, this`blockStart, this`futexStart, this`blockIoStart
    {
      Tables(target, blockStart, futexStart, blockIoStart)
    }

    method SwitchTasks(a: Action)
      requires a.SchedSwitch?
      modifies this`blockStart, this`ring, this`accepted
      ensures Switched(a)
      ensures InFlight() == Step(KERNEL, old(InFlight()), a).tables && Submitted(Step(KERNEL, old(InFlight()), a).event)
    {
      SwitchSpelledOut(InFlight(), a);
      hide Step;
      if target != 0 {
        RecordLeaver(a);
        hide WithLeaver;
        ReportComer(a.ts, AsU32(a.nextPid));
      }
    }

    method SchedSwitch(ts: u64, tgid: u32, prevPid: i32, prevState: int, prevComm: Comm, nextPid: i32)
      requires Valid()
      modifies this
      ensures Fired(Action.SchedSwitch(ts, tgid, prevPid, prevState, prevComm, nextPid))
      ensures Switched(Action.SchedSwitch(ts, tgid, prevPid, prevState, prevComm, nextPid))
    {
      var a := Action.SchedSwitch(ts, tgid, prevPid, prevState, prevComm, nextPid);
      ghost var before := accepted;
      OneMoreFiring(history, a);
      SwitchTasks(a);
      hide After, Step, Emitted, LastEvent, Subsequence, WithLeaver;
      Record(a, before);
    }

    /** A target thread enters `futex`: its arguments are recorded if there is room. */
    twostate predicate EnteredFutex(ts: u64, tgid: u32, tid: u32, uaddr: u64, opArg: bv64, comm: Comm)
      reads this`target, this`blockStart, this`futexStart, this`blockIoStart, this`ring, this`accepted
    {
      && target == old(target) && blockStart == old(blockStart) && blockIoStart == old(blockIoStart) && Submitted(None)
      && futexStart ==
        if target != 0 && tgid == target && (tid in old(futexStart) || |old(futexStart)| < 10240)
        then old(futexStart)[tid := FutexStart(ts, uaddr, FutexOp(opArg), tgid, comm)] else old(futexStart)
    }

    method FutexEnter(ts: u64, tgid: u32, tid: u32, uaddr: u64, opArg: bv64, comm: Comm)
      requires Valid()
      modifies this
      ensures Fired(Action.FutexEnter(ts, tgid, tid, uaddr, opArg, comm))
      ensures EnteredFutex(ts, tgid, tid, uaddr, opArg, comm)
    {
      ghost var a, before := Action.FutexEnter(ts, tgid, tid, uaddr, opArg, comm), accepted;
      OneMoreFiring(history, a);
      hide After, Emitted, LastEvent, Subsequence;
      if target != 0 && tgid == target {
        if tid in futexStart || |futexStart| < 10240 {
          futexStart := futexStart[tid := FutexStart(ts, uaddr, FutexOp(opArg), tgid, comm)];
        }
      }
      Record(a, before);
    }

    /** A thread leaves `futex`: a recorded call is forgotten, and reported if it is a wait or a wake. */
    twostate predicate LeftFutex(ts: u64, tid: u32)
      reads this`target, this`blockStart, this`futexStart, this`blockIoStart, this`ring, this`accepted
    {
      && target == old(target) && blockStart == old(blockStart) && blockIoStart == old(blockIoStart)
      && futexStart == old(futexStart) - {tid}
      && if tid !in old(futexStart) then Submitted(None)
         else
           var start := old(futexStart)[tid];
           var kind := FutexEventType(start.op);
           Submitted(if kind == None then None
                     else Some(Event(ts, if ts >= start.ts then ts - start.ts else 0, start.uaddr, start.tgid, tid,
                                     kind.value, start.comm)))
    }

    method TakeFutex(ts: u64, tid: u32)
      modifies this`futexStart, this`ring, this`accepted
      ensures LeftFutex(ts, tid)
    {
      if tid in futexStart {
        var start := futexStart[tid];
        futexStart := futexStart - {tid};
        var duration := SaturatingSub(ts, start.ts);
        match FutexEventType(start.op) {
          case Some(kind) => Emit(Event(ts, duration, start.uaddr, start.tgid, tid, kind, start.comm));
          case None => // other futex operations are not reported
        }
      }
    }

    method FutexExit(ts: u64, tid: u32)
      requires Valid()
      modifies this
      ensures Fired(Action.FutexExit(ts, tid))
      ensures LeftFutex(ts, tid)
    {
      ghost var a, before := Action.FutexExit(ts, tid), accepted;
      OneMoreFiring(history, a);
      ExitSpelledOut(After(KERNEL, history), a);
      hide After, Step, Emitted, LastEvent, Subsequence;
      TakeFutex(ts, tid);
      Record(a, before);
    }

    /** A target thread issues a request: who it was is recorded, under the packed key, if there is room. */
    twostate predicate IssuedRequest(ts: u64, tgid: u32, tid: u32, dev: u32, sector: u64, comm: Comm)
      reads this`target, this`blockStart, this`futexStart, this`blockIoStart, this`ring, this`accepted
    {
      var key: u64 := dev * 0x1_0000_0000 + sector % 0x1_0000_0000;
      && target == old(target) && blockStart == old(blockStart) && futexStart == old(futexStart) && Submitted(None)
      && blockIoStart ==
        if target != 0 && tgid == target && (key in old(blockIoStart) || |old(blockIoStart)| < 4096)
        then old(blockIoStart)[key := BlockIoStart(ts, tgid, tid, comm)] else old(blockIoStart)
    }

    method BlockRqIssue(ts: u64, tgid: u32, tid: u32, dev: u32, sector: u64, comm: Comm)
      requires Valid()
      modifies this
      ensures Fired(Action.BlockRqIssue(ts, tgid, tid, dev, sector, comm))
      ensures IssuedRequest(ts, tgid, tid, dev, sector, comm)
    {
      ghost var a, before := Action.BlockRqIssue(ts, tgid, tid, dev, sector, comm), accepted;
      OneMoreFiring(history, a);
      hide After, Emitted, LastEvent, Subsequence;
      if target != 0 && tgid == target {
        var key := PackBlockKey(dev, sector);
        if key in blockIoStart || |blockIoStart| < 4096 {
          blockIoStart := blockIoStart[key := BlockIoStart(ts, tgid, tid, comm)];
        }
      }
      Record(a, before);
    }

    /** A request completes, whoever is running: a recorded one is forgotten and reported as its issuer's. */
    twostate predicate CompletedRequest(ts: u64, dev: u32, sector: u64)
      reads this`target, this`blockStart, this`futexStart, this`blockIoStart, this`ring, this`accepted
    {
      var key: u64 := dev * 0x1_0000_0000 + sector % 0x1_0000_0000;
      && target == old(target) && blockStart == old(blockStart) && futexStart == old(futexStart)
      && blockIoStart == old(blockIoStart) - {key}
      && if key !in old(blockIoStart) then Submitted(None)
         else
           var start := old(blockIoStart)[key];
           Submitted(Some(Event(ts, if ts >= start.ts then ts - start.ts else 0, key, start.tgid, start.tid, 3, start.comm)))
    }

    method TakeRequest(ts: u64, dev: u32, sector: u64)
      modifies this`blockIoStart, this`ring, this`accepted
      ensures CompletedRequest(ts, dev, sector)
    {
      var key := PackBlockKey(dev, sector);
      if key in blockIoStart {
        var start := blockIoStart[key];
        blockIoStart := blockIoStart - {key};
        var duration := SaturatingSub(ts, start.ts);
        Emit(Event(ts, duration, key, start.tgid, start.tid, EVENT_BLOCK_IO, start.comm));
      }
    }

    method BlockRqComplete(ts: u64, dev: u32, sector: u64)
      requires Valid()
      modifies this
      ensures Fired(Action.BlockRqComplete(ts, dev, sector))
      ensures CompletedRequest(ts, dev, sector)
    {
      ghost var a, before := Action.BlockRqComplete(ts, dev, sector), accepted;
      OneMoreFiring(history, a);
      CompleteSpelledOut(After(KERNEL, history), a);
      hide After, Step, Emitted, LastEvent, Subsequence;
      TakeRequest(ts, dev, sector);
      Record(a, before);
    }

    method Fire(a: Action)
      requires Valid()
      modifies this
      ensures Fired(a)
    {
      match a
      case SetTarget(ts, tgid) => SetTargetTgid(ts, tgid);
      case SchedSwitch(ts, tgid, prevPid, prevState, prevComm, nextPid) =>
        SchedSwitch(ts, tgid, prevPid, prevState, prevComm, nextPid);
      case FutexEnter(ts, tgid, tid, uaddr, opArg, comm) => FutexEnter(ts, tgid, tid, uaddr, opArg, comm);
      case FutexExit(ts, tid) => FutexExit(ts, tid);
      case BlockRqIssue(ts, tgid, tid, dev, sector, comm) => BlockRqIssue(ts, tgid, tid, dev, sector, comm);
      case BlockRqComplete(ts, dev, sector) => BlockRqComplete(ts, dev, sector);
      case Quiet(_) =>
        assert Init(history + [a]) == history;
        Record(a, accepted);
    }

    /** A burst of actions, in order: the history grows by them and the ring only gains records. */
    method FireAll(burst: seq<Action>)
      requires Valid()
      modifies this
      ensures Valid() && drained == old(drained) && old(accepted) <= accepted
      ensures history == old(history) + burst
      ensures burst == [] ==> ring == old(ring)
      decreases |burst|
    {
      if burst != [] {
        FireAll(Init(burst));
        Fire(Last(burst));
        assert old(history) + burst == old(history) + Init(burst) + [Last(burst)];
      }
    }

    /** The consumer's `ring.next()`: takes the oldest record, or reports the ring empty. */
    method Next() returns (item: Option<Event>)
      requires Valid()
      modifies this`ring, this`drained
      ensures Valid()
      ensures item.None? <==> old(ring) == []
      ensures item.None? ==> ring == old(ring) && drained == old(drained)
      ensures item.Some? ==> old(ring) == [item.value] + ring && drained == old(drained) + [item.value]
    {
      if ring == [] {
        item := None;
      } else {
        item := Some(ring[0]);
        drained := drained + [ring[0]];
        ring := ring[1..];
      }
    }
  }
}
