/**
 * The two-thread reproducer as it appears to the probes: a holder that takes
 * the lock, reads from disk and releases it, and a waiter that contends for it.
 *
 * Every step of the two threads is a step of the futex lock, a boundary of a
 * system call, or a block request, in any interleaving with each other and
 * with any other activity of the machine, including other futex calls and other
 * requests of the two threads, that does not touch the lock word or the
 * outstanding request's key.
 */
module Reproducer {
  import opened Collections
  import opened Schema
  import opened Probes
  import opened Matching
  import opened Spans
  import opened Attribution
  import FutexMutex

  const HOLDER: nat := 0
  const WAITER: nat := 1

  /** The traced process, its two threads and the address of the lock word. */
  datatype Names = Names(tgid: u32, holder: u32, waiter: u32, word: u64)

  predicate Distinct(n: Names) {
    n.tgid != 0 && n.holder != n.waiter
  }

  /** The futex call a thread is in: a wait or a wake on the lock word, or any call on another address. */
  datatype Call = NoCall | WaitCall | WakeCall | OtherCall

  datatype Completed = Completed(read: (u32, u64), ts: u64)

  /** `readsLeft` and `lastRead` are the holder's reads left and the last one completed. `slept` records
      that the waiter has been put to sleep at least once, `offCpu` that it has been switched out blocked
      and not switched in since, and `stalled` that this happened to it while it was asleep. */
  datatype World = World(
    lock: FutexMutex.State, holderCall: Call, waiterCall: Call, acquired: bool,
    readsLeft: nat, request: Option<(u32, u64)>, lastRead: Option<Completed>,
    slept: bool, offCpu: bool, stalled: bool)

  datatype Deed =
    | Operate(move: FutexMutex.Move)
    | Enter(t: nat, call: Call)
    | Leave(t: nat)
    | StoreAcquired
    | IssueRead(dev: u32, sector: u64)
    | CompleteRead
    | Elsewhere

  datatype Turn = Turn(deed: Deed, action: Action)

  function Tid(n: Names, t: nat): u32 {
    if t == HOLDER then n.holder else n.waiter
  }

  function CallOf(w: World, t: nat): Call {
    if t == HOLDER then w.holderCall else w.waiterCall
  }

  function WithCall(w: World, t: nat, c: Call): World {
    if t == HOLDER then w.(holderCall := c) else w.(waiterCall := c)
  }

  function PcOf(w: World, t: nat): FutexMutex.Pc
    requires t < |w.lock.threads|
  {
    w.lock.threads[t].pc
  }

  function KeyOfRead(read: (u32, u64)): u64 {
    PackBlockKey(read.0, read.1)
  }

  predicate OurThread(n: Names, tid: u32) {
    tid == n.holder || tid == n.waiter
  }

  predicate OutsideLock(c: Call) {
    c == NoCall || c == OtherCall
  }

  /** A firing about a request that does not share the key of the one outstanding. */
  predicate OtherRequest(w: World, dev: u32, sector: u64) {
    w.request.Some? ==> KeyOfRead(w.request.value) != PackBlockKey(dev, sector)
  }

  /** Other activity: any switch, any call or issue of other processes, other threads' futex calls on
      other words, and anybody's other requests. */
  predicate Unrelated(n: Names, w: World, a: Action) {
    match a
    case SetTarget(_, _) => false
    case SchedSwitch(_, _, _, _, _, _) => true
    case FutexEnter(_, tgid, tid, uaddr, _, _) => tgid == n.tgid ==> !OurThread(n, tid) && uaddr != n.word
    case FutexExit(_, tid) => !OurThread(n, tid)
    case BlockRqIssue(_, tgid, _, dev, sector, _) => tgid == n.tgid ==> OtherRequest(w, dev, sector)
    case BlockRqComplete(_, dev, sector) => OtherRequest(w, dev, sector)
    case Quiet(_) => true
  }

  /** The switch takes the waiter off the CPU without its being runnable. */
  predicate TakesOff(n: Names, a: Action) {
    a.SchedSwitch? && a.prevState != 0 && a.tgid == n.tgid && AsU32(a.prevPid) == n.waiter
  }

  function AfterSwitch(n: Names, w: World, a: Action): World {
    if !a.SchedSwitch? then w
    else w.(
      offCpu := (w.offCpu || TakesOff(n, a)) && AsU32(a.nextPid) != n.waiter,
      stalled := w.stalled || (TakesOff(n, a) && Sleeping(w)))
  }

  predicate Sleeping(w: World) {
    WAITER < |w.lock.threads| && PcOf(w, WAITER) == FutexMutex.Asleep
  }

  /** A thread that was switched out blocked does nothing until it is switched in; the argument needs
      this of the waiter only. */
  predicate OnCpu(w: World, t: nat) {
    t == WAITER ==> !w.offCpu
  }

  /** Where in its code a thread must be for a lock operation: outside any call, except that the
      kernel's check and wake happen inside one. The waiter is started once the holder has the lock;
      the holder releases only after its reads. */
  predicate OperationReady(w: World, m: FutexMutex.Move) {
    match m
    case CompareExchange(t) => CallOf(w, t) == NoCall && (t == WAITER ==> w.acquired)
    case SwapContended(t) => CallOf(w, t) == NoCall
    case FutexWait(t) => CallOf(w, t) == WaitCall
    case Interrupt(t) => CallOf(w, t) == WaitCall
    case SwapFree(t) => CallOf(w, t) == NoCall && (t == HOLDER ==> w.acquired && w.readsLeft == 0 && w.request == None)
    case FutexWake(t, _) => CallOf(w, t) == WakeCall
  }

  /** `lock` waits after its swap and `unlock` wakes after its own; other calls are made at any time. */
  predicate CanEnter(w: World, t: nat, c: Call) {
    t < 2 <= |w.lock.threads| && OnCpu(w, t) && CallOf(w, t) == NoCall &&
    match c
    case WaitCall => PcOf(w, t) == FutexMutex.Waiting
    case WakeCall => PcOf(w, t) == FutexMutex.Waking
    case OtherCall => true
    case NoCall => false
  }

  /** A wait returns once its thread is awake, and a wake once it has been carried out. */
  predicate CanLeave(w: World, t: nat) {
    t < 2 <= |w.lock.threads| && OnCpu(w, t) &&
    match CallOf(w, t)
    case WaitCall => PcOf(w, t) == FutexMutex.Swapping
    case WakeCall => PcOf(w, t) != FutexMutex.Waking
    case OtherCall => true
    case NoCall => false
  }

  predicate EntersFutex(n: Names, t: nat, c: Call, a: Action) {
    a.FutexEnter? && a.tgid == n.tgid && a.tid == Tid(n, t) &&
    match c
    case WaitCall => a.uaddr == n.word && a.opArg == 0
    case WakeCall => a.uaddr == n.word && a.opArg == 1
    case _ => a.uaddr != n.word
  }

  /** The deed is possible in `w`, and `a` is what the probes see of it. */
  predicate Allowed(n: Names, w: World, s: Turn) {
    var a := s.action;
    match s.deed
    case Operate(m) =>
      a.Quiet? && m.t < 2 && FutexMutex.Enabled(w.lock, m) && OperationReady(w, m) && (m.Interrupt? || OnCpu(w, m.t))
    case Enter(t, c) => CanEnter(w, t, c) && EntersFutex(n, t, c, a)
    case Leave(t) => CanLeave(w, t) && a.FutexExit? && a.tid == Tid(n, t)
    case StoreAcquired => a.Quiet? && 2 <= |w.lock.threads| && PcOf(w, HOLDER) == FutexMutex.Holding
    case IssueRead(dev, sector) =>
      2 <= |w.lock.threads| && PcOf(w, HOLDER) == FutexMutex.Holding && w.acquired && w.readsLeft > 0 && w.request == None &&
      a.BlockRqIssue? && a.tgid == n.tgid && a.tid == n.holder && a.dev == dev && a.sector == sector
    case CompleteRead =>
      w.readsLeft > 0 && w.request.Some? && a.BlockRqComplete? && (a.dev, a.sector) == w.request.value
    case Elsewhere => Unrelated(n, w, a)
  }

  function Do(n: Names, w: World, s: Turn): World
    requires Allowed(n, w, s)
  {
    match s.deed
    case Operate(m) =>
      var lock := FutexMutex.Apply(w.lock, m);
      w.(lock := lock, slept := w.slept || (m == FutexMutex.FutexWait(WAITER) && w.lock.word == 2))
    case Enter(t, c) => WithCall(w, t, c)
    case Leave(t) => WithCall(w, t, NoCall)
    case StoreAcquired => w.(acquired := true)
    case IssueRead(dev, sector) => w.(request := Some((dev, sector)))
    case CompleteRead => w.(request := None, lastRead := Some(Completed(w.request.value, s.action.ts)), readsLeft := w.readsLeft - 1)
    case Elsewhere => AfterSwitch(n, w, s.action)
  }

  predicate Runs(n: Names, w: World, steps: seq<Turn>)
    decreases |steps|, 0
  {
    steps == [] || (Runs(n, w, Init(steps)) && Allowed(n, WorldAfter(n, w, Init(steps)), Last(steps)))
  }

  function WorldAfter(n: Names, w: World, steps: seq<Turn>): World
    requires Runs(n, w, steps)
    decreases |steps|, 1
  {
    if steps == [] then w else Do(n, WorldAfter(n, w, Init(steps)), Last(steps))
  }

  /** The firings before the program runs: the probes may have fired for a while when the target is set. */
  predicate Attached(n: Names, h0: seq<Action>) {
    h0 != [] && Last(h0).SetTarget? && Last(h0).tgid == n.tgid && forall i :: 0 <= i < |h0| - 1 ==> !h0[i].SetTarget?
  }

  /** The firings of a run, after those of `h0`. */
  function History(h0: seq<Action>, steps: seq<Turn>): seq<Action> {
    if steps == [] then h0 else History(h0, Init(steps)) + [Last(steps).action]
  }

  /** Both threads about to start: one lock round each, all the reads still to do. */
  predicate Beginning(w: World, total: nat) {
    && FutexMutex.Initial(w.lock) && |w.lock.threads| == 2
    && w.lock.threads[HOLDER].rounds == 1 && w.lock.threads[WAITER].rounds == 1
    && w.holderCall == NoCall && w.waiterCall == NoCall && !w.acquired && !w.slept && !w.offCpu && !w.stalled
    && w.readsLeft == total && w.request == None && w.lastRead == None
  }

  predicate ThreadDone(w: World, t: nat) {
    t < |w.lock.threads| && FutexMutex.Finished(w.lock.threads[t]) && OutsideLock(CallOf(w, t))
  }

  // --------------------------------------------------------- program invariant

  /** What the code of the two threads guarantees of their positions. */
  ghost predicate ProgramInv(w: World) {
    && FutexMutex.Exclusive(w.lock) && |w.lock.threads| == 2
    && var h, v := w.lock.threads[HOLDER], w.lock.threads[WAITER];
    // the waiter is not started before the holder has the lock, so the holder never contends
    && (!w.acquired ==> v == FutexMutex.Thread(FutexMutex.Idle, 1) && OutsideLock(w.waiterCall))
    && (h.pc == FutexMutex.Idle || h.pc == FutexMutex.Holding || h.pc == FutexMutex.Waking)
    && h.rounds <= 1 && v.rounds <= 1
    && (h.rounds == 1 <==> h.pc == FutexMutex.Idle && !FutexMutex.Finished(h))
    && (h.rounds == 1 ==> !w.acquired && OutsideLock(w.holderCall))
    && (v.rounds == 1 ==> v.pc == FutexMutex.Idle && OutsideLock(w.waiterCall))
    // calls in progress
    && w.holderCall != WaitCall
    && (w.holderCall == WakeCall ==> h.pc == FutexMutex.Waking || h.pc == FutexMutex.Idle)
    && (w.waiterCall == WaitCall ==> v.pc == FutexMutex.Waiting || v.pc == FutexMutex.Asleep || v.pc == FutexMutex.Swapping)
    && (w.waiterCall == WakeCall ==> v.pc == FutexMutex.Waking || v.pc == FutexMutex.Idle)
    && (v.pc == FutexMutex.Asleep ==> w.waiterCall == WaitCall && w.slept)
    && (w.stalled ==> w.slept)
    // reads happen under the lock
    && (w.request.Some? ==> h.pc == FutexMutex.Holding && w.readsLeft > 0)
    && (h.pc == FutexMutex.Waking || FutexMutex.Finished(h) ==> w.readsLeft == 0)
  }

  /** Once the waiter has slept, the holder either still holds the contended lock or owes a wake. */
  ghost predicate WakeOwed(w: World) {
    && |w.lock.threads| == 2
    && var h := w.lock.threads[HOLDER];
       (h.pc == FutexMutex.Holding && w.lock.word == 2) || h.pc == FutexMutex.Waking || w.holderCall == WakeCall
  }

  lemma BeginningInv(w: World, total: nat)
    requires Beginning(w, total)
    ensures ProgramInv(w)
  {
  }

  lemma OperateInv(n: Names, w: World, s: Turn)
    requires ProgramInv(w) && Allowed(n, w, s) && s.deed.Operate?
    ensures ProgramInv(Do(n, w, s))
  {
    var m := s.deed.move;
    FutexMutex.ExclusiveStep(w.lock, m);
    assert FutexMutex.Holds(w.lock, HOLDER) <==> w.lock.threads[HOLDER].pc == FutexMutex.Holding;
    assert FutexMutex.Holds(w.lock, WAITER) <==> w.lock.threads[WAITER].pc == FutexMutex.Holding;
    if m.CompareExchange? && m.t == HOLDER {
      assert w.lock.word == 0;
    }
  }

  /** A switch changes what is known of the waiter's being on the CPU, and nothing else. */
  lemma SwitchFrame(n: Names, w: World, a: Action)
    ensures var w' := AfterSwitch(n, w, a);
      && w'.lock == w.lock && w'.holderCall == w.holderCall && w'.waiterCall == w.waiterCall
      && w'.acquired == w.acquired && w'.readsLeft == w.readsLeft && w'.request == w.request
      && w'.lastRead == w.lastRead && w'.slept == w.slept && (w'.stalled ==> w.stalled || Sleeping(w))
  {
  }

  lemma EnterInv(n: Names, w: World, s: Turn)
    requires ProgramInv(w) && Allowed(n, w, s) && s.deed.Enter?
    ensures ProgramInv(Do(n, w, s))
  {
    hide FutexMutex.Exclusive, EntersFutex;
  }

  lemma LeaveInv(n: Names, w: World, s: Turn)
    requires ProgramInv(w) && Allowed(n, w, s) && s.deed.Leave?
    ensures ProgramInv(Do(n, w, s))
  {
    hide FutexMutex.Exclusive;
  }

  lemma ReadingInv(n: Names, w: World, s: Turn)
    requires ProgramInv(w) && Allowed(n, w, s) && !s.deed.Operate? && !s.deed.Enter? && !s.deed.Leave?
    ensures ProgramInv(Do(n, w, s))
  {
    hide FutexMutex.Exclusive, AfterSwitch, Unrelated;
    match s.deed
    case Elsewhere => SwitchFrame(n, w, s.action);
    case _ =>
  }

  lemma ProgramStep(n: Names, w: World, s: Turn)
    requires ProgramInv(w) && Allowed(n, w, s)
    ensures ProgramInv(Do(n, w, s))
  {
    hide ProgramInv, Allowed, Do;
    match s.deed
    case Operate(_) => OperateInv(n, w, s);
    case Enter(_, _) => EnterInv(n, w, s);
    case Leave(_) => LeaveInv(n, w, s);
    case _ => ReadingInv(n, w, s);
  }

  lemma OperateOwed(n: Names, w: World, s: Turn)
    requires ProgramInv(w) && Allowed(n, w, s) && s.deed.Operate?
    ensures var w' := Do(n, w, s);
      (w'.slept && !w.slept ==> WakeOwed(w')) && (WakeOwed(w) ==> WakeOwed(w'))
  {
    assert FutexMutex.Holds(w.lock, HOLDER) <==> w.lock.threads[HOLDER].pc == FutexMutex.Holding;
    assert FutexMutex.Holds(w.lock, WAITER) <==> w.lock.threads[WAITER].pc == FutexMutex.Holding;
  }

  lemma CallOwed(n: Names, w: World, s: Turn)
    requires Allowed(n, w, s) && !s.deed.Operate?
    ensures var w' := Do(n, w, s);
      w'.slept == w.slept && (WakeOwed(w) && (s.deed == Leave(HOLDER) ==> w.holderCall != WakeCall) ==> WakeOwed(w'))
  {
    hide FutexMutex.Apply, FutexMutex.Enabled, AfterSwitch, Unrelated, EntersFutex;
    match s.deed
    case Enter(_, _) =>
    case Leave(_) =>
    case Elsewhere => SwitchFrame(n, w, s.action);
    case _ =>
  }

  /** A sleeping waiter is owed a wake from the moment it sleeps until the holder's wake call returns. */
  lemma OwedStep(n: Names, w: World, s: Turn)
    requires ProgramInv(w) && Allowed(n, w, s)
    ensures var w' := Do(n, w, s);
      (w'.slept && !w.slept ==> WakeOwed(w')) &&
      (WakeOwed(w) && (s.deed == Leave(HOLDER) ==> w.holderCall != WakeCall) ==> WakeOwed(w'))
  {
    hide ProgramInv, Allowed, Do, WakeOwed;
    if s.deed.Operate? {
      OperateOwed(n, w, s);
    } else {
      CallOwed(n, w, s);
    }
  }

  // --------------------------------------------------- the lock in the program

  /** The lock operations of a run, in order. */
  function LockMoves(steps: seq<Turn>): seq<FutexMutex.Move> {
    if steps == [] then []
    else LockMoves(Init(steps)) + if Last(steps).deed.Operate? then [Last(steps).deed.move] else []
  }

  lemma LockStep(n: Names, w: World, s: Turn)
    requires Allowed(n, w, s)
    ensures if s.deed.Operate? then FutexMutex.Enabled(w.lock, s.deed.move) && Do(n, w, s).lock == FutexMutex.Apply(w.lock, s.deed.move)
            else Do(n, w, s).lock == w.lock
  {
    hide FutexMutex.Enabled, FutexMutex.Apply, AfterSwitch, Unrelated, EntersFutex, OperationReady;
    match s.deed
    case Operate(_) =>
    case Enter(_, _) =>
    case Leave(_) =>
    case Elsewhere => SwitchFrame(n, w, s.action);
    case _ =>
  }

  /** In every run of the program, whatever calls, reads and switches lie between, the lock goes through a
      run of the lock alone; so everything proved of the lock holds here. */
  lemma {:induction false} LockOfRun(n: Names, w: World, steps: seq<Turn>)
    requires Runs(n, w, steps)
    ensures FutexMutex.Runnable(w.lock, LockMoves(steps))
    ensures WorldAfter(n, w, steps).lock == FutexMutex.After(w.lock, LockMoves(steps))
  {
    hide Allowed, Do, FutexMutex.Enabled, FutexMutex.Apply;
    if steps != [] {
      var moves := LockMoves(Init(steps));
      LockOfRun(n, w, Init(steps));
      LockStep(n, WorldAfter(n, w, Init(steps)), Last(steps));
      if Last(steps).deed.Operate? {
        assert (moves + [Last(steps).deed.move])[..|moves|] == moves;
      } else {
        assert LockMoves(steps) == moves;
      }
    }
  }
}
