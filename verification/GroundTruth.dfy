/**
 * The reproducer's promise: in every interleaving in which the waiter sleeps,
 * the waiter's stall is explained by its futex wait, the holder's wake, and the
 * holder's last disk read.
 */
module GroundTruth {
  import opened Collections
  import opened Schema
  import opened Trace
  import opened Probes
  import opened Matching
  import opened Loss
  import opened Spans
  import opened Causal
  import opened Nearest
  import opened Attribution
  import opened Reproducer
  import FutexMutex

  predicate LockWake(n: Names, t: nat, e: Event) {
    e.eventType == EVENT_FUTEX_WAKE && e.key == n.word && e.tid == Tid(n, t)
  }

  predicate LockWait(n: Names, e: Event) {
    e.eventType == EVENT_FUTEX_WAIT && e.key == n.word && e.tid == n.waiter
  }

  predicate WaiterStall(n: Names, e: Event) {
    e.eventType == EVENT_SCHED_BLOCK && e.tid == n.waiter
  }

  predicate HolderRequest(n: Names, e: Event) {
    e.eventType == EVENT_BLOCK_IO && e.tid == n.holder
  }

  /** A futex event about the lock word. */
  predicate OnLock(n: Names, e: Event) {
    e.key == n.word && (e.eventType == EVENT_FUTEX_WAIT || e.eventType == EVENT_FUTEX_WAKE)
  }

  // ------------------------------------------------------- what a turn changes

  /** A thread is in a call afterwards because it entered it now, or was in it and did not leave. */
  lemma CallSteps(n: Names, w: World, turn: Turn, t: nat)
    requires Allowed(n, w, turn) && t < 2
    ensures var c := CallOf(Do(n, w, turn), t);
      if turn.deed.Enter? && turn.deed.t == t then CallOf(w, t) == NoCall && c == turn.deed.call
      else if turn.deed == Leave(t) then c == NoCall
      else c == CallOf(w, t)
  {
    hide FutexMutex.Apply, FutexMutex.Enabled, AfterSwitch, Unrelated, EntersFutex, OperationReady;
    match turn.deed
    case Enter(_, _) =>
    case Leave(_) =>
    case Elsewhere => SwitchFrame(n, w, turn.action);
    case _ =>
  }

  lemma ReadsKept(n: Names, w: World, turn: Turn)
    requires Allowed(n, w, turn)
    ensures var w' := Do(n, w, turn);
      && (turn.deed.CompleteRead? ==>
        w'.lastRead == Some(Completed(w.request.value, turn.action.ts)) && w'.readsLeft == w.readsLeft - 1)
      && (!turn.deed.CompleteRead? ==> w'.lastRead == w.lastRead && w'.readsLeft == w.readsLeft)
      && (!turn.deed.CompleteRead? && !turn.deed.IssueRead? ==> w'.request == w.request)
  {
    hide FutexMutex.Apply, FutexMutex.Enabled, AfterSwitch, Unrelated, EntersFutex, OperationReady;
    match turn.deed
    case CompleteRead =>
    case Elsewhere => SwitchFrame(n, w, turn.action);
    case _ =>
  }

  /** How a turn changes what is known of the waiter's being on the CPU. */
  lemma OffCpuSteps(n: Names, w: World, turn: Turn)
    requires ProgramInv(w) && Allowed(n, w, turn)
    ensures var w' := Do(n, w, turn);
      && (turn.action.SchedSwitch? ==>
        && w'.offCpu == ((w.offCpu || TakesOff(n, turn.action)) && AsU32(turn.action.nextPid) != n.waiter)
        && (w'.stalled && !w.stalled ==> TakesOff(n, turn.action) && w.waiterCall == WaitCall)
        && w'.waiterCall == w.waiterCall)
      && (!turn.action.SchedSwitch? ==> w'.offCpu == w.offCpu && w'.stalled == w.stalled)
      && (w.offCpu ==> w'.waiterCall == w.waiterCall)
  {
    hide FutexMutex.Exclusive, FutexMutex.Apply, FutexMutex.Enabled, Unrelated;
    match turn.deed
    case Operate(_) =>
    case Enter(_, _) =>
    case Leave(_) =>
    case Elsewhere =>
    case _ =>
  }

  // ------------------------------------------------- what the tables contain

  /** A thread is in the futex table exactly while it is in a call, with the address and kind of that call. */
  ghost predicate InTable(n: Names, s: Tables, tid: u32, c: Call) {
    && (tid in s.futexes <==> c != NoCall)
    && (tid in s.futexes ==>
      match c
      case WaitCall => s.futexes[tid].uaddr == n.word && FutexEventType(s.futexes[tid].op) == Some(EVENT_FUTEX_WAIT)
      case WakeCall => s.futexes[tid].uaddr == n.word && FutexEventType(s.futexes[tid].op) == Some(EVENT_FUTEX_WAKE)
      case OtherCall => s.futexes[tid].uaddr != n.word
      case NoCall => true)
  }

  lemma LockOperations()
    ensures FutexEventType(FutexOp(0)) == Some(EVENT_FUTEX_WAIT)
    ensures FutexEventType(FutexOp(1)) == Some(EVENT_FUTEX_WAKE)
  {
  }

  /** The tables after a firing of the unbounded machine. */
  function Next(s: Tables, a: Action): Tables {
    Step(UNBOUNDED, s, a).tables
  }

  ghost predicate FutexTableInv(n: Names, w: World, s: Tables) {
    && InTable(n, s, n.holder, w.holderCall) && InTable(n, s, n.waiter, w.waiterCall)
    && (forall tid :: tid in s.futexes && !OurThread(n, tid) ==> s.futexes[tid].uaddr != n.word)
  }

  ghost predicate RequestTableInv(n: Names, w: World, s: Tables) {
    w.request.Some? ==> KeyOfRead(w.request.value) in s.requests && s.requests[KeyOfRead(w.request.value)].tid == n.holder
  }

  /** The waiter is in the table of blocked threads exactly while it is off the CPU. */
  ghost predicate BlockTableInv(n: Names, w: World, s: Tables) {
    w.offCpu <==> n.waiter in s.blocks
  }

  lemma FutexTableEnter(n: Names, w: World, s: Tables, turn: Turn)
    requires Distinct(n) && s.target == n.tgid && FutexTableInv(n, w, s) && Allowed(n, w, turn) && turn.deed.Enter?
    ensures FutexTableInv(n, Do(n, w, turn), Next(s, turn.action))
  {
    hide FutexEventType, FutexOp;
    LockOperations();
  }

  lemma FutexTableLeave(n: Names, w: World, s: Tables, turn: Turn)
    requires Distinct(n) && s.target == n.tgid && FutexTableInv(n, w, s) && Allowed(n, w, turn) && turn.deed.Leave?
    ensures FutexTableInv(n, Do(n, w, turn), Next(s, turn.action))
  {
    hide FutexEventType, FutexOp;
  }

  lemma FutexTableElsewhere(n: Names, w: World, s: Tables, turn: Turn)
    requires Distinct(n) && s.target == n.tgid && FutexTableInv(n, w, s) && Allowed(n, w, turn) && turn.deed.Elsewhere?
    requires turn.action.FutexEnter? || turn.action.FutexExit?
    ensures FutexTableInv(n, w, Next(s, turn.action))
  {
    hide FutexEventType, FutexOp, FutexMutex.Enabled;
  }

  /** Futex calls, requests and switches each change their own table only. */
  lemma TablesKept(s: Tables, a: Action)
    ensures !a.FutexEnter? && !a.FutexExit? ==> Next(s, a).futexes == s.futexes
    ensures !a.BlockRqIssue? && !a.BlockRqComplete? ==> Next(s, a).requests == s.requests
    ensures !a.SchedSwitch? ==> Next(s, a).blocks == s.blocks
  {
    hide FutexEventType, FutexOp, PackBlockKey, Insert, Outgoing, BlockEvent, FutexEvent, RequestEvent;
    match a
    case SetTarget(_, _) =>
    case SchedSwitch(_, _, _, _, _, _) =>
    case FutexEnter(_, _, _, _, _, _) =>
    case FutexExit(_, _) =>
    case BlockRqIssue(_, _, _, _, _, _) =>
    case BlockRqComplete(_, _, _) =>
    case Quiet(_) =>
  }

  /** What the probes see of a deed. */
  lemma Seen(n: Names, w: World, turn: Turn)
    requires Allowed(n, w, turn)
    ensures turn.action.FutexEnter? || turn.action.FutexExit? ==> turn.deed.Enter? || turn.deed.Leave? || turn.deed.Elsewhere?
    ensures turn.action.BlockRqIssue? || turn.action.BlockRqComplete? ==> turn.deed.IssueRead? || turn.deed.CompleteRead? || turn.deed.Elsewhere?
    ensures turn.action.SchedSwitch? ==> turn.deed.Elsewhere?
  {
    hide FutexMutex.Enabled, OperationReady, Unrelated, CanEnter, CanLeave;
  }

  lemma FutexTableStep(n: Names, w: World, s: Tables, turn: Turn)
    requires Distinct(n) && s.target == n.tgid && FutexTableInv(n, w, s) && Allowed(n, w, turn)
    ensures FutexTableInv(n, Do(n, w, turn), Next(s, turn.action))
  {
    hide Next, Do, Allowed;
    Seen(n, w, turn);
    if turn.deed.Enter? {
      FutexTableEnter(n, w, s, turn);
    } else if turn.deed.Leave? {
      FutexTableLeave(n, w, s, turn);
    } else {
      CallSteps(n, w, turn, HOLDER);
      CallSteps(n, w, turn, WAITER);
      if turn.action.FutexEnter? || turn.action.FutexExit? {
        FutexTableElsewhere(n, w, s, turn);
      } else {
        TablesKept(s, turn.action);
      }
    }
  }

  lemma RequestTableElsewhere(n: Names, w: World, s: Tables, turn: Turn)
    requires s.target == n.tgid && RequestTableInv(n, w, s) && Allowed(n, w, turn) && turn.deed.Elsewhere?
    requires turn.action.BlockRqIssue? || turn.action.BlockRqComplete?
    ensures RequestTableInv(n, w, Next(s, turn.action))
  {
    hide PackBlockKey, FutexMutex.Enabled;
  }

  lemma RequestTableRead(n: Names, w: World, s: Tables, turn: Turn)
    requires Distinct(n) && s.target == n.tgid && RequestTableInv(n, w, s) && Allowed(n, w, turn)
    requires turn.deed.IssueRead? || turn.deed.CompleteRead?
    ensures RequestTableInv(n, Do(n, w, turn), Next(s, turn.action))
  {
    hide PackBlockKey, FutexMutex.Apply;
    match turn.deed
    case IssueRead(_, _) =>
    case CompleteRead =>
  }

  lemma RequestTableStep(n: Names, w: World, s: Tables, turn: Turn)
    requires Distinct(n) && s.target == n.tgid && RequestTableInv(n, w, s) && Allowed(n, w, turn)
    ensures RequestTableInv(n, Do(n, w, turn), Next(s, turn.action))
  {
    hide Next, Do, Allowed;
    Seen(n, w, turn);
    if turn.deed.IssueRead? || turn.deed.CompleteRead? {
      RequestTableRead(n, w, s, turn);
    } else {
      ReadsKept(n, w, turn);
      if turn.action.BlockRqIssue? || turn.action.BlockRqComplete? {
        RequestTableElsewhere(n, w, s, turn);
      } else {
        TablesKept(s, turn.action);
      }
    }
  }

  /** Only a switch moves threads in and out of the table of blocked threads, and it reports the waiter's
      stall when it brings the waiter back. */
  lemma SwitchReport(n: Names, w: World, s: Tables, turn: Turn)
    requires Distinct(n) && s.target == n.tgid && BlockTableInv(n, w, s) && Allowed(n, w, turn) && turn.action.SchedSwitch?
    ensures BlockTableInv(n, Do(n, w, turn), Next(s, turn.action))
    ensures (w.offCpu || TakesOff(n, turn.action)) && AsU32(turn.action.nextPid) == n.waiter ==>
      var r := EmittedBy(s, turn.action); r.Some? && WaiterStall(n, r.value) && r.value.timestamp == turn.action.ts
  {
    assert turn.deed.Elsewhere?;
  }

  lemma BlockTableStep(n: Names, w: World, s: Tables, turn: Turn)
    requires Distinct(n) && ProgramInv(w) && s.target == n.tgid && BlockTableInv(n, w, s) && Allowed(n, w, turn)
    ensures BlockTableInv(n, Do(n, w, turn), Next(s, turn.action))
  {
    hide Next, Do, Allowed, ProgramInv;
    if turn.action.SchedSwitch? {
      SwitchReport(n, w, s, turn);
    } else {
      OffCpuSteps(n, w, turn);
      TablesKept(s, turn.action);
    }
  }

  // ------------------------------------------------------ what gets reported

  /** The event, if any, that a firing makes the unbounded machine emit. */
  function EmittedBy(s: Tables, a: Action): Option<Event> {
    Step(UNBOUNDED, s, a).event
  }

  /** On the lock word only the two threads wake and only the waiter waits. */
  ghost predicate Proper(n: Names, e: Event) {
    OnLock(n, e) ==> OurThread(n, e.tid) && (e.eventType == EVENT_FUTEX_WAIT ==> e.tid == n.waiter)
  }

  /** The thread whose call on the lock word returns with this turn. */
  predicate Returns(w: World, turn: Turn, t: nat, c: Call) {
    turn.deed == Leave(t) && CallOf(w, t) == c
  }

  lemma OthersNotOnLock(n: Names, w: World, s: Tables, turn: Turn)
    requires Distinct(n) && FutexTableInv(n, w, s) && Allowed(n, w, turn) && !turn.deed.Leave?
    ensures EmittedBy(s, turn.action).Some? ==> !OnLock(n, EmittedBy(s, turn.action).value)
  {
    hide FutexOp, PackBlockKey;
  }

  /** A call on the lock word is reported when it returns, from its entry on; no other event is on it. */
  lemma LeaveReport(n: Names, w: World, s: Tables, turn: Turn)
    requires Distinct(n) && ProgramInv(w) && FutexTableInv(n, w, s) && Allowed(n, w, turn) && turn.deed.Leave?
    ensures var t := turn.deed.t; var c, r := CallOf(w, t), EmittedBy(s, turn.action);
      && t < 2 && c != NoCall
      && (r.Some? ==> Proper(n, r.value) && (OnLock(n, r.value) <==> c != OtherCall))
      && (c != OtherCall ==>
        && r.Some? && r.value.timestamp == turn.action.ts && Tid(n, t) in s.futexes && r.value.tid == Tid(n, t)
        && r.value.eventType == (if c == WaitCall then EVENT_FUTEX_WAIT else EVENT_FUTEX_WAKE)
        && r.value.duration == SaturatingSub(turn.action.ts, s.futexes[Tid(n, t)].ts))
  {
    hide FutexEventType, FutexOp, FutexMutex.Exclusive;
  }

  /** Every turn: the emitted event is about the lock word exactly when a call on it returns. */
  lemma Reported(n: Names, w: World, s: Tables, turn: Turn)
    requires Distinct(n) && ProgramInv(w) && FutexTableInv(n, w, s) && Allowed(n, w, turn)
    ensures var r := EmittedBy(s, turn.action);
      r.Some? ==>
        && Proper(n, r.value)
        && (forall t: nat :: t < 2 && LockWake(n, t, r.value) ==> Returns(w, turn, t, WakeCall))
        && (LockWait(n, r.value) ==> Returns(w, turn, WAITER, WaitCall))
  {
    hide EmittedBy, FutexTableInv, Allowed;
    if turn.deed.Leave? {
      LeaveReport(n, w, s, turn);
    } else {
      OthersNotOnLock(n, w, s, turn);
    }
  }

  lemma ReadReport(n: Names, w: World, s: Tables, turn: Turn)
    requires Distinct(n) && RequestTableInv(n, w, s) && Allowed(n, w, turn) && turn.deed.CompleteRead?
    ensures var r := EmittedBy(s, turn.action);
      && r.Some? && HolderRequest(n, r.value) && r.value.timestamp == turn.action.ts
      && r.value.key == KeyOfRead(w.request.value)
  {
    hide PackBlockKey;
  }

  // ------------------------------------------------------------ the invariant

  ghost predicate ReportedBy(out: seq<Event>, now: int) {
    forall e :: e in out ==> e.timestamp <= now
  }

  /** The waiter's waits on the lock end before it ever wakes, and it wakes at most as its last act. */
  ghost predicate WaiterInv(n: Names, w: World, out: seq<Event>) {
    && (forall e :: e in out && LockWake(n, WAITER, e) ==> ThreadDone(w, WAITER))
    && (forall d, e :: d in out && e in out && LockWait(n, d) && LockWake(n, WAITER, e) ==> d.timestamp < e.timestamp)
  }

  /** The holder wakes once, as its last act, and its last read completes before that wake begins. */
  ghost predicate HolderInv(n: Names, w: World, out: seq<Event>) {
    && (forall e :: e in out && LockWake(n, HOLDER, e) ==> ThreadDone(w, HOLDER))
    && (forall d, e :: d in out && e in out && LockWake(n, HOLDER, d) && LockWake(n, HOLDER, e) ==> d == e)
    && (forall x :: x in out && LockWake(n, HOLDER, x) && w.lastRead.Some? ==> w.lastRead.value.ts <= SpanStart(x))
  }

  /** While the holder's wake call is in progress, every read had completed when it was entered. */
  ghost predicate WakeEntryInv(n: Names, w: World, s: Tables) {
    w.holderCall == WakeCall && w.lastRead.Some? && n.holder in s.futexes ==>
      w.lastRead.value.ts <= s.futexes[n.holder].ts
  }

  /** `c` is the record of the read `w` remembers as the last one completed. */
  ghost predicate IsLastRead(n: Names, w: World, out: seq<Event>, c: Event) {
    && c in out && HolderRequest(n, c) && w.lastRead.Some?
    && c.key == KeyOfRead(w.lastRead.value.read) && c.timestamp == w.lastRead.value.ts
  }

  /** Once a read has completed, the last one is remembered and on record. */
  ghost predicate ReadInv(n: Names, w: World, out: seq<Event>, total: nat) {
    && (w.readsLeft < total ==> w.lastRead.Some?)
    && (w.lastRead.Some? ==> exists c :: IsLastRead(n, w, out, c))
  }

  /** Once the waiter has slept, the holder's wake is owed or on record, and so is the end of the waiter's wait. */
  ghost predicate WakeInv(n: Names, w: World, out: seq<Event>) {
    w.slept ==>
      && (WakeOwed(w) || exists x :: x in out && LockWake(n, HOLDER, x))
      && (w.waiterCall == WaitCall || exists v :: v in out && LockWait(n, v))
  }

  /** The stall `b` of the waiter ended in the wait it is still in. */
  ghost predicate Resumed(n: Names, w: World, s: Tables, b: Event) {
    WaiterStall(n, b) && w.waiterCall == WaitCall && n.waiter in s.futexes && s.futexes[n.waiter].ts <= b.timestamp
  }

  /** The stall `b` of the waiter ended inside its recorded wait `v` on the lock. */
  ghost predicate Enclosed(n: Names, b: Event, v: Event) {
    WaiterStall(n, b) && LockWait(n, v) && SpanStart(v) <= b.timestamp <= v.timestamp
  }

  /** Once the waiter has gone off the CPU asleep, it is still off, or its stall is on record inside a wait. */
  ghost predicate StallInv(n: Names, w: World, s: Tables, out: seq<Event>) {
    w.stalled ==>
      || (w.offCpu && w.waiterCall == WaitCall)
      || (exists b :: b in out && Resumed(n, w, s, b))
      || (exists b, v :: b in out && v in out && Enclosed(n, b, v))
  }

  /** What every step may assume. */
  ghost predicate Ready(n: Names, w: World, s: Tables, turn: Turn) {
    && Distinct(n) && ProgramInv(w) && s.target == n.tgid
    && FutexTableInv(n, w, s) && RequestTableInv(n, w, s) && BlockTableInv(n, w, s)
    && Allowed(n, w, turn)
    && forall tid :: tid in s.futexes ==> s.futexes[tid].ts <= turn.action.ts
  }

  lemma DoneOperates(n: Names, w: World, turn: Turn, t: nat)
    requires ProgramInv(w) && Allowed(n, w, turn) && turn.deed.Operate? && t < 2 && ThreadDone(w, t)
    ensures ThreadDone(Do(n, w, turn), t)
  {
    hide FutexMutex.Exclusive;
  }

  lemma DoneStays(n: Names, w: World, turn: Turn, t: nat)
    requires ProgramInv(w) && Allowed(n, w, turn) && t < 2 && ThreadDone(w, t)
    ensures ThreadDone(Do(n, w, turn), t)
  {
    hide Do, ProgramInv, EntersFutex, Unrelated;
    CallSteps(n, w, turn, t);
    if turn.deed.Operate? {
      DoneOperates(n, w, turn, t);
    } else {
      LockStep(n, w, turn);
    }
  }

  lemma DoneAfterWake(n: Names, w: World, turn: Turn, t: nat)
    requires ProgramInv(w) && Allowed(n, w, turn) && Returns(w, turn, t, WakeCall)
    ensures ThreadDone(Do(n, w, turn), t)
  {
    hide FutexMutex.Exclusive;
  }

  lemma WaiterStep(n: Names, w: World, s: Tables, out: seq<Event>, turn: Turn)
    requires Ready(n, w, s, turn) && WaiterInv(n, w, out) && ReportedBy(out, turn.action.ts - 1)
    ensures WaiterInv(n, Do(n, w, turn), out + AsSeq(EmittedBy(s, turn.action)))
  {
    hide ProgramInv, Allowed, Do, EmittedBy, FutexTableInv, RequestTableInv, BlockTableInv, ThreadDone;
    Reported(n, w, s, turn);
    if Returns(w, turn, WAITER, WakeCall) {
      LeaveReport(n, w, s, turn);
      DoneAfterWake(n, w, turn, WAITER);
    }
    if ThreadDone(w, WAITER) {
      NoCallWhenDone(w, WAITER);
      DoneStays(n, w, turn, WAITER);
    }
  }

  lemma NoCallWhenDone(w: World, t: nat)
    requires ThreadDone(w, t)
    ensures OutsideLock(CallOf(w, t))
  {
  }

  /** A read completes only while the holder has the lock, so before its wake. */
  lemma ReadsBeforeDone(n: Names, w: World, turn: Turn)
    requires ProgramInv(w) && Allowed(n, w, turn) && turn.deed.CompleteRead?
    ensures !ThreadDone(w, HOLDER) && w.holderCall != WakeCall
  {
    hide FutexMutex.Exclusive;
  }

  lemma HolderStep(n: Names, w: World, s: Tables, out: seq<Event>, turn: Turn)
    requires Ready(n, w, s, turn) && HolderInv(n, w, out) && WakeEntryInv(n, w, s)
    ensures HolderInv(n, Do(n, w, turn), out + AsSeq(EmittedBy(s, turn.action)))
  {
    hide ProgramInv, Allowed, Do, EmittedBy, FutexTableInv, RequestTableInv, BlockTableInv, ThreadDone;
    Reported(n, w, s, turn);
    ReadsKept(n, w, turn);
    if Returns(w, turn, HOLDER, WakeCall) {
      LeaveReport(n, w, s, turn);
      DoneAfterWake(n, w, turn, HOLDER);
    }
    if turn.deed.CompleteRead? {
      ReadsBeforeDone(n, w, turn);
    }
    if ThreadDone(w, HOLDER) {
      NoCallWhenDone(w, HOLDER);
      DoneStays(n, w, turn, HOLDER);
    }
  }

  /** A thread's entry in the futex table stays as it is except when it enters a call. */
  lemma EntryKept(n: Names, w: World, s: Tables, turn: Turn, t: nat)
    requires Distinct(n) && s.target == n.tgid && Allowed(n, w, turn) && t < 2
    requires !(turn.deed.Enter? && turn.deed.t == t)
    ensures Tid(n, t) in Next(s, turn.action).futexes ==>
      Tid(n, t) in s.futexes && Next(s, turn.action).futexes[Tid(n, t)] == s.futexes[Tid(n, t)]
  {
    hide FutexMutex.Enabled, PackBlockKey, FutexOp, FutexEventType, OperationReady;
  }

  lemma EntersAt(n: Names, w: World, s: Tables, turn: Turn)
    requires Distinct(n) && s.target == n.tgid && Allowed(n, w, turn) && turn.deed.Enter?
    ensures var tid := Tid(n, turn.deed.t);
      tid in Next(s, turn.action).futexes && Next(s, turn.action).futexes[tid].ts == turn.action.ts
  {
    hide PackBlockKey, FutexOp, FutexEventType;
  }

  lemma WakeEntryStep(n: Names, w: World, s: Tables, out: seq<Event>, turn: Turn, total: nat)
    requires Ready(n, w, s, turn) && WakeEntryInv(n, w, s) && ReadInv(n, w, out, total) && ReportedBy(out, turn.action.ts - 1)
    ensures WakeEntryInv(n, Do(n, w, turn), Next(s, turn.action))
  {
    hide Next, ProgramInv, Allowed, FutexTableInv, RequestTableInv, BlockTableInv, Do;
    CallSteps(n, w, turn, HOLDER);
    ReadsKept(n, w, turn);
    if turn.deed.Enter? && turn.deed.t == HOLDER {
      EntersAt(n, w, s, turn);
      if w.lastRead.Some? {
        var c :| IsLastRead(n, w, out, c);
      }
    } else {
      EntryKept(n, w, s, turn, HOLDER);
      if turn.deed.CompleteRead? {
        ReadsBeforeDone(n, w, turn);
      }
    }
  }

  lemma ReadStep(n: Names, w: World, s: Tables, out: seq<Event>, turn: Turn, total: nat)
    requires Ready(n, w, s, turn) && ReadInv(n, w, out, total)
    ensures ReadInv(n, Do(n, w, turn), out + AsSeq(EmittedBy(s, turn.action)), total)
  {
    hide ProgramInv, Allowed, FutexTableInv, RequestTableInv, BlockTableInv, Do, EmittedBy;
    var out', w' := out + AsSeq(EmittedBy(s, turn.action)), Do(n, w, turn);
    ReadsKept(n, w, turn);
    if turn.deed.CompleteRead? {
      ReadReport(n, w, s, turn);
      assert IsLastRead(n, w', out', EmittedBy(s, turn.action).value);
    } else if w.lastRead.Some? {
      var c :| IsLastRead(n, w, out, c);
      assert IsLastRead(n, w', out', c);
    }
  }

  lemma FallsAsleep(n: Names, w: World, turn: Turn)
    requires ProgramInv(w) && Allowed(n, w, turn) && Do(n, w, turn).slept && !w.slept
    ensures w.waiterCall == WaitCall && !turn.deed.Enter? && !turn.deed.Leave?
  {
    hide FutexMutex.Exclusive, FutexMutex.Apply, FutexMutex.Enabled, AfterSwitch, Unrelated, EntersFutex;
    SwitchFrame(n, w, turn.action);
  }

  lemma WakeStep(n: Names, w: World, s: Tables, out: seq<Event>, turn: Turn)
    requires Ready(n, w, s, turn) && WakeInv(n, w, out)
    ensures WakeInv(n, Do(n, w, turn), out + AsSeq(EmittedBy(s, turn.action)))
  {
    hide ProgramInv, EmittedBy, FutexTableInv, RequestTableInv, BlockTableInv, Allowed, Do, WakeOwed;
    var out', w' := out + AsSeq(EmittedBy(s, turn.action)), Do(n, w, turn);
    assert forall e :: e in out ==> e in out';
    OwedStep(n, w, turn);
    CallSteps(n, w, turn, WAITER);
    if w'.slept && !w.slept {
      FallsAsleep(n, w, turn);
    }
    if Returns(w, turn, HOLDER, WakeCall) || Returns(w, turn, WAITER, WaitCall) {
      LeaveReport(n, w, s, turn);
      assert EmittedBy(s, turn.action).value in out';
    }
  }

  lemma StallStep(n: Names, w: World, s: Tables, out: seq<Event>, turn: Turn)
    requires Ready(n, w, s, turn) && StallInv(n, w, s, out) && ReportedBy(out, turn.action.ts)
    ensures StallInv(n, Do(n, w, turn), Next(s, turn.action), out + AsSeq(EmittedBy(s, turn.action)))
  {
    hide ProgramInv, EmittedBy, RequestTableInv, BlockTableInv, Allowed, Do, Next;
    var out', w', s', a := out + AsSeq(EmittedBy(s, turn.action)), Do(n, w, turn), Next(s, turn.action), turn.action;
    assert forall e :: e in out ==> e in out';
    OffCpuSteps(n, w, turn);
    CallSteps(n, w, turn, WAITER);
    FutexTableStep(n, w, s, turn);
    if w'.stalled && (!w.stalled || (w.offCpu && w.waiterCall == WaitCall)) && !w'.offCpu {
      SwitchReport(n, w, s, turn);
      EntryKept(n, w, s, turn, WAITER);
      assert Resumed(n, w', s', EmittedBy(s, a).value);
    } else if b :| b in out && Resumed(n, w, s, b) {
      if turn.deed == Leave(WAITER) {
        LeaveReport(n, w, s, turn);
        assert b in out' && Enclosed(n, b, EmittedBy(s, a).value);
      } else {
        EntryKept(n, w, s, turn, WAITER);
        assert b in out' && Resumed(n, w', s', b);
      }
    }
  }

  // --------------------------------------------------------------- whole runs

  ghost predicate RunInv(n: Names, w: World, h: seq<Action>, total: nat) {
    var s, out := After(UNBOUNDED, h), Emitted(UNBOUNDED, h);
    && ProgramInv(w) && s.target == n.tgid
    && FutexTableInv(n, w, s) && RequestTableInv(n, w, s) && BlockTableInv(n, w, s)
    && (forall e :: e in out ==> Proper(n, e))
    && WaiterInv(n, w, out) && HolderInv(n, w, out) && WakeEntryInv(n, w, s)
    && ReadInv(n, w, out, total) && WakeInv(n, w, out) && StallInv(n, w, s, out)
  }

  lemma StartsInvariant(n: Names, w: World, h0: seq<Action>, total: nat)
    requires Distinct(n) && Beginning(w, total) && Attached(n, h0)
    ensures RunInv(n, w, h0, total)
  {
    BeginningInv(w, total);
    SilentBeforeTarget(UNBOUNDED, Init(h0));
    assert LastEvent(UNBOUNDED, h0) == None;
  }

  lemma TargetKept(n: Names, w: World, s: Tables, turn: Turn)
    requires Allowed(n, w, turn) && s.target == n.tgid
    ensures Next(s, turn.action).target == n.tgid
  {
    hide PackBlockKey, FutexOp;
  }

  /** An entry of the futex table was made by an earlier firing. */
  lemma EntryIsOlder(h: seq<Action>, tid: u32, ts: u64)
    requires forall i :: 0 <= i < |h| ==> h[i].ts < ts
    ensures tid in After(UNBOUNDED, h).futexes ==> After(UNBOUNDED, h).futexes[tid].ts < ts
  {
    hide After;
    var s := After(UNBOUNDED, h);
    if tid in s.futexes {
      var start := InFutex(s.futexes[tid]);
      assert Lookup(s, Key.Futex(tid)) == Some(start);
      InFlight(h, Key.Futex(tid), start);
      var j :| Open(h, j, Key.Futex(tid)) && StartedAt(h, j, Key.Futex(tid)) == start;
      OpenedWhen(h, j, Key.Futex(tid));
    }
  }

  lemma OpenedWhen(h: seq<Action>, j: nat, k: Key)
    requires OpensAt(h, j, k)
    ensures StartTime(StartedAt(h, j, k)) == h[j].ts
  {
  }

  lemma RunStep(n: Names, w: World, h: seq<Action>, turn: Turn, total: nat)
    requires Distinct(n) && RunInv(n, w, h, total) && Allowed(n, w, turn) && Ticking(h + [turn.action])
    ensures RunInv(n, Do(n, w, turn), h + [turn.action], total)
  {
    var s, out, a := After(UNBOUNDED, h), Emitted(UNBOUNDED, h), turn.action;
    assert Init(h + [a]) == h && Last(h + [a]) == a;
    assert After(UNBOUNDED, h + [a]) == Next(s, a);
    assert Emitted(UNBOUNDED, h + [a]) == out + AsSeq(EmittedBy(s, a));
    EarlierOnly(h, a);
    hide After, Emitted, EmittedBy, Next, Allowed, Do, ProgramInv, FutexTableInv, RequestTableInv, BlockTableInv,
      WaiterInv, HolderInv, WakeEntryInv, ReadInv, WakeInv, StallInv, Ticking, Proper;
    ProgramStep(n, w, turn);
    TargetKept(n, w, s, turn);
    FutexTableStep(n, w, s, turn);
    RequestTableStep(n, w, s, turn);
    BlockTableStep(n, w, s, turn);
    Reported(n, w, s, turn);
    WaiterStep(n, w, s, out, turn);
    HolderStep(n, w, s, out, turn);
    WakeEntryStep(n, w, s, out, turn, total);
    ReadStep(n, w, s, out, turn, total);
    WakeStep(n, w, s, out, turn);
    StallStep(n, w, s, out, turn);
  }

  lemma EarlierOnly(h: seq<Action>, a: Action)
    requires Ticking(h + [a])
    ensures Ticking(h) && ReportedBy(Emitted(UNBOUNDED, h), a.ts - 1)
    ensures forall tid :: tid in After(UNBOUNDED, h).futexes ==> After(UNBOUNDED, h).futexes[tid].ts <= a.ts
  {
    TickingPrefix(h, a);
    forall i | 0 <= i < |h| ensures h[i].ts < a.ts {
      assert (h + [a])[i].ts < (h + [a])[|h|].ts;
    }
    EmittedStamped(h);
    forall tid | tid in After(UNBOUNDED, h).futexes ensures After(UNBOUNDED, h).futexes[tid].ts <= a.ts {
      EntryIsOlder(h, tid, a.ts);
    }
  }

  lemma {:induction false} RunInvariant(n: Names, w: World, h0: seq<Action>, turns: seq<Turn>, total: nat)
    requires Distinct(n) && Beginning(w, total) && Attached(n, h0) && Runs(n, w, turns) && Ticking(History(h0, turns))
    ensures RunInv(n, WorldAfter(n, w, turns), History(h0, turns), total)
  {
    hide RunInv, Allowed, Do;
    if turns == [] {
      StartsInvariant(n, w, h0, total);
    } else {
      var before := History(h0, Init(turns));
      assert History(h0, turns) == before + [Last(turns).action];
      TickingPrefix(before, Last(turns).action);
      RunInvariant(n, w, h0, Init(turns), total);
      RunStep(n, WorldAfter(n, w, Init(turns)), before, Last(turns), total);
    }
  }

  lemma TickingPrefix(h: seq<Action>, a: Action)
    requires Ticking(h + [a])
    ensures Ticking(h)
  {
    forall i, j | 0 <= i < j < |h| ensures h[i].ts < h[j].ts {
      assert (h + [a])[i].ts < (h + [a])[j].ts;
    }
  }

  // ---------------------------------------------------------------- the evidence

  /** Both threads have finished, and the waiter went off the CPU asleep on the way. */
  predicate Contended(w: World) {
    ThreadDone(w, HOLDER) && ThreadDone(w, WAITER) && w.stalled
  }

  lemma WhenContended(w: World)
    requires ProgramInv(w) && Contended(w)
    ensures !WakeOwed(w) && w.slept && w.readsLeft == 0 && w.waiterCall != WaitCall
  {
    hide FutexMutex.Exclusive;
  }

  /** Every such run leaves the evidence: a stall of the waiter that ended inside a wait on the lock,
      exactly one wake of the lock by the holder, and the holder's last read, finished before that
      wake began. */
  lemma EvidenceExists(n: Names, w: World, h0: seq<Action>, turns: seq<Turn>, total: nat)
    returns (b: Event, v: Event, x: Event, c: Event)
    requires Distinct(n) && Beginning(w, total) && total > 0 && Attached(n, h0)
    requires Runs(n, w, turns) && Ticking(History(h0, turns)) && Contended(WorldAfter(n, w, turns))
    ensures var out, w' := Emitted(UNBOUNDED, History(h0, turns)), WorldAfter(n, w, turns);
      && b in out && v in out && Enclosed(n, b, v)
      && x in out && LockWake(n, HOLDER, x) && (forall d :: d in out && LockWake(n, HOLDER, d) ==> d == x)
      && IsLastRead(n, w', out, c) && c.timestamp <= SpanStart(x)
  {
    var h, w' := History(h0, turns), WorldAfter(n, w, turns);
    RunInvariant(n, w, h0, turns, total);
    hide After, Emitted, History, WorldAfter, ProgramInv, Contended, FutexTableInv, RequestTableInv, BlockTableInv;
    var out := Emitted(UNBOUNDED, h);
    WhenContended(w');
    x :| x in out && LockWake(n, HOLDER, x);
    c :| IsLastRead(n, w', out, c);
    b, v :| b in out && v in out && Enclosed(n, b, v);
  }
}
