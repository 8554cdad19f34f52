/**
 * Both sides of the ground-truth condition occur. Two concrete runs of the
 * reproducer, with one read: in one the wake call returns before the waiter's
 * wait does and the whole chain is found; in the other it returns after it, on
 * another CPU, and the chain stops at the headline.
 */
module Witness {
  import opened Collections
  import opened Schema
  import opened Probes
  import opened Spans
  import opened Trace
  import opened Attribution
  import opened Causal
  import opened Reproducer
  import opened GroundTruth
  import opened Diagnosis
  import FutexMutex

  const N := Names(1, 10, 11, 4096)

  datatype Snapshot = Snapshot(world: World, tables: Tables, out: seq<Event>, now: u64)

  const START := World(
    FutexMutex.State(0, [FutexMutex.Thread(FutexMutex.Idle, 1), FutexMutex.Thread(FutexMutex.Idle, 1)], 0),
    NoCall, NoCall, false, 1, None, None, false, false, false)

  const ATTACHED := [SetTarget(1, 1)]

  ghost predicate ReachedBy(r: Snapshot, turns: seq<Turn>) {
    && Runs(N, START, turns) && WorldAfter(N, START, turns) == r.world
    && var h := History(ATTACHED, turns);
    && Ticking(h) && Last(h).ts == r.now
    && After(UNBOUNDED, h) == r.tables && Emitted(UNBOUNDED, h) == r.out
  }

  ghost predicate Reached(r: Snapshot) {
    exists turns :: ReachedBy(r, turns)
  }

  lemma Begin() returns (r: Snapshot)
    ensures Reached(r) && r == Snapshot(START, Tables(1, map[], map[], map[]), [], 1)
  {
    r := Snapshot(START, Tables(1, map[], map[], map[]), [], 1);
    assert Init(ATTACHED) == [];
    assert ReachedBy(r, []);
  }

  lemma TickingMore(h: seq<Action>, a: Action)
    requires h != [] && Ticking(h) && Last(h).ts < a.ts
    ensures Ticking(h + [a])
  {
    forall i, j | 0 <= i < j < |h + [a]| ensures (h + [a])[i].ts < (h + [a])[j].ts {
      assert j == |h| && i < |h| - 1 ==> h[i].ts < h[|h| - 1].ts;
    }
  }

  /** The snapshot after one more turn. */
  ghost function Then(r: Snapshot, deed: Deed, a: Action): Snapshot
    requires Allowed(N, r.world, Turn(deed, a))
  {
    Snapshot(Do(N, r.world, Turn(deed, a)), Next(r.tables, a), r.out + AsSeq(EmittedBy(r.tables, a)), a.ts)
  }

  lemma OneTurn(turns: seq<Turn>, turn: Turn)
    requires Runs(N, START, turns) && Allowed(N, WorldAfter(N, START, turns), turn)
    ensures Runs(N, START, turns + [turn])
    ensures WorldAfter(N, START, turns + [turn]) == Do(N, WorldAfter(N, START, turns), turn)
    ensures History(ATTACHED, turns + [turn]) == History(ATTACHED, turns) + [turn.action]
  {
    hide Allowed, Do;
    assert Init(turns + [turn]) == turns && Last(turns + [turn]) == turn;
  }

  lemma OneFiring(h: seq<Action>, a: Action)
    ensures After(UNBOUNDED, h + [a]) == Next(After(UNBOUNDED, h), a)
    ensures Emitted(UNBOUNDED, h + [a])
         == Emitted(UNBOUNDED, h) + AsSeq(EmittedBy(After(UNBOUNDED, h), a))
  {
    hide Probes.Step;
    assert Init(h + [a]) == h && Last(h + [a]) == a;
  }

  lemma More(r: Snapshot, deed: Deed, a: Action) returns (r': Snapshot)
    requires Reached(r) && Allowed(N, r.world, Turn(deed, a)) && a.ts == r.now + 1
    ensures Reached(r') && r' == Then(r, deed, a)
  {
    hide Runs, WorldAfter, History, After, Emitted, Next, EmittedBy, Do, Allowed, Ticking;
    var turns :| ReachedBy(r, turns);
    var turn, h := Turn(deed, a), History(ATTACHED, turns);
    r' := Then(r, deed, a);
    NonEmptyHistory(turns);
    OneTurn(turns, turn);
    OneFiring(h, a);
    TickingMore(h, a);
    assert ReachedBy(r', turns + [turn]);
  }

  lemma NonEmptyHistory(turns: seq<Turn>)
    ensures History(ATTACHED, turns) != []
  {
  }

  function Both(word: FutexMutex.Word, h: FutexMutex.Pc, v: FutexMutex.Pc): FutexMutex.State {
    FutexMutex.State(word, [FutexMutex.Thread(h, 0), FutexMutex.Thread(v, 0)], 0)
  }

  const WAITING := Tables(1, map[], map[11 := FutexStart(6, 4096, 0, 1, [])], map[])
  const BLOCKED := WAITING.(blocks := map[11 := BlockStart(8, 1, [])])
  const RELEASING := WAITING.futexes[10 := FutexStart(12, 4096, 1, 1, [])]
  const IDLE := Tables(1, map[], map[], map[])
  const LAST_READ := Completed((3, 77), 10)
  const READ := Event(10, 1, PackBlockKey(3, 77), 1, 10, EVENT_BLOCK_IO, [])
  const WAKE := Event(14, 2, 4096, 1, 10, EVENT_FUTEX_WAKE, [])
  const STALL := Event(15, 7, 0, 1, 11, EVENT_SCHED_BLOCK, [])
  const WAIT := Event(16, 10, 4096, 1, 11, EVENT_FUTEX_WAIT, [])
  const EARLY_STALL := Event(14, 6, 0, 1, 11, EVENT_SCHED_BLOCK, [])
  const EARLY_WAIT := Event(15, 9, 4096, 1, 11, EVENT_FUTEX_WAIT, [])
  const LATE_WAKE := Event(16, 4, 4096, 1, 10, EVENT_FUTEX_WAKE, [])
  const OWN_WAKE := Event(21, 2, 4096, 1, 11, EVENT_FUTEX_WAKE, [])

  /** The holder takes the lock; the waiter finds it taken, marks it contended and enters the kernel. */
  lemma Contends() returns (r: Snapshot)
    ensures Reached(r) && r == Snapshot(
      World(Both(2, FutexMutex.Holding, FutexMutex.Waiting), NoCall, WaitCall, true, 1, None, None, false, false, false),
      WAITING, [], 6)
  {
    hide Reached, PackBlockKey;
    r := Begin();
    r := More(r, Operate(FutexMutex.CompareExchange(HOLDER)), Quiet(2));
    r := More(r, StoreAcquired, Quiet(3));
    r := More(r, Operate(FutexMutex.CompareExchange(WAITER)), Quiet(4));
    r := More(r, Operate(FutexMutex.SwapContended(WAITER)), Quiet(5));
    r := More(r, Enter(WAITER, WaitCall), FutexEnter(6, 1, 11, 4096, 0, []));
  }

  /** The waiter sleeps and goes off the CPU; the holder completes its read. */
  lemma Sleeps() returns (r: Snapshot)
    ensures Reached(r) && r == Snapshot(
      World(Both(2, FutexMutex.Holding, FutexMutex.Asleep), NoCall, WaitCall, true, 0, None, Some(LAST_READ), true, true, true),
      BLOCKED, [READ], 10)
  {
    hide Reached, PackBlockKey;
    r := Contends();
    r := More(r, Operate(FutexMutex.FutexWait(WAITER)), Quiet(7));
    r := More(r, Elsewhere, SchedSwitch(8, 1, 11, 1, [], 0));
    r := More(r, IssueRead(3, 77), BlockRqIssue(9, 1, 10, 3, 77, []));
    r := More(r, CompleteRead, BlockRqComplete(10, 3, 77));
  }

  /** The holder releases the lock, enters its wake call, and the kernel wakes the waiter. */
  lemma Releases() returns (r: Snapshot)
    ensures Reached(r) && r == Snapshot(
      World(Both(0, FutexMutex.Idle, FutexMutex.Swapping), WakeCall, WaitCall, true, 0, None, Some(LAST_READ), true, true, true),
      BLOCKED.(futexes := RELEASING), [READ], 13)
  {
    hide Reached, PackBlockKey;
    r := Sleeps();
    r := More(r, Operate(FutexMutex.SwapFree(HOLDER)), Quiet(11));
    r := More(r, Enter(HOLDER, WakeCall), FutexEnter(12, 1, 10, 4096, 1, []));
    r := More(r, Operate(FutexMutex.FutexWake(HOLDER, Some(WAITER))), Quiet(13));
  }

  /** Both are out of the kernel, and the lock is free. */
  predicate Returned(r: Snapshot, out: seq<Event>) {
    r == Snapshot(
      World(Both(0, FutexMutex.Idle, FutexMutex.Swapping), NoCall, NoCall, true, 0, None, Some(LAST_READ), true, false, true),
      IDLE, out, 16)
  }

  /** The holder's call returns, then the waiter resumes and its call returns. */
  lemma WakeReturnsFirst() returns (r: Snapshot)
    ensures Reached(r) && Returned(r, [READ, WAKE, STALL, WAIT])
  {
    hide Reached, PackBlockKey;
    LockOperations();
    r := Releases();
    r := More(r, Leave(HOLDER), FutexExit(14, 10));
    r := More(r, Elsewhere, SchedSwitch(15, 0, 0, 0, [], 11));
    r := More(r, Leave(WAITER), FutexExit(16, 11));
  }

  /** The waiter resumes and its call returns before the holder's does. */
  lemma WaitReturnsFirst() returns (r: Snapshot)
    ensures Reached(r) && Returned(r, [READ, EARLY_STALL, EARLY_WAIT, LATE_WAKE])
  {
    hide Reached, PackBlockKey;
    LockOperations();
    r := Releases();
    r := More(r, Elsewhere, SchedSwitch(14, 0, 0, 0, [], 11));
    r := More(r, Leave(WAITER), FutexExit(15, 11));
    r := More(r, Leave(HOLDER), FutexExit(16, 10));
  }

  /** The waiter takes and releases the lock and enters its own wake call. */
  lemma SecondRelease(r0: Snapshot, out: seq<Event>) returns (r: Snapshot)
    requires Reached(r0) && Returned(r0, out)
    ensures Reached(r) && r == Snapshot(
      World(Both(0, FutexMutex.Idle, FutexMutex.Waking), NoCall, WakeCall, true, 0, None, Some(LAST_READ), true, false, true),
      IDLE.(futexes := map[11 := FutexStart(19, 4096, 1, 1, [])]), out, 19)
  {
    hide Reached, PackBlockKey;
    r := More(r0, Operate(FutexMutex.SwapContended(WAITER)), Quiet(17));
    r := More(r, Operate(FutexMutex.SwapFree(WAITER)), Quiet(18));
    r := More(r, Enter(WAITER, WakeCall), FutexEnter(19, 1, 11, 4096, 1, []));
  }

  /** Nobody is asleep, the call returns, and both threads are done. */
  lemma Finishes(r0: Snapshot, out: seq<Event>) returns (r: Snapshot)
    requires Reached(r0) && Returned(r0, out)
    ensures Reached(r) && Contended(r.world) && r.world.lastRead == Some(LAST_READ) && r.out == out + [OWN_WAKE]
  {
    hide Reached, PackBlockKey;
    LockOperations();
    r := SecondRelease(r0, out);
    r := More(r, Operate(FutexMutex.FutexWake(WAITER, None)), Quiet(20));
    r := More(r, Leave(WAITER), FutexExit(21, 11));
  }

  lemma FirstEvidence(w: World)
    requires w.lastRead == Some(LAST_READ)
    ensures var es := [READ, WAKE, STALL, WAIT] + [OWN_WAKE];
      Evidence(N, w, es, STALL, WAIT, WAKE, READ) && Explains(N, es, STALL, WAIT, WAKE, READ)
  {
    hide PackBlockKey;
    var es := [READ, WAKE, STALL, WAIT] + [OWN_WAKE];
    assert es[0] == READ && es[1] == WAKE && es[2] == STALL && es[3] == WAIT;
    assert !NearerRequest(es, STALL, WAIT);
  }

  lemma SecondEvidence(w: World)
    requires w.lastRead == Some(LAST_READ)
    ensures var es := [READ, EARLY_STALL, EARLY_WAIT, LATE_WAKE] + [OWN_WAKE];
      && Evidence(N, w, es, EARLY_STALL, EARLY_WAIT, LATE_WAKE, READ)
      && EndsInside(EARLY_STALL, EARLY_WAIT) && !NearerRequest(es, EARLY_STALL, EARLY_WAIT)
  {
    hide PackBlockKey;
    var es := [READ, EARLY_STALL, EARLY_WAIT, LATE_WAKE] + [OWN_WAKE];
    assert es[0] == READ && es[1] == EARLY_STALL && es[2] == EARLY_WAIT && es[3] == LATE_WAKE;
  }

  lemma IsRun(r: Snapshot) returns (turns: seq<Turn>)
    requires Reached(r)
    ensures RunOf(N, START, ATTACHED, turns, 1) && WorldAfter(N, START, turns) == r.world
    ensures Emitted(UNBOUNDED, History(ATTACHED, turns)) == r.out
  {
    hide Runs, WorldAfter, History, After, Emitted, Ticking;
    turns :| ReachedBy(r, turns);
  }

  /** A contended run whose recording meets the condition: the chain is the true one. */
  lemma GroundTruthApplies() returns (turns: seq<Turn>)
    ensures RunOf(N, START, ATTACHED, turns, 1) && Contended(WorldAfter(N, START, turns))
    ensures var es := Emitted(UNBOUNDED, History(ATTACHED, turns));
      && Evidence(N, WorldAfter(N, START, turns), es, STALL, WAIT, WAKE, READ)
      && Explains(N, es, STALL, WAIT, WAKE, READ)
      && ChainOf(FromEvent(STALL), Partitioned(Recorded(es))) == ExpectedChain(N, STALL, WAIT, WAKE, READ)
  {
    hide Reached, RunOf, Contended, Evidence, Explains, Partitioned, Recorded, ChainOf, PackBlockKey;
    var r := WakeReturnsFirst();
    r := Finishes(r, [READ, WAKE, STALL, WAIT]);
    FirstEvidence(r.world);
    turns := IsRun(r);
    SubsequenceRefl(r.out);
    GroundTruthChain(N, START, ATTACHED, turns, 1, r.out, STALL, WAIT, WAKE, READ);
  }

  /** A contended run in which the wake's exit is stamped after the wait's: nothing is lost, yet the chain
      stops at the headline. */
  lemma WakeMayExitTooLate() returns (turns: seq<Turn>)
    ensures RunOf(N, START, ATTACHED, turns, 1) && Contended(WorldAfter(N, START, turns))
    ensures var es := Emitted(UNBOUNDED, History(ATTACHED, turns));
      && Evidence(N, WorldAfter(N, START, turns), es, EARLY_STALL, EARLY_WAIT, LATE_WAKE, READ)
      && !Explains(N, es, EARLY_STALL, EARLY_WAIT, LATE_WAKE, READ)
      && ChainOf(FromEvent(EARLY_STALL), Partitioned(Recorded(es)))
         == Chain(FromEvent(EARLY_STALL), Cause.Futex(FromEvent(EARLY_WAIT)), [])
  {
    hide Reached, RunOf, Contended, Evidence, NearerRequest, EndsInside, NothingBetween, Partitioned, Recorded, ChainOf, PackBlockKey;
    var r := WaitReturnsFirst();
    r := Finishes(r, [READ, EARLY_STALL, EARLY_WAIT, LATE_WAKE]);
    SecondEvidence(r.world);
    turns := IsRun(r);
    SubsequenceRefl(r.out);
    LateWakeIsMissed(N, START, ATTACHED, turns, 1, r.out, EARLY_STALL, EARLY_WAIT, LATE_WAKE, READ);
  }
}
