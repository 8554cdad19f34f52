/**
 * The reproducer's three-state futex lock as an interleaving of atomic steps.
 *
 * Any number of threads take and release one lock any number of times. Each
 * compare-and-exchange, swap and futex call is one step; `unlock`'s swap and
 * its wake are two, so other threads may run in between. A sleeping thread may
 * also return spuriously (a signal), a bounded but arbitrary number of times.
 */
module FutexMutex {
  import opened Collections

  type Word = w: nat | w <= 2

  /** `Idle`: outside the lock. `Swapping`: about to swap in 2. `Waiting`: about to enter the
      kernel's check. `Waking`: the unlocking swap returned 2 and the wake is still to come. */
  datatype Pc = Idle | Swapping | Waiting | Asleep | Holding | Waking

  /** `rounds` counts the lock/unlock pairs the thread has not started yet. */
  datatype Thread = Thread(pc: Pc, rounds: nat)

  datatype State = State(word: Word, threads: seq<Thread>, spurious: nat)

  datatype Move =
    | CompareExchange(t: nat)
    | SwapContended(t: nat)
    | FutexWait(t: nat)
    | Interrupt(t: nat)
    | SwapFree(t: nat)
    | FutexWake(t: nat, woken: Option<nat>)

  predicate AnyAsleep(s: State) {
    exists i :: 0 <= i < |s.threads| && s.threads[i].pc == Asleep
  }

  predicate Enabled(s: State, m: Move) {
    m.t < |s.threads| &&
    var th := s.threads[m.t];
    match m
    case CompareExchange(_) => th.pc == Idle && th.rounds > 0
    case SwapContended(_) => th.pc == Swapping
    case FutexWait(_) => th.pc == Waiting
    case Interrupt(_) => th.pc == Asleep && s.spurious > 0
    case SwapFree(_) => th.pc == Holding
    case FutexWake(_, None) => th.pc == Waking && !AnyAsleep(s)
    case FutexWake(_, Some(i)) => th.pc == Waking && i < |s.threads| && s.threads[i].pc == Asleep
  }

  function MoveTo(s: State, t: nat, pc: Pc): State
    requires t < |s.threads|
  {
    s.(threads := s.threads[t := s.threads[t].(pc := pc)])
  }

  function Apply(s: State, m: Move): State
    requires Enabled(s, m)
  {
    match m
    case CompareExchange(t) =>
      var started := s.(threads := s.threads[t := s.threads[t].(rounds := s.threads[t].rounds - 1)]);
      if s.word == 0 then MoveTo(started, t, Holding).(word := 1) else MoveTo(started, t, Swapping)
    case SwapContended(t) => MoveTo(s, t, if s.word == 0 then Holding else Waiting).(word := 2)
    case FutexWait(t) => MoveTo(s, t, if s.word == 2 then Asleep else Swapping)
    case Interrupt(t) => MoveTo(s, t, Swapping).(spurious := s.spurious - 1)
    case SwapFree(t) => MoveTo(s, t, if s.word == 2 then Waking else Idle).(word := 0)
    case FutexWake(t, None) => MoveTo(s, t, Idle)
    case FutexWake(t, Some(i)) => MoveTo(MoveTo(s, t, Idle), i, Swapping)
  }

  /** The moves form a run from `s`: each is enabled where it is taken. */
  predicate Runnable(s: State, moves: seq<Move>)
    decreases |moves|, 0
  {
    moves == [] ||
    (Runnable(s, moves[..|moves| - 1]) && Enabled(After(s, moves[..|moves| - 1]), moves[|moves| - 1]))
  }

  function After(s: State, moves: seq<Move>): State
    requires Runnable(s, moves)
    decreases |moves|, 1
  {
    if moves == [] then s
    else Apply(After(s, moves[..|moves| - 1]), moves[|moves| - 1])
  }

  predicate Initial(s: State) {
    s.word == 0 && forall i :: 0 <= i < |s.threads| ==> s.threads[i].pc == Idle
  }

  // ---------------------------------------------------------------- safety

  ghost predicate Holds(s: State, i: nat) {
    i < |s.threads| && s.threads[i].pc == Holding
  }

  ghost predicate AtPc(s: State, i: nat, pc: Pc) {
    i < |s.threads| && s.threads[i].pc == pc
  }

  /** At most one holder, and the word is nonzero exactly while there is one. */
  ghost predicate Exclusive(s: State) {
    (forall i, j :: Holds(s, i) && Holds(s, j) ==> i == j) &&
    (s.word != 0 <==> exists i :: Holds(s, i))
  }

  /** Whenever some thread sleeps, either the word says so, or a wake or a swap of 2 is on its way. */
  ghost predicate NoLostWakeup(s: State) {
    AnyAsleep(s) ==>
      s.word == 2 || (exists i :: AtPc(s, i, Waking)) || (exists i :: AtPc(s, i, Swapping))
  }

  ghost predicate Inv(s: State) {
    Exclusive(s) && NoLostWakeup(s)
  }

  lemma ExclusiveStep(s: State, m: Move)
    requires Exclusive(s) && Enabled(s, m)
    ensures Exclusive(Apply(s, m))
  {
    var s' := Apply(s, m);
    assert forall i :: i != m.t ==> (Holds(s', i) <==> Holds(s, i));
    assert Holds(s', m.t) ==> s'.word != 0;
    if s.word != 0 && !Holds(s, m.t) {
      var h :| Holds(s, h);
      assert Holds(s', h);
    }
  }

  lemma WakeupStep(s: State, m: Move)
    requires NoLostWakeup(s) && Enabled(s, m)
    ensures NoLostWakeup(Apply(s, m))
  {
    var s' := Apply(s, m);
    assert AtPc(s', m.t, s'.threads[m.t].pc);
    if m.FutexWake? && m.woken.Some? {
      assert AtPc(s', m.woken.value, Swapping);
    } else if AnyAsleep(s') && s'.word != 2 && s'.threads[m.t].pc != Asleep {
      var a :| 0 <= a < |s'.threads| && s'.threads[a].pc == Asleep;
      assert s.threads[a].pc == Asleep;
      assert forall i, pc :: i != m.t && AtPc(s, i, pc) ==> AtPc(s', i, pc);
    }
  }

  /** Mutual exclusion and no lost wakeup hold in every reachable state. */
  lemma {:induction false} Reachable(s0: State, moves: seq<Move>)
    requires Initial(s0) && Runnable(s0, moves)
    ensures Inv(After(s0, moves))
  {
    if moves != [] {
      var init := moves[..|moves| - 1];
      Reachable(s0, init);
      ExclusiveStep(After(s0, init), moves[|moves| - 1]);
      WakeupStep(After(s0, init), moves[|moves| - 1]);
    }
  }

  predicate Finished(th: Thread) {
    th.pc == Idle && th.rounds == 0
  }

  /** Every thread has run all its rounds, the lock is free and nobody sleeps. */
  predicate AllDone(s: State) {
    s.word == 0 && forall i :: 0 <= i < |s.threads| ==> Finished(s.threads[i])
  }

  /** The program move of thread `t`, if it has one; only sleeping and finished threads do not. */
  predicate CanMove(s: State, t: nat) {
    t < |s.threads| && s.threads[t].pc != Asleep && !Finished(s.threads[t])
  }

  lemma CanMoveIsEnabled(s: State, t: nat)
    ensures CanMove(s, t) <==> exists m :: Enabled(s, m) && m.t == t && !m.Interrupt?
  {
    if CanMove(s, t) {
      match s.threads[t].pc
      case Idle => assert Enabled(s, CompareExchange(t));
      case Swapping => assert Enabled(s, SwapContended(t));
      case Waiting => assert Enabled(s, FutexWait(t));
      case Holding => assert Enabled(s, SwapFree(t));
      case Waking =>
        if AnyAsleep(s) {
          var i :| 0 <= i < |s.threads| && s.threads[i].pc == Asleep;
          assert Enabled(s, FutexWake(t, Some(i)));
        } else {
          assert Enabled(s, FutexWake(t, None));
        }
    }
  }

  /** No reachable state is stuck: without a program move to make, everything is done. */
  lemma NoDeadlock(s: State)
    requires Inv(s)
    ensures (forall t :: !CanMove(s, t)) <==> AllDone(s)
  {
    if forall t :: !CanMove(s, t) {
      if AnyAsleep(s) {
        forall i, pc | AtPc(s, i, pc) ensures pc == Asleep || pc == Idle {
          assert !CanMove(s, i);
        }
        var h :| Holds(s, h);
        assert CanMove(s, h);
      }
      forall i | 0 <= i < |s.threads| ensures Finished(s.threads[i]) {
        assert !CanMove(s, i);
      }
    }
  }

  // -------------------------------------------------------------- progress

  /** Releases this thread still has to perform. */
  function Pending(th: Thread): nat {
    th.rounds + if th.pc == Idle || th.pc == Waking then 0 else 1
  }

  /** How far a thread is from its next release, sleep or end. A thread about to wait ranks above
      one about to swap while the word is not 2 (it will be sent back) and below it once it is. */
  function Rank(word: Word, pc: Pc): nat {
    match pc
    case Idle => 4
    case Swapping => 2
    case Waiting => if word == 2 then 1 else 3
    case Asleep => 0
    case Holding => 0
    case Waking => 7
  }

  function TotalPending(ths: seq<Thread>): nat {
    if ths == [] then 0 else TotalPending(ths[..|ths| - 1]) + Pending(ths[|ths| - 1])
  }

  function TotalRank(word: Word, ths: seq<Thread>): nat {
    if ths == [] then 0 else TotalRank(word, ths[..|ths| - 1]) + Rank(word, ths[|ths| - 1].pc)
  }

  /** An upper bound on the number of moves any run can still make. */
  function Potential(s: State): nat {
    TotalPending(s.threads) * (2 * |s.threads| + 8) + 3 * s.spurious + TotalRank(s.word, s.threads)
  }

  lemma {:induction false} PendingUpdate(ths: seq<Thread>, t: nat, th: Thread)
    requires t < |ths|
    ensures TotalPending(ths[t := th]) == TotalPending(ths) - Pending(ths[t]) + Pending(th)
  {
    var init := ths[..|ths| - 1];
    if t < |init| {
      PendingUpdate(init, t, th);
      assert ths[t := th][..|ths| - 1] == init[t := th];
    } else {
      assert ths[t := th][..|ths| - 1] == init;
    }
  }

  lemma {:induction false} RankUpdate(word: Word, ths: seq<Thread>, t: nat, th: Thread)
    requires t < |ths|
    ensures TotalRank(word, ths[t := th]) == TotalRank(word, ths) - Rank(word, ths[t].pc) + Rank(word, th.pc)
  {
    var init := ths[..|ths| - 1];
    if t < |init| {
      RankUpdate(word, init, t, th);
      assert ths[t := th][..|ths| - 1] == init[t := th];
    } else {
      assert ths[t := th][..|ths| - 1] == init;
    }
  }

  /** Changing the word costs nothing when it becomes 2, and at most 2 per thread when it stops being 2. */
  lemma {:induction false} RankReword(w: Word, w': Word, ths: seq<Thread>)
    ensures TotalRank(w', ths) <= TotalRank(w, ths) + if w == 2 && w' != 2 then 2 * |ths| else 0
  {
    if ths != [] {
      RankReword(w, w', ths[..|ths| - 1]);
    }
  }

  /** Releases are conserved: only the unlocking swap uses one up. */
  lemma PendingStep(s: State, m: Move)
    requires Enabled(s, m)
    ensures TotalPending(Apply(s, m).threads)
         == TotalPending(s.threads) - if m.SwapFree? then 1 else 0
  {
    var s' := Apply(s, m);
    if m.FutexWake? && m.woken.Some? {
      var freed := MoveTo(s, m.t, Idle);
      PendingUpdate(s.threads, m.t, freed.threads[m.t]);
      PendingUpdate(freed.threads, m.woken.value, s'.threads[m.woken.value]);
    } else {
      assert s'.threads == s.threads[m.t := s'.threads[m.t]];
      PendingUpdate(s.threads, m.t, s'.threads[m.t]);
    }
  }

  lemma RankStep(s: State, m: Move)
    requires Enabled(s, m)
    ensures var before, after := TotalRank(s.word, s.threads), TotalRank(Apply(s, m).word, Apply(s, m).threads);
      match m
      case SwapFree(_) => after <= before + 2 * |s.threads| + 7
      case Interrupt(_) => after <= before + 2
      case _ => after < before
  {
    var s' := Apply(s, m);
    if m.FutexWake? && m.woken.Some? {
      var freed := MoveTo(s, m.t, Idle);
      RankUpdate(s.word, s.threads, m.t, freed.threads[m.t]);
      RankUpdate(s.word, freed.threads, m.woken.value, s'.threads[m.woken.value]);
    } else {
      assert s'.threads == s.threads[m.t := s'.threads[m.t]];
      RankUpdate(s'.word, s.threads, m.t, s'.threads[m.t]);
      RankReword(s.word, s'.word, s.threads);
    }
  }

  lemma MulPred(a: nat, k: nat)
    requires a > 0
    ensures (a - 1) * k == a * k - k
  {
  }

  /** Every move, whichever thread makes it, lowers the potential. */
  lemma PotentialDrops(s: State, m: Move)
    requires Enabled(s, m)
    ensures Potential(Apply(s, m)) < Potential(s)
  {
    PendingStep(s, m);
    RankStep(s, m);
    assert |Apply(s, m).threads| == |s.threads|;
    if m.SwapFree? {
      MulPred(TotalPending(s.threads), 2 * |s.threads| + 8);
    }
  }

  /** No run is infinite: a run can never be longer than the potential it started with. */
  lemma {:induction false} RunsAreBounded(s: State, moves: seq<Move>)
    requires Runnable(s, moves)
    ensures |moves| + Potential(After(s, moves)) <= Potential(s)
  {
    if moves != [] {
      RunsAreBounded(s, moves[..|moves| - 1]);
      PotentialDrops(After(s, moves[..|moves| - 1]), moves[|moves| - 1]);
    }
  }

  lemma {:induction false} InitialRank(s: State, n: nat)
    requires Initial(s) && n <= |s.threads|
    ensures TotalRank(0, s.threads[..n]) == 4 * n
  {
    if n > 0 {
      InitialRank(s, n - 1);
      assert s.threads[..n][..n - 1] == s.threads[..n - 1];
    }
  }

  /** The bound in terms of the program: N threads, R lock/unlock rounds in all, B spurious wakeups. */
  lemma StepBound(s0: State, moves: seq<Move>)
    requires Initial(s0) && Runnable(s0, moves)
    ensures |moves| <= TotalPending(s0.threads) * (2 * |s0.threads| + 8) + 3 * s0.spurious + 4 * |s0.threads|
  {
    RunsAreBounded(s0, moves);
    InitialRank(s0, |s0.threads|);
    assert s0.threads[..|s0.threads|] == s0.threads;
  }

  function Releases(moves: seq<Move>): nat {
    if moves == [] then 0
    else Releases(moves[..|moves| - 1]) + if moves[|moves| - 1].SwapFree? then 1 else 0
  }

  /** Conservation: releases performed plus releases outstanding never changes. */
  lemma {:induction false} ReleasesConserved(s: State, moves: seq<Move>)
    requires Runnable(s, moves)
    ensures Releases(moves) + TotalPending(After(s, moves).threads) == TotalPending(s.threads)
  {
    if moves != [] {
      ReleasesConserved(s, moves[..|moves| - 1]);
      PendingStep(After(s, moves[..|moves| - 1]), moves[|moves| - 1]);
    }
  }

  lemma {:induction false} NothingPending(ths: seq<Thread>)
    requires forall i :: 0 <= i < |ths| ==> Finished(ths[i])
    ensures TotalPending(ths) == 0
  {
    if ths != [] {
      NothingPending(ths[..|ths| - 1]);
    }
  }

  /** Total progress: a run that cannot be extended by a program move has finished every round of
      every thread, with the word 0 and nobody asleep, having released once per round. */
  lemma MaximalRunFinishes(s0: State, moves: seq<Move>)
    requires Initial(s0) && Runnable(s0, moves)
    requires forall m :: Enabled(After(s0, moves), m) ==> m.Interrupt?
    ensures AllDone(After(s0, moves)) && !AnyAsleep(After(s0, moves))
    ensures Releases(moves) == TotalPending(s0.threads)
  {
    var s := After(s0, moves);
    Reachable(s0, moves);
    forall t ensures !CanMove(s, t) {
      CanMoveIsEnabled(s, t);
    }
    NoDeadlock(s);
    ReleasesConserved(s0, moves);
    NothingPending(s.threads);
  }

  /** A lock nobody contends for is taken and released without a single futex call. */
  lemma {:induction false} UncontendedMakesNoFutexCall(s0: State, moves: seq<Move>)
    requires Initial(s0) && |s0.threads| == 1 && Runnable(s0, moves)
    ensures forall m :: m in moves ==> m.CompareExchange? || m.SwapFree?
    ensures var s := After(s0, moves);
      |s.threads| == 1 && ((s.word == 0 && s.threads[0].pc == Idle) || (s.word == 1 && s.threads[0].pc == Holding))
  {
    if moves != [] {
      UncontendedMakesNoFutexCall(s0, moves[..|moves| - 1]);
    }
  }

  // ------------------------------------------------------- the lock itself

  /** The shared word and the threads contending for it. Each method is one atomic operation of
      `lock` or `unlock`, performed by thread `t` at the point its code has reached. */
  class Lock {
    var word: Word
    var threads: seq<Thread>
    var spurious: nat

    ghost function Abs(): State
      reads this
    {
      State(word, threads, spurious)
    }

    constructor (rounds: seq<nat>, spurious: nat)
      ensures Initial(Abs()) && |threads| == |rounds|
      ensures forall i :: 0 <= i < |rounds| ==> threads[i].rounds == rounds[i]
      ensures this.spurious == spurious
    {
      word := 0;
      threads := seq(|rounds|, i requires 0 <= i < |rounds| => Thread(Idle, rounds[i]));
      this.spurious := spurious;
    }

    /** No thread but `t` moves, and no thread's rounds change. */
    twostate predicate OnlyMoves(t: nat)
      reads this
    {
      && |threads| == |old(threads)| && spurious == old(spurious)
      && forall j :: 0 <= j < |threads| ==>
        threads[j].rounds == old(threads[j].rounds) && (j != t ==> threads[j].pc == old(threads[j].pc))
    }

    method SetPc(t: nat, pc: Pc)
      requires t < |threads|
      modifies this`threads
      ensures threads == old(threads)[t := Thread(pc, old(threads)[t].rounds)]
    {
      threads := threads[t := Thread(pc, threads[t].rounds)];
    }

    /** Starts a round: takes a free lock with the word 1; a lock in use is left as it is. */
    method CompareExchange(t: nat)
      requires t < |threads| && threads[t].pc == Idle && threads[t].rounds > 0
      modifies this
      ensures old(word) == 0 ==> word == 1 && |threads| == |old(threads)| && threads[t].pc == Holding
      ensures old(word) != 0 ==> word == old(word) && |threads| == |old(threads)| && threads[t].pc == Swapping
      ensures threads[t].rounds == old(threads[t].rounds) - 1 && spurious == old(spurious)
      ensures forall j :: 0 <= j < |threads| && j != t ==> threads[j] == old(threads[j])
      ensures Enabled(old(Abs()), Move.CompareExchange(t)) && Abs() == Apply(old(Abs()), Move.CompareExchange(t))
    {
      threads := threads[t := Thread(Idle, threads[t].rounds - 1)];
      if word == 0 {
        word := 1;
        SetPc(t, Holding);
      } else {
        SetPc(t, Swapping);
      }
    }

    /** Marks the lock contended whatever the word was, and holds it exactly when the word was 0. */
    method SwapContended(t: nat)
      requires t < |threads| && threads[t].pc == Swapping
      modifies this
      ensures word == 2 && OnlyMoves(t)
      ensures threads[t].pc == if old(word) == 0 then Holding else Waiting
      ensures Enabled(old(Abs()), Move.SwapContended(t)) && Abs() == Apply(old(Abs()), Move.SwapContended(t))
    {
      var previous := word;
      word := 2;
      if previous == 0 {
        SetPc(t, Holding);
      } else {
        SetPc(t, Waiting);
      }
    }

    /** The kernel compares the word and puts the thread to sleep in one step. */
    method FutexWait(t: nat)
      requires t < |threads| && threads[t].pc == Waiting
      modifies this
      ensures word == old(word) && OnlyMoves(t)
      ensures threads[t].pc == if old(word) == 2 then Asleep else Swapping
      ensures Enabled(old(Abs()), Move.FutexWait(t)) && Abs() == Apply(old(Abs()), Move.FutexWait(t))
    {
      if word == 2 {
        SetPc(t, Asleep);
      } else {
        SetPc(t, Swapping);
      }
    }

    /** A signal sends a sleeping thread back to its swap. */
    method Interrupt(t: nat)
      requires t < |threads| && threads[t].pc == Asleep && spurious > 0
      modifies this
      ensures word == old(word) && spurious == old(spurious) - 1 && |threads| == |old(threads)|
      ensures threads[t] == Thread(Swapping, old(threads[t].rounds))
      ensures forall j :: 0 <= j < |threads| && j != t ==> threads[j] == old(threads[j])
      ensures Enabled(old(Abs()), Move.Interrupt(t)) && Abs() == Apply(old(Abs()), Move.Interrupt(t))
    {
      spurious := spurious - 1;
      SetPc(t, Swapping);
    }

    /** Frees the word, and owes a wake exactly when it was 2. */
    method SwapFree(t: nat)
      requires t < |threads| && threads[t].pc == Holding
      modifies this
      ensures word == 0 && OnlyMoves(t)
      ensures threads[t].pc == if old(word) == 2 then Waking else Idle
      ensures Enabled(old(Abs()), Move.SwapFree(t)) && Abs() == Apply(old(Abs()), Move.SwapFree(t))
    {
      var previous := word;
      word := 0;
      if previous == 2 {
        SetPc(t, Waking);
      } else {
        SetPc(t, Idle);
      }
    }

    /** Wakes one sleeper if there is one, whichever the kernel picks and whatever the word is by now; it
        goes back to its swap, and nobody else moves. */
    method FutexWake(t: nat) returns (woken: Option<nat>)
      requires t < |threads| && threads[t].pc == Waking
      modifies this
      ensures word == old(word) && spurious == old(spurious) && |threads| == |old(threads)|
      ensures woken.Some? <==> exists i :: 0 <= i < |old(threads)| && old(threads)[i].pc == Asleep
      ensures woken.Some? ==> woken.value < |threads| && old(threads[woken.value].pc) == Asleep && threads[woken.value].pc == Swapping
      ensures threads[t].pc == Idle
      ensures forall j :: 0 <= j < |threads| ==> threads[j].rounds == old(threads[j].rounds)
      ensures forall j :: 0 <= j < |threads| && j != t && woken != Some(j) ==> threads[j].pc == old(threads[j].pc)
      ensures Enabled(old(Abs()), Move.FutexWake(t, woken)) && Abs() == Apply(old(Abs()), Move.FutexWake(t, woken))
    {
      if i :| 0 <= i < |threads| && threads[i].pc == Asleep {
        woken := Some(i);
        SetPc(t, Idle);
        SetPc(i, Swapping);
      } else {
        woken := None;
        SetPc(t, Idle);
      }
    }

    /** The next operation of `lock` or `unlock` in thread `t`. */
    method StepThread(t: nat) returns (m: Move)
      requires CanMove(Abs(), t)
      modifies this
      ensures m.t == t && !m.Interrupt? && Enabled(old(Abs()), m)
      ensures Abs() == Apply(old(Abs()), m)
    {
      match threads[t].pc
      case Idle => m := Move.CompareExchange(t); CompareExchange(t);
      case Swapping => m := Move.SwapContended(t); SwapContended(t);
      case Waiting => m := Move.FutexWait(t); FutexWait(t);
      case Holding => m := Move.SwapFree(t); SwapFree(t);
      case Waking => var woken := FutexWake(t); m := Move.FutexWake(t, woken);
    }

    /** Whatever thread the scheduler picks at every turn, and whenever it lets a signal through,
        the program terminates with every round done. */
    method RunToCompletion() returns (ghost moves: seq<Move>)
      requires Initial(Abs())
      modifies this
      ensures Runnable(old(Abs()), moves) && Abs() == After(old(Abs()), moves)
      ensures AllDone(Abs()) && Releases(moves) == TotalPending(old(threads))
    {
      moves := [];
      while exists t :: 0 <= t < |threads| && CanMove(State(word, threads, spurious), t)
        invariant Runnable(old(Abs()), moves) && Abs() == After(old(Abs()), moves)
        decreases Potential(Abs())
      {
        ghost var before, m := Abs(), Move.CompareExchange(0);
        var interrupted := false;
        if * {
          if i :| 0 <= i < |threads| && threads[i].pc == Asleep && spurious > 0 {
            interrupted := true;
            m := Move.Interrupt(i);
            Interrupt(i);
          }
        }
        if !interrupted {
          var t :| 0 <= t < |threads| && CanMove(State(word, threads, spurious), t);
          m := StepThread(t);
        }
        assert (moves + [m])[..|moves|] == moves;
        PotentialDrops(before, m);
        moves := moves + [m];
      }
      Reachable(old(Abs()), moves);
      NoDeadlock(Abs());
      ReleasesConserved(old(Abs()), moves);
      NothingPending(threads);
    }
  }
}
