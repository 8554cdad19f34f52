/**
 * The kernel's tables are bounded and refuse new keys when full. Losing an
 * entry loses an event and changes nothing else: what the bounded machine
 * reports is always part of what an unbounded one would have reported.
 */
module Loss {
  import opened Collections
  import opened Schema
  import opened Probes
  import opened Matching

  ghost predicate Submap<K, V>(m: map<K, V>, m': map<K, V>) {
    forall k :: k in m ==> k in m' && m'[k] == m[k]
  }

  /** Every entry of `s` is the entry the unbounded tables hold for that key. */
  ghost predicate Within(s: Tables, ideal: Tables) {
    && s.target == ideal.target
    && Submap(s.blocks, ideal.blocks)
    && Submap(s.futexes, ideal.futexes)
    && Submap(s.requests, ideal.requests)
  }

  lemma SubmapInsert<K, V>(m: map<K, V>, m': map<K, V>, k: K, v: V, cap: Option<nat>)
    requires Submap(m, m')
    ensures Submap(Insert(m, k, v, cap), Insert(m', k, v, None))
  {
  }

  lemma WithinOutgoing(l: Limits, s: Tables, ideal: Tables, a: Action)
    requires Within(s, ideal) && a.SchedSwitch?
    ensures Submap(Outgoing(l, s, a), Outgoing(UNBOUNDED, ideal, a))
  {
    SubmapInsert(s.blocks, ideal.blocks, AsU32(a.prevPid), BlockStart(a.ts, a.tgid, a.prevComm), l.blocks);
  }

  lemma WithinSwitch(l: Limits, s: Tables, ideal: Tables, a: Action)
    requires Within(s, ideal) && a.SchedSwitch?
    ensures Within(Step(l, s, a).tables, Step(UNBOUNDED, ideal, a).tables)
    ensures Step(l, s, a).event.Some? ==> Step(l, s, a).event == Step(UNBOUNDED, ideal, a).event
  {
    WithinOutgoing(l, s, ideal, a);
    var table, next := Outgoing(l, s, a), AsU32(a.nextPid);
    if s.target != 0 && next in table {
      assert next in Outgoing(UNBOUNDED, ideal, a);
    }
  }

  lemma WithinStep(l: Limits, s: Tables, ideal: Tables, a: Action)
    requires Within(s, ideal)
    ensures Within(Step(l, s, a).tables, Step(UNBOUNDED, ideal, a).tables)
    ensures Step(l, s, a).event.Some? ==> Step(l, s, a).event == Step(UNBOUNDED, ideal, a).event
  {
    if a.SchedSwitch? {
      WithinSwitch(l, s, ideal, a);
    } else if a.FutexEnter? || a.BlockRqIssue? {
      WithinStart(l, s, ideal, a);
    }
  }

  lemma WithinStart(l: Limits, s: Tables, ideal: Tables, a: Action)
    requires Within(s, ideal) && (a.FutexEnter? || a.BlockRqIssue?)
    ensures Within(Step(l, s, a).tables, Step(UNBOUNDED, ideal, a).tables)
  {
    if a.FutexEnter? {
      SubmapInsert(s.futexes, ideal.futexes, a.tid, FutexStart(a.ts, a.uaddr, FutexOp(a.opArg), a.tgid, a.comm), l.futexes);
    } else {
      SubmapInsert(s.requests, ideal.requests, PackBlockKey(a.dev, a.sector), BlockIoStart(a.ts, a.tgid, a.tid, a.comm), l.requests);
    }
  }

  /** For every history and every table size: the tables stay inside the unbounded ones, and the
      events are a subsequence of the unbounded machine's events. */
  lemma {:induction false} LossIsNeverDistortion(l: Limits, h: seq<Action>)
    ensures Within(After(l, h), After(UNBOUNDED, h))
    ensures Subsequence(Emitted(l, h), Emitted(UNBOUNDED, h))
  {
    if h != [] {
      var init := Init(h);
      LossIsNeverDistortion(l, init);
      WithinStep(l, After(l, init), After(UNBOUNDED, init), Last(h));
      var kept, all := Emitted(l, init), Emitted(UNBOUNDED, init);
      match LastEvent(UNBOUNDED, h)
      case Some(e) =>
        SubsequenceSkip(kept, all, e);
        SubsequenceKeep(kept, all, e);
        assert Emitted(l, h) == kept || Emitted(l, h) == kept + [e];
      case None =>
        assert Emitted(l, h) == kept && Emitted(UNBOUNDED, h) == all;
    }
  }

  /** The records a running machine's ring accepted, with losses both in the tables and in the ring,
      are records the unbounded machine emits, in the same order. */
  lemma AcceptedIsTrue(m: ProbeMachine)
    requires m.Valid()
    ensures Subsequence(m.accepted, Emitted(UNBOUNDED, m.history))
  {
    LossIsNeverDistortion(KERNEL, m.history);
    SubsequenceTrans(m.accepted, Emitted(KERNEL, m.history), Emitted(UNBOUNDED, m.history));
  }

  predicate NoRoom<K, V>(m: map<K, V>, k: K, cap: Option<nat>) {
    k !in m && cap.Some? && |m| >= cap.value
  }

  /** The firing inserts a new key into a table that has no room for it. */
  predicate Refused(l: Limits, s: Tables, a: Action) {
    s.target != 0 &&
    match a
    case SchedSwitch(_, tgid, prevPid, prevState, _, _) =>
      prevState != TASK_RUNNING && tgid == s.target && NoRoom(s.blocks, AsU32(prevPid), l.blocks)
    case FutexEnter(_, tgid, tid, _, _, _) => tgid == s.target && NoRoom(s.futexes, tid, l.futexes)
    case BlockRqIssue(_, tgid, _, dev, sector, _) =>
      tgid == s.target && NoRoom(s.requests, PackBlockKey(dev, sector), l.requests)
    case _ => false
  }

  /** From equal tables, a firing has equal effects exactly when it is not refused. */
  lemma StepLossless(l: Limits, s: Tables, a: Action)
    ensures Step(l, s, a) == Step(UNBOUNDED, s, a) <==> !Refused(l, s, a)
  {
    if Refused(l, s, a) {
      match a
      case SchedSwitch(_, _, prevPid, _, _, nextPid) =>
        if prevPid != nextPid {
          assert AsU32(prevPid) in Step(UNBOUNDED, s, a).tables.blocks;
        }
      case FutexEnter(_, _, tid, _, _, _) => assert tid in Step(UNBOUNDED, s, a).tables.futexes;
      case BlockRqIssue(_, _, _, dev, sector, _) =>
        assert PackBlockKey(dev, sector) in Step(UNBOUNDED, s, a).tables.requests;
    }
  }

  ghost predicate SameThroughout(l: Limits, h: seq<Action>) {
    forall n: nat :: n <= |h| ==>
      After(l, h[..n]) == After(UNBOUNDED, h[..n]) && Emitted(l, h[..n]) == Emitted(UNBOUNDED, h[..n])
  }

  ghost predicate NeverRefused(l: Limits, h: seq<Action>) {
    forall n: nat :: n < |h| ==> !Refused(l, After(UNBOUNDED, h[..n]), h[n])
  }

  lemma Extends(l: Limits, h: seq<Action>, n: nat)
    requires n < |h|
    ensures After(l, h[..n + 1]) == Step(l, After(l, h[..n]), h[n]).tables
    ensures Emitted(l, h[..n + 1]) == Emitted(l, h[..n]) + AsSeq(Step(l, After(l, h[..n]), h[n]).event)
  {
    assert Init(h[..n + 1]) == h[..n];
  }

  lemma {:induction false} LosslessUpTo(l: Limits, h: seq<Action>, n: nat)
    requires n <= |h| && NeverRefused(l, h)
    ensures After(l, h[..n]) == After(UNBOUNDED, h[..n])
    ensures Emitted(l, h[..n]) == Emitted(UNBOUNDED, h[..n])
  {
    if n > 0 {
      LosslessUpTo(l, h, n - 1);
      Extends(l, h, n - 1);
      Extends(UNBOUNDED, h, n - 1);
      StepLossless(l, After(UNBOUNDED, h[..n - 1]), h[n - 1]);
    }
  }

  lemma RefusalShows(l: Limits, h: seq<Action>, n: nat)
    requires n < |h| && SameThroughout(l, h)
    ensures !Refused(l, After(UNBOUNDED, h[..n]), h[n])
  {
    Extends(l, h, n);
    Extends(UNBOUNDED, h, n);
    StepLossless(l, After(UNBOUNDED, h[..n]), h[n]);
    assert After(l, h[..n + 1]) == After(UNBOUNDED, h[..n + 1]);
    assert Emitted(l, h[..n + 1]) == Emitted(UNBOUNDED, h[..n + 1]);
    assert After(l, h[..n]) == After(UNBOUNDED, h[..n]);
  }

  /** The bounded machine is indistinguishable from the unbounded one exactly when no firing ever
      brings a new key to a full table. */
  lemma LosslessIff(l: Limits, h: seq<Action>)
    ensures SameThroughout(l, h) <==> NeverRefused(l, h)
  {
    if NeverRefused(l, h) {
      forall n: nat | n <= |h| { LosslessUpTo(l, h, n); }
    }
    if SameThroughout(l, h) {
      forall n: nat | n < |h| { RefusalShows(l, h, n); }
    }
  }

  /** While no firing brings a new key to a full table, the bounded machine refines its history too: its
      tables hold exactly the open spans. */
  lemma InFlightWhileRoom(l: Limits, h: seq<Action>, k: Key, start: Start)
    requires NeverRefused(l, h)
    ensures Lookup(After(l, h), k) == Some(start)
       <==> exists j :: Open(h, j, k) && StartedAt(h, j, k) == start
  {
    assert h[..|h|] == h;
    LosslessUpTo(l, h, |h|);
    InFlight(h, k, start);
  }

  /** And it emits exactly the reports of the matched pairs. */
  lemma EmitsMatchedPairWhileRoom(l: Limits, h: seq<Action>, e: Event)
    requires h != [] && NeverRefused(l, h)
    ensures LastEvent(l, h) == Some(e)
       <==> exists j, k :: Pairs(h, j, |h| - 1, k) && Matching.Report(k, StartedAt(h, j, k), Last(h).ts) == Some(e)
  {
    var n := |h| - 1;
    assert h[..n] == Init(h);
    LosslessUpTo(l, h, n);
    StepLossless(l, After(UNBOUNDED, Init(h)), Last(h));
    EmitsMatchedPair(h, e);
  }
}
