/**
 * One span from its first firing to its last: what a thread that leaves the CPU,
 * calls `futex` or issues a request gets reported, whatever fires in between.
 */
module RoundTrips {
  import opened Collections
  import opened Schema
  import opened Probes
  import opened Matching
  import opened Loss

  /** The firing is about the thread, call or request of `k`. */
  predicate Touches(a: Action, k: Key) {
    match k
    case Task(tid) => a.SchedSwitch? && (a.prevPid % 0x1_0000_0000 == tid || a.nextPid % 0x1_0000_0000 == tid)
    case Futex(tid) => (a.FutexEnter? || a.FutexExit?) && a.tid == tid
    case Request(packed) =>
      (a.BlockRqIssue? || a.BlockRqComplete?) && a.dev * 0x1_0000_0000 + a.sector % 0x1_0000_0000 == packed
  }

  /** Nothing in between is about `k`, and the target stays what it is. */
  ghost predicate Between(mid: seq<Action>, k: Key) {
    forall a :: a in mid ==> !Touches(a, k) && !a.SetTarget?
  }

  lemma UntouchedKeeps(s: Tables, a: Action, k: Key)
    requires !Touches(a, k) && !a.SetTarget?
    ensures Lookup(Step(UNBOUNDED, s, a).tables, k) == Lookup(s, k)
    ensures Step(UNBOUNDED, s, a).tables.target == s.target
  {
    hide FutexOp, FutexEventType;
    StepLookup(s, a, k);
  }

  lemma {:induction false} BetweenKeeps(h: seq<Action>, mid: seq<Action>, k: Key)
    requires Between(mid, k)
    ensures Lookup(After(UNBOUNDED, h + mid), k) == Lookup(After(UNBOUNDED, h), k)
    ensures After(UNBOUNDED, h + mid).target == After(UNBOUNDED, h).target
  {
    if mid == [] {
      assert h + mid == h;
    } else {
      hide Step, Lookup;
      BetweenKeeps(h, Init(mid), k);
      assert Init(h + mid) == h + Init(mid) && Last(h + mid) == Last(mid);
      UntouchedKeeps(After(UNBOUNDED, h + Init(mid)), Last(mid), k);
    }
  }

  /** The tables agree with the unbounded ones while there is room, and so does what is emitted. */
  lemma SameWhileRoom(l: Limits, h: seq<Action>)
    requires h != [] && NeverRefused(l, h)
    ensures LastEvent(l, h) == LastEvent(UNBOUNDED, h)
  {
    var n := |h| - 1;
    assert h[..n] == Init(h);
    LosslessUpTo(l, h, n);
    StepLossless(l, After(UNBOUNDED, Init(h)), Last(h));
  }

  /** What a closing firing reports of `k`, from the tables at the opening one. */
  lemma SpanReported(l: Limits, h: seq<Action>, open: Action, mid: seq<Action>, close: Action, k: Key)
    requires NeverRefused(l, h + [open] + mid + [close]) && Between(mid, k)
    requires !open.SetTarget? && !close.SetTarget?
    requires var target := After(UNBOUNDED, h).target;
      Closes(target, open) != Some(k) && Closes(target, close) == Some(k) &&
      (Opens(target, close).Some? ==> Opens(target, close).value.0 != k)
    ensures LastEvent(l, h + [open] + mid + [close]) ==
      match Current(After(UNBOUNDED, h), open, k) case None => None case Some(start) => Report(k, start, close.ts)
  {
    hide Step, Opens, Closes, Report;
    var h1 := h + [open];
    var h2 := h1 + mid;
    assert Init(h1) == h && Last(h1) == open && Init(h2 + [close]) == h2 && Last(h2 + [close]) == close;
    SameWhileRoom(l, h2 + [close]);
    StepLookup(After(UNBOUNDED, h), open, k);
    TargetKept(After(UNBOUNDED, h), open);
    BetweenKeeps(h1, mid, k);
    StepEvent(After(UNBOUNDED, h2), close);
  }

  lemma TargetKept(s: Tables, a: Action)
    requires !a.SetTarget?
    ensures Step(UNBOUNDED, s, a).tables.target == s.target
  {
    hide FutexOp, FutexEventType, PackBlockKey;
  }

  /** A thread not on record leaves the CPU and is next seen coming back: its absence is reported if and
      only if it belongs to the target and left in a state other than 0, whichever that was. */
  lemma StallReported(l: Limits, h: seq<Action>, out: Action, mid: seq<Action>, back: Action, target: u32, tid: u32)
    requires NeverRefused(l, h + [out] + mid + [back]) && After(UNBOUNDED, h).target == target != 0
    requires tid !in After(UNBOUNDED, h).blocks && Between(mid, Task(tid))
    requires out.SchedSwitch? && out.prevPid % 0x1_0000_0000 == tid != out.nextPid % 0x1_0000_0000
    requires back.SchedSwitch? && back.nextPid % 0x1_0000_0000 == tid != back.prevPid % 0x1_0000_0000
    ensures LastEvent(l, h + [out] + mid + [back]) ==
      if out.tgid == target && out.prevState != 0
      then Some(Event(back.ts, if back.ts >= out.ts then back.ts - out.ts else 0, 0, target, tid, 0, out.prevComm))
      else None
  {
    hide After, NeverRefused, Between, LastEvent;
    SpanReported(l, h, out, mid, back, Task(tid));
  }

  /** A call of a thread not on record is reported if and only if it belongs to the target and is a wait
      (type 1) or a wake (type 2), with its address. */
  lemma FutexCallReported(l: Limits, h: seq<Action>, enter: Action, mid: seq<Action>, exit: Action, target: u32)
    requires NeverRefused(l, h + [enter] + mid + [exit]) && After(UNBOUNDED, h).target == target != 0
    requires enter.FutexEnter? && exit.FutexExit? && enter.tid == exit.tid
    requires enter.tid !in After(UNBOUNDED, h).futexes && Between(mid, Key.Futex(enter.tid))
    ensures LastEvent(l, h + [enter] + mid + [exit]) ==
      var op, duration: u64 := FutexOp(enter.opArg), if exit.ts >= enter.ts then exit.ts - enter.ts else 0;
      if enter.tgid == target && IsWaitOp(op)
      then Some(Event(exit.ts, duration, enter.uaddr, target, enter.tid, 1, enter.comm))
      else if enter.tgid == target && IsWakeOp(op)
      then Some(Event(exit.ts, duration, enter.uaddr, target, enter.tid, 2, enter.comm))
      else None
  {
    hide After, NeverRefused, Between, LastEvent, IsWaitOp, IsWakeOp, FutexOp;
    SpanReported(l, h, enter, mid, exit, Key.Futex(enter.tid));
  }

  /** A request whose key is not in flight is reported when it completes if and only if the target issued
      it, as the issuing thread's, with the device in the high half of the key and the low 32 bits of the
      sector below it. */
  lemma RequestReported(l: Limits, h: seq<Action>, issue: Action, mid: seq<Action>, done: Action, target: u32, key: u64)
    requires NeverRefused(l, h + [issue] + mid + [done]) && After(UNBOUNDED, h).target == target != 0
    requires issue.BlockRqIssue? && done.BlockRqComplete? && issue.dev == done.dev && issue.sector == done.sector
    requires key == issue.dev * 0x1_0000_0000 + issue.sector % 0x1_0000_0000
    requires key !in After(UNBOUNDED, h).requests && Between(mid, Request(key))
    ensures LastEvent(l, h + [issue] + mid + [done]) ==
      if issue.tgid == target
      then Some(Event(done.ts, if done.ts >= issue.ts then done.ts - issue.ts else 0, key, target, issue.tid, 3, issue.comm))
      else None
  {
    hide After, NeverRefused, Between, LastEvent;
    SpanReported(l, h, issue, mid, done, Request(key));
  }

  /** A switch away from a thread in state 0, which is merely preempted, records nothing. */
  lemma PreemptionNotRecorded(l: Limits, s: Tables, out: Action)
    requires out.SchedSwitch? && out.prevState == 0
    ensures Step(l, s, out).tables.blocks ==
      if s.target == 0 then s.blocks else s.blocks - {out.nextPid % 0x1_0000_0000}
  {
    assert out.nextPid % 0x1_0000_0000 !in s.blocks ==> s.blocks - {out.nextPid % 0x1_0000_0000} == s.blocks;
  }
}
