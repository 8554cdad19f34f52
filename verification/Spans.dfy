/**
 * What the reported spans satisfy on every run under a clock that does not go
 * back: they belong to the target, start after it was set, never overlap for
 * one thread, and so add up to no more than the time that has passed.
 */
module Spans {
  import opened Collections
  import opened Schema
  import opened Probes
  import opened Matching
  import opened Loss

  ghost predicate Monotone(h: seq<Action>) {
    forall i, j :: 0 <= i < j < |h| ==> h[i].ts <= h[j].ts
  }

  /** No two firings share a clock reading. */
  ghost predicate Ticking(h: seq<Action>) {
    forall i, j :: 0 <= i < j < |h| ==> h[i].ts < h[j].ts
  }

  function KeyOf(e: Event): Key {
    if e.eventType == EVENT_SCHED_BLOCK then Task(e.tid)
    else if e.eventType == EVENT_BLOCK_IO then Request(e.key)
    else Futex(e.tid)
  }

  function SpanStart(e: Event): int {
    e.timestamp - e.duration
  }

  lemma ReportKey(k: Key, start: Start, ts: u64, e: Event)
    requires Report(k, start, ts) == Some(e)
    ensures KeyOf(e) == k && e.timestamp == ts && e.duration == SaturatingSub(ts, StartTime(start))
    ensures e.pid == StartTgid(start)
  {
  }

  /** The firings `j` and `i` begin and end the span that `e` reports. */
  ghost predicate Backs(h: seq<Action>, j: nat, i: nat, e: Event) {
    Pairs(h, j, i, KeyOf(e)) && Report(KeyOf(e), StartedAt(h, j, KeyOf(e)), h[i].ts) == Some(e)
  }

  /** The firing pair behind the event just emitted. */
  lemma LastSource(h: seq<Action>, e: Event) returns (j: nat)
    requires h != [] && LastEvent(UNBOUNDED, h) == Some(e)
    ensures Backs(h, j, |h| - 1, e)
  {
    EmitsMatchedPair(h, e);
    var j', k :| Pairs(h, j', |h| - 1, k) && Report(k, StartedAt(h, j', k), Last(h).ts) == Some(e);
    ReportKey(k, StartedAt(h, j', k), Last(h).ts, e);
    j := j';
  }

  /** The firing pair behind an event of a whole history. */
  lemma Source(h: seq<Action>, e: Event) returns (j: nat, i: nat)
    requires e in Emitted(UNBOUNDED, h)
    ensures Backs(h, j, i, e)
  {
    var n := Position(h, e);
    j := LastSource(h[..n], e);
    i := n - 1;
    BacksInLonger(h, n, j, i, e);
  }

  lemma Position(h: seq<Action>, e: Event) returns (n: nat)
    requires e in Emitted(UNBOUNDED, h)
    ensures 0 < n <= |h| && LastEvent(UNBOUNDED, h[..n]) == Some(e)
  {
    EmittedSources(UNBOUNDED, h, e);
    n :| 0 < n <= |h| && LastEvent(UNBOUNDED, h[..n]) == Some(e);
  }

  lemma PairsInLonger(h: seq<Action>, n: nat, j: nat, i: nat, k: Key)
    requires n <= |h| && Pairs(h[..n], j, i, k)
    ensures Pairs(h, j, i, k) && StartedAt(h, j, k) == StartedAt(h[..n], j, k)
  {
    assert forall m: nat :: m < n ==> h[..n][..m] == h[..m];
    assert forall m: nat :: m < n ==> (OpensAt(h, m, k) <==> OpensAt(h[..n], m, k));
    assert forall m: nat :: m < n ==> (ClosesAt(h, m, k) <==> ClosesAt(h[..n], m, k));
  }

  lemma BacksInLonger(h: seq<Action>, n: nat, j: nat, i: nat, e: Event)
    requires n <= |h| && Backs(h[..n], j, i, e)
    ensures Backs(h, j, i, e)
  {
    PairsInLonger(h, n, j, i, KeyOf(e));
  }

  /** Under a monotone clock an event's duration is the exact distance between its two firings. */
  lemma ExactDuration(h: seq<Action>, e: Event, j: nat, i: nat)
    requires Monotone(h) && Backs(h, j, i, e)
    ensures e.timestamp == h[i].ts && e.duration == h[i].ts - h[j].ts && SpanStart(e) == h[j].ts
    ensures e.pid == StartTgid(StartedAt(h, j, KeyOf(e)))
  {
    ReportKey(KeyOf(e), StartedAt(h, j, KeyOf(e)), h[i].ts, e);
  }

  // ------------------------------------------------------------ disjointness

  /** Later spans of the same thread and kind (or the same request) start where earlier ones have ended. */
  ghost predicate Disjoint(es: seq<Event>) {
    forall p, q :: 0 <= p < q < |es| && KeyOf(es[p]) == KeyOf(es[q]) ==> es[p].timestamp <= SpanStart(es[q])
  }

  lemma LaterSpanStartsAfter(h: seq<Action>, d: Event, e: Event)
    requires h != [] && Monotone(h) && LastEvent(UNBOUNDED, h) == Some(e)
    requires d in Emitted(UNBOUNDED, Init(h)) && KeyOf(d) == KeyOf(e)
    ensures d.timestamp <= SpanStart(e)
  {
    hide Emitted, Matching.Report, OpensAt, ClosesAt;
    var j := LastSource(h, e);
    ExactDuration(h, e, j, |h| - 1);
    var j', i' := Source(Init(h), d);
    assert Init(h) == h[..|h| - 1];
    PairsInLonger(h, |h| - 1, j', i', KeyOf(d));
    PairsDisjoint(h, j', i', j, |h| - 1, KeyOf(d));
    ReportKey(KeyOf(d), StartedAt(h, j', KeyOf(d)), h[i'].ts, d);
  }

  lemma {:induction false} IdealSpansDisjoint(h: seq<Action>)
    requires Monotone(h)
    ensures Disjoint(Emitted(UNBOUNDED, h))
  {
    if h != [] {
      var init, before := Init(h), Emitted(UNBOUNDED, Init(h));
      IdealSpansDisjoint(init);
      match LastEvent(UNBOUNDED, h)
      case None =>
        assert Emitted(UNBOUNDED, h) == before;
      case Some(e) =>
        forall d | d in before && KeyOf(d) == KeyOf(e) {
          LaterSpanStartsAfter(h, d, e);
        }
        assert Emitted(UNBOUNDED, h) == before + [e];
        assert forall p :: 0 <= p < |before| ==> before[p] in before;
    }
  }

  lemma DisjointSubsequence(es: seq<Event>, all: seq<Event>)
    requires Subsequence(es, all) && Disjoint(all)
    ensures Disjoint(es)
  {
    forall p, q | 0 <= p < q < |es| && KeyOf(es[p]) == KeyOf(es[q])
      ensures es[p].timestamp <= SpanStart(es[q])
    {
      SubsequencePair(es, all, p, q);
    }
  }

  /** Total time a key is reported busy. */
  function BusyTime(es: seq<Event>, k: Key): nat {
    if es == [] then 0
    else BusyTime(Init(es), k) + if KeyOf(Last(es)) == k then Last(es).duration else 0
  }

  /** The total is the sum over any division of the records, one record counting for its own key only. */
  lemma {:induction false} BusyTimeAdds(a: seq<Event>, b: seq<Event>, k: Key, e: Event)
    ensures BusyTime(a + b, k) == BusyTime(a, k) + BusyTime(b, k)
    ensures BusyTime([e], k) == if KeyOf(e) == k then e.duration else 0
  {
    if b == [] {
      assert a + b == a;
    } else {
      BusyTimeAdds(a, Init(b), k, e);
      assert Init(a + b) == a + Init(b) && Last(a + b) == Last(b);
    }
  }

  /** Disjoint spans between `from` and `to` cannot add up to more than `to - from`. */
  lemma {:induction false} BusyWithin(es: seq<Event>, k: Key, from: int, to: int)
    requires Disjoint(es) && from <= to
    requires forall e :: e in es && KeyOf(e) == k ==> from <= SpanStart(e) && e.timestamp <= to
    ensures BusyTime(es, k) <= to - from
  {
    if es != [] {
      var e := Last(es);
      assert forall d :: d in Init(es) ==> d in es;
      if KeyOf(e) == k {
        forall d | d in Init(es) && KeyOf(d) == k ensures d.timestamp <= SpanStart(e) {
          var p :| 0 <= p < |es| - 1 && es[p] == d;
          assert es[|es| - 1] == e;
        }
        BusyWithin(Init(es), k, from, SpanStart(e));
      } else {
        BusyWithin(Init(es), k, from, to);
      }
    }
  }

  // --------------------------------------------------------------- isolation

  /** The target slot is written once, at `z`, with a real process id. */
  ghost predicate TargetSetOnce(h: seq<Action>, z: nat) {
    z < |h| && h[z].SetTarget? && h[z].tgid != 0 && forall i :: 0 <= i < |h| && h[i].SetTarget? ==> i == z
  }

  lemma {:induction false} TargetBefore(h: seq<Action>)
    requires forall i :: 0 <= i < |h| ==> !h[i].SetTarget?
    ensures TargetAfter(h) == 0
  {
    if h != [] {
      TargetBefore(Init(h));
    }
  }

  lemma {:induction false} TargetSince(h: seq<Action>, z: nat, n: nat)
    requires TargetSetOnce(h, z) && z < n <= |h|
    ensures TargetAfter(h[..n]) == h[z].tgid
  {
    assert Init(h[..n]) == h[..n - 1];
    if n > z + 1 {
      TargetSince(h, z, n - 1);
    }
  }

  /** Until the target is set nothing is recorded and nothing is emitted. */
  lemma {:induction false} SilentBeforeTarget(l: Limits, h: seq<Action>)
    requires forall i :: 0 <= i < |h| ==> !h[i].SetTarget?
    ensures After(l, h) == EMPTY && Emitted(l, h) == []
  {
    if h != [] {
      SilentBeforeTarget(l, Init(h));
    }
  }

  /** A span can only be opened by the target, after it was set. */
  lemma OpenedByTarget(h: seq<Action>, z: nat, j: nat, k: Key)
    requires TargetSetOnce(h, z) && OpensAt(h, j, k)
    ensures z < j && StartTgid(StartedAt(h, j, k)) == h[z].tgid && StartTime(StartedAt(h, j, k)) == h[j].ts
  {
    if j <= z {
      TargetBefore(h[..j]);
    } else {
      TargetSince(h, z, j);
    }
  }

  lemma LookupWithin(s: Tables, ideal: Tables, k: Key)
    requires Within(s, ideal) && Lookup(s, k).Some?
    ensures Lookup(ideal, k) == Lookup(s, k)
  {
  }

  /** `e` reports the time between two firings of the history, none of it lost to saturation. */
  ghost predicate Unsaturated(h: seq<Action>, e: Event) {
    exists j: nat, i: nat :: Backs(h, j, i, e) && e.timestamp == h[i].ts && e.duration == h[i].ts - h[j].ts
  }

  /** Once the target is set, every recorded start and every event is the target's, begins no earlier
      than the setting, and no subtraction ever saturated. */
  lemma Isolation(l: Limits, h: seq<Action>, z: nat)
    requires TargetSetOnce(h, z) && Monotone(h)
    ensures forall k :: Lookup(After(l, h), k).Some? ==>
      StartTgid(Lookup(After(l, h), k).value) == h[z].tgid && h[z].ts <= StartTime(Lookup(After(l, h), k).value)
    ensures forall e :: e in Emitted(l, h) ==> e.pid == h[z].tgid && h[z].ts <= SpanStart(e) && Unsaturated(h, e)
  {
    LossIsNeverDistortion(l, h);
    forall k | Lookup(After(l, h), k).Some?
      ensures StartTgid(Lookup(After(l, h), k).value) == h[z].tgid
           && h[z].ts <= StartTime(Lookup(After(l, h), k).value)
    {
      var start := Lookup(After(l, h), k).value;
      LookupWithin(After(l, h), After(UNBOUNDED, h), k);
      InFlight(h, k, start);
      var j :| Open(h, j, k) && StartedAt(h, j, k) == start;
      OpenedByTarget(h, z, j, k);
    }
    SubsequenceMembers(Emitted(l, h), Emitted(UNBOUNDED, h));
    forall e | e in Emitted(l, h) ensures e.pid == h[z].tgid && h[z].ts <= SpanStart(e) && Unsaturated(h, e) {
      var j, i := Source(h, e);
      ExactDuration(h, e, j, i);
      OpenedByTarget(h, z, j, KeyOf(e));
    }
  }

  lemma NotLaterThanNow(h: seq<Action>, e: Event)
    requires Monotone(h) && e in Emitted(UNBOUNDED, h)
    ensures h != [] && e.timestamp <= Last(h).ts
  {
    var j, i := Source(h, e);
    ExactDuration(h, e, j, i);
  }

  // ------------------------------------------------- for the running machine

  /** For every record the ring ever accepted, whatever was lost: spans of one thread and kind never
      overlap, and their durations sum to at most the time since the target was set. */
  lemma AcceptedSpans(m: ProbeMachine, z: nat, k: Key)
    requires m.Valid() && TargetSetOnce(m.history, z) && Monotone(m.history)
    ensures Disjoint(m.accepted)
    ensures BusyTime(m.accepted, k) <= Last(m.history).ts - m.history[z].ts
  {
    var h := m.history;
    AcceptedIsTrue(m);
    IdealSpansDisjoint(h);
    DisjointSubsequence(m.accepted, Emitted(UNBOUNDED, h));
    SubsequenceMembers(m.accepted, Emitted(UNBOUNDED, h));
    Isolation(UNBOUNDED, h, z);
    forall e | e in m.accepted { NotLaterThanNow(h, e); }
    BusyWithin(m.accepted, k, h[z].ts, Last(h).ts);
  }
}
