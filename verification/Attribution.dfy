/**
 * The headline join is justified by the probes: a stall inside a futex wait is
 * attributed to exactly that wait.
 */
module Attribution {
  import opened Collections
  import opened Schema
  import opened Trace
  import opened Probes
  import opened Matching
  import opened Loss
  import opened Spans
  import opened Causal
  import opened Nearest

  /** The trace the tool works on: the tool's copy of each record, in order. */
  function Recorded(es: seq<Event>): seq<TraceEvent> {
    MapSeq(FromEvent, es)
  }

  lemma {:induction false} RecordedMembers(es: seq<Event>, x: TraceEvent)
    ensures x in Recorded(es) <==> exists e :: e in es && FromEvent(e) == x
  {
    if es != [] {
      RecordedMembers(Init(es), x);
      assert es == Init(es) + [Last(es)];
      MapAppend(FromEvent, Init(es), Last(es));
    }
  }

  /** The candidates of one type are the records of that type. */
  lemma TypedMembers(es: seq<Event>, kind: u8, x: TraceEvent)
    ensures x in Filter(Recorded(es), TypeIs(kind)) <==> exists e :: e in es && FromEvent(e) == x && e.eventType == kind
  {
    FilterMembers(Recorded(es), TypeIs(kind));
    RecordedMembers(es, x);
  }

  /** Records are stamped in the order they were emitted, no two alike. */
  ghost predicate Stamped(es: seq<Event>) {
    forall p, q :: 0 <= p < q < |es| ==> es[p].timestamp < es[q].timestamp
  }

  lemma {:induction false} EmittedStamped(h: seq<Action>)
    requires Ticking(h)
    ensures Stamped(Emitted(UNBOUNDED, h))
    ensures forall e :: e in Emitted(UNBOUNDED, h) ==> h != [] && e.timestamp <= Last(h).ts
  {
    if h != [] {
      var init := Init(h);
      EmittedStamped(init);
      if LastEvent(UNBOUNDED, h).Some? {
        EventStamp(h);
      }
    }
  }

  lemma EventStamp(h: seq<Action>)
    requires h != [] && LastEvent(UNBOUNDED, h).Some?
    ensures LastEvent(UNBOUNDED, h).value.timestamp == Last(h).ts
  {
  }

  lemma StampedSubsequence(es: seq<Event>, all: seq<Event>)
    requires Subsequence(es, all) && Stamped(all)
    ensures Stamped(es)
  {
    forall p, q | 0 <= p < q < |es| ensures es[p].timestamp < es[q].timestamp {
      SubsequencePair(es, all, p, q);
    }
  }

  /** What the attribution argument needs of a recorded sequence: distinct stamps and disjoint spans. */
  lemma RecordFacts(h: seq<Action>, es: seq<Event>)
    requires Ticking(h) && Subsequence(es, Emitted(UNBOUNDED, h))
    ensures Stamped(es) && Disjoint(es)
  {
    EmittedStamped(h);
    StampedSubsequence(es, Emitted(UNBOUNDED, h));
    IdealSpansDisjoint(h);
    DisjointSubsequence(es, Emitted(UNBOUNDED, h));
  }

  /** The stall `b` ends inside the futex wait `w` of the same thread. */
  ghost predicate Inside(b: Event, w: Event) {
    && b.eventType == EVENT_SCHED_BLOCK && w.eventType == EVENT_FUTEX_WAIT && b.tid == w.tid
    && SpanStart(w) <= b.timestamp <= w.timestamp
  }

  /** ... which then exits soon enough to be found. */
  ghost predicate EndsInside(b: Event, w: Event) {
    Inside(b, w) && w.timestamp <= b.timestamp + MATCH_WINDOW_NS
  }

  /** Any other wait of the thread ends before the stall does or after `w`. */
  lemma OtherWaitsOutside(es: seq<Event>, b: Event, w: Event, d: Event)
    requires Stamped(es) && Disjoint(es) && b in es && w in es && d in es && Inside(b, w)
    requires d.eventType == EVENT_FUTEX_WAIT && d.tid == b.tid && d.timestamp >= b.timestamp && d != w
    ensures w.timestamp < d.timestamp
  {
    var i, j, k :| 0 <= i < |es| && 0 <= j < |es| && 0 <= k < |es| && es[i] == b && es[j] == w && es[k] == d;
    assert KeyOf(d) == KeyOf(w) && i != k;
  }

  /** The following-search returns exactly the enclosing wait, whatever other records were kept or lost,
      and nothing when that wait exits too late. */
  lemma EnclosingWaitFound(h: seq<Action>, es: seq<Event>, b: Event, w: Event)
    requires Ticking(h) && Subsequence(es, Emitted(UNBOUNDED, h)) && b in es && w in es && Inside(b, w)
    ensures NearestFollowing(Partitioned(Recorded(es)).futexWait, b.timestamp, TidIs(b.tid))
         == if EndsInside(b, w) then Some(FromEvent(w)) else None
  {
    hide NearestFollowing, Emitted;
    RecordFacts(h, es);
    var waits, m := Partitioned(Recorded(es)).futexWait, Following(b.timestamp, TidIs(b.tid));
    TypedMembers(es, EVENT_FUTEX_WAIT, FromEvent(w));
    forall x | x in waits && m(x) && x != FromEvent(w) ensures w.timestamp < x.timestamp {
      TypedMembers(es, EVENT_FUTEX_WAIT, x);
      var d :| d in es && FromEvent(d) == x && d.eventType == EVENT_FUTEX_WAIT;
      OtherWaitsOutside(es, b, w, d);
    }
    if EndsInside(b, w) {
      UniqueFollowing(waits, b.timestamp, TidIs(b.tid), FromEvent(w));
    } else {
      FollowingFacts(waits, b.timestamp, TidIs(b.tid));
    }
  }

  /** A request of the same thread completed strictly nearer to the resume than the wait's exit. */
  ghost predicate NearerRequest(es: seq<Event>, b: Event, w: Event) {
    exists i :: i in es && i.eventType == EVENT_BLOCK_IO && i.tid == b.tid &&
      i.timestamp <= b.timestamp && b.timestamp - i.timestamp < w.timestamp - b.timestamp
  }

  /** The cause the tool names in the headline for a recorded stall. */
  function HeadlineCause(es: seq<Event>, b: Event): Cause {
    ClassifyResumeCause(b.tid, b.timestamp, Partitioned(Recorded(es)))
  }

  /** For a stall that ends inside a wait: a wait in the headline is that wait, and it is there exactly
      when it exits within the window and no completed request of the thread is strictly nearer. */
  lemma HeadlineIff(h: seq<Action>, es: seq<Event>, b: Event, w: Event)
    requires Ticking(h) && Subsequence(es, Emitted(UNBOUNDED, h)) && b in es && w in es && Inside(b, w)
    ensures HeadlineCause(es, b) == Cause.Futex(FromEvent(w)) <==> EndsInside(b, w) && !NearerRequest(es, b, w)
    ensures HeadlineCause(es, b).Futex? ==> HeadlineCause(es, b) == Cause.Futex(FromEvent(w))
  {
    hide NearestFollowing, NearestPreceding, Emitted;
    EnclosingWaitFound(h, es, b, w);
    var ios := Partitioned(Recorded(es)).blockIo;
    PrecedingFacts(ios, b.timestamp, TidIs(b.tid));
    var io := NearestPreceding(ios, b.timestamp, TidIs(b.tid));
    if EndsInside(b, w) && NearerRequest(es, b, w) {
      var i :| i in es && i.eventType == EVENT_BLOCK_IO && i.tid == b.tid &&
        i.timestamp <= b.timestamp && b.timestamp - i.timestamp < w.timestamp - b.timestamp;
      TypedMembers(es, EVENT_BLOCK_IO, FromEvent(i));
      assert Preceding(b.timestamp, TidIs(b.tid))(FromEvent(i));
    } else if io.Some? {
      TypedMembers(es, EVENT_BLOCK_IO, io.value);
      var i :| i in es && FromEvent(i) == io.value && i.eventType == EVENT_BLOCK_IO;
    }
  }

  /** The headline names the recorded wait `w`. */
  ghost predicate BlamedOn(es: seq<Event>, b: Event, w: Event) {
    w in es && w.eventType == EVENT_FUTEX_WAIT && HeadlineCause(es, b) == Cause.Futex(FromEvent(w))
  }

  /** A wait in the headline had begun when the stall ended exactly when some recorded wait encloses the
      stall's end, exits within the window, and no request is nearer. */
  lemma BlamedWaitHadBegunIff(h: seq<Action>, es: seq<Event>, b: Event)
    requires Ticking(h) && Subsequence(es, Emitted(UNBOUNDED, h)) && b in es && b.eventType == EVENT_SCHED_BLOCK
    ensures (exists w :: BlamedOn(es, b, w) && SpanStart(w) <= b.timestamp)
       <==> (exists w :: w in es && EndsInside(b, w) && !NearerRequest(es, b, w))
  {
    hide ClassifyResumeCause, Emitted, Subsequence;
    if w :| BlamedOn(es, b, w) && SpanStart(w) <= b.timestamp {
      ResumeCauseIff(b.tid, b.timestamp, Partitioned(Recorded(es)));
      assert Following(b.timestamp, TidIs(b.tid))(FromEvent(w));
      HeadlineIff(h, es, b, w);
    }
    if w :| w in es && EndsInside(b, w) && !NearerRequest(es, b, w) {
      HeadlineIff(h, es, b, w);
      assert BlamedOn(es, b, w);
    }
  }

  /** Attribution goes one way only: this thread blocked from 100 to 200 for some other reason, and a
      futex wait it entered afterwards still becomes the headline because it ended within 5 ms. */
  lemma LaterWaitIsBlamed(stall: TraceEvent, wait: TraceEvent)
    requires stall == TraceEvent(200, 100, 0, 1, 7, EVENT_SCHED_BLOCK, [])
    requires wait == TraceEvent(400, 100, 9, 1, 7, EVENT_FUTEX_WAIT, [])
    ensures ChainOf(stall, Partitioned([stall, wait])).cause == Cause.Futex(wait)
    ensures stall.timestamp < wait.timestamp - wait.duration
  {
    hide Filter, NearestFollowing, NearestPreceding;
    FilterTwo(stall, wait, TypeIs(EVENT_FUTEX_WAIT));
    FilterTwo(stall, wait, TypeIs(EVENT_BLOCK_IO));
    assert Partitioned([stall, wait]).futexWait == [wait] && Partitioned([stall, wait]).blockIo == [];
    UniqueFollowing([wait], stall.timestamp, TidIs(stall.tid), wait);
    PrecedingFacts([], stall.timestamp, TidIs(stall.tid));
  }
}
