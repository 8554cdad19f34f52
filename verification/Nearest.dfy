/** What the nearest-match joins return, stated over positions in the candidate list. */
module Nearest {
  import opened Collections
  import opened Schema
  import opened Trace
  import opened Causal

  /** Position `i` is the latest match; on equal timestamps, the last one. */
  ghost predicate LatestAt(c: seq<TraceEvent>, m: TraceEvent -> bool, i: nat) {
    i < |c| && m(c[i]) &&
    forall j :: 0 <= j < |c| && m(c[j]) ==> c[j].timestamp < c[i].timestamp || (c[j].timestamp == c[i].timestamp && j <= i)
  }

  /** Position `i` is the earliest match; on equal timestamps, the first one. */
  ghost predicate EarliestAt(c: seq<TraceEvent>, m: TraceEvent -> bool, i: nat) {
    i < |c| && m(c[i]) &&
    forall j :: 0 <= j < |c| && m(c[j]) ==> c[i].timestamp < c[j].timestamp || (c[i].timestamp == c[j].timestamp && i <= j)
  }

  /** The position the fold settles on. */
  lemma {:induction false} LastMaxAt(c: seq<TraceEvent>, m: TraceEvent -> bool) returns (i: nat)
    ensures LastMax(Filter(c, m)).None? ==> forall e :: e in c ==> !m(e)
    ensures LastMax(Filter(c, m)).Some? ==> LatestAt(c, m, i) && LastMax(Filter(c, m)) == Some(c[i])
  {
    i := 0;
    if c != [] {
      var init, last := Init(c), Last(c);
      var k := LastMaxAt(init, m);
      assert c == init + [last];
      var matches := Filter(init, m);
      assert (matches + [last])[..|matches|] == matches;
      i := if m(last) && (LastMax(matches).None? || LastMax(matches).value.timestamp <= last.timestamp) then |c| - 1 else k;
    }
  }

  lemma {:induction false} FirstMinAt(c: seq<TraceEvent>, m: TraceEvent -> bool) returns (i: nat)
    ensures FirstMin(Filter(c, m)).None? ==> forall e :: e in c ==> !m(e)
    ensures FirstMin(Filter(c, m)).Some? ==> EarliestAt(c, m, i) && FirstMin(Filter(c, m)) == Some(c[i])
  {
    i := 0;
    if c != [] {
      var init, last := Init(c), Last(c);
      var k := FirstMinAt(init, m);
      assert c == init + [last];
      var matches := Filter(init, m);
      assert (matches + [last])[..|matches|] == matches;
      i := if m(last) && (FirstMin(matches).None? || last.timestamp < FirstMin(matches).value.timestamp) then |c| - 1 else k;
    }
  }

  /** `nearest_preceding` returns `e` exactly when `e` is the latest match in the window, ties going to
      the last arrival; so it returns nothing exactly when no candidate matches in the window. */
  lemma NearestPrecedingIff(c: seq<TraceEvent>, anchor: u64, pred: TraceEvent -> bool, e: TraceEvent)
    ensures NearestPreceding(c, anchor, pred) == Some(e)
       <==> exists i: nat :: LatestAt(c, Preceding(anchor, pred), i) && c[i] == e
    ensures NearestPreceding(c, anchor, pred).None? <==> forall d :: d in c ==> !Preceding(anchor, pred)(d)
  {
    var m := Preceding(anchor, pred);
    var k := LastMaxAt(c, m);
    if i: nat :| LatestAt(c, m, i) && c[i] == e {
      assert c[i] in c;
      assert LatestAt(c, m, k) ==> i == k;
    }
  }

  /** `nearest_following` returns `e` exactly when `e` is the earliest match in the window, ties going
      to the first arrival. */
  lemma NearestFollowingIff(c: seq<TraceEvent>, anchor: u64, pred: TraceEvent -> bool, e: TraceEvent)
    ensures NearestFollowing(c, anchor, pred) == Some(e)
       <==> exists i: nat :: EarliestAt(c, Following(anchor, pred), i) && c[i] == e
    ensures NearestFollowing(c, anchor, pred).None? <==> forall d :: d in c ==> !Following(anchor, pred)(d)
  {
    var m := Following(anchor, pred);
    var k := FirstMinAt(c, m);
    if i: nat :| EarliestAt(c, m, i) && c[i] == e {
      assert c[i] in c;
      assert EarliestAt(c, m, k) ==> i == k;
    }
  }

  /** `b` is a match and none is later (preceding), or none is earlier (following). */
  ghost predicate NoneLater(c: seq<TraceEvent>, m: TraceEvent -> bool, b: TraceEvent) {
    b in c && m(b) && forall e :: e in c && m(e) ==> e.timestamp <= b.timestamp
  }

  ghost predicate NoneEarlier(c: seq<TraceEvent>, m: TraceEvent -> bool, b: TraceEvent) {
    b in c && m(b) && forall e :: e in c && m(e) ==> b.timestamp <= e.timestamp
  }

  /** The part of the above most proofs need: a returned event is a match, and no match is later. */
  lemma PrecedingFacts(c: seq<TraceEvent>, anchor: u64, pred: TraceEvent -> bool)
    ensures NearestPreceding(c, anchor, pred).None? ==> forall e :: e in c ==> !Preceding(anchor, pred)(e)
    ensures NearestPreceding(c, anchor, pred).Some? ==>
      NoneLater(c, Preceding(anchor, pred), NearestPreceding(c, anchor, pred).value)
  {
    var i := LastMaxAt(c, Preceding(anchor, pred));
  }

  lemma FollowingFacts(c: seq<TraceEvent>, anchor: u64, pred: TraceEvent -> bool)
    ensures NearestFollowing(c, anchor, pred).None? ==> forall e :: e in c ==> !Following(anchor, pred)(e)
    ensures NearestFollowing(c, anchor, pred).Some? ==>
      NoneEarlier(c, Following(anchor, pred), NearestFollowing(c, anchor, pred).value)
  {
    var i := FirstMinAt(c, Following(anchor, pred));
  }

  /** With distinct timestamps among the matches, the nearest one is whichever match no other is nearer than. */
  lemma UniquePreceding(c: seq<TraceEvent>, anchor: u64, pred: TraceEvent -> bool, e: TraceEvent)
    requires e in c && Preceding(anchor, pred)(e)
    requires forall d :: d in c && Preceding(anchor, pred)(d) && d != e ==> d.timestamp < e.timestamp
    ensures NearestPreceding(c, anchor, pred) == Some(e)
  {
    PrecedingFacts(c, anchor, pred);
  }

  lemma UniqueFollowing(c: seq<TraceEvent>, anchor: u64, pred: TraceEvent -> bool, e: TraceEvent)
    requires e in c && Following(anchor, pred)(e)
    requires forall d :: d in c && Following(anchor, pred)(d) && d != e ==> e.timestamp < d.timestamp
    ensures NearestFollowing(c, anchor, pred) == Some(e)
  {
    FollowingFacts(c, anchor, pred);
  }

  // ----------------------------------------------------------------- causes

  /** The headline cause. A wait is chosen when some wait of the thread in its window is at least as near
      to the resume as every request in its window; a request, when it is strictly nearer than every
      wait; neither, when both windows are empty. */
  lemma ResumeCauseIff(tid: u32, resume: u64, typed: Typed)
    ensures var c := ClassifyResumeCause(tid, resume, typed);
      var isWait := (w: TraceEvent) => w in typed.futexWait && Following(resume, TidIs(tid))(w);
      var isIo := (i: TraceEvent) => i in typed.blockIo && Preceding(resume, TidIs(tid))(i);
      && (c.Futex? <==> exists w :: isWait(w) && forall i :: isIo(i) ==> w.timestamp - resume <= resume - i.timestamp)
      && (c.BlockIo? <==> exists i :: isIo(i) && forall w :: isWait(w) ==> resume - i.timestamp < w.timestamp - resume)
      && (c.Futex? ==> isWait(c.wait) && forall w :: isWait(w) ==> c.wait.timestamp <= w.timestamp)
      && (c.BlockIo? ==> isIo(c.io) && forall i :: isIo(i) ==> i.timestamp <= c.io.timestamp)
  {
    hide NearestPreceding, NearestFollowing;
    FollowingFacts(typed.futexWait, resume, TidIs(tid));
    PrecedingFacts(typed.blockIo, resume, TidIs(tid));
  }

  /** What came before an anchor: the latest of the thread's waits and requests in the window, a wait
      being preferred on equal timestamps; neither, when there is none. */
  lemma PriorCauseIff(tid: u32, anchor: u64, typed: Typed)
    ensures var c := ClassifyPriorCause(tid, anchor, typed);
      var isWait := (w: TraceEvent) => w in typed.futexWait && Preceding(anchor, TidIs(tid))(w);
      var isIo := (i: TraceEvent) => i in typed.blockIo && Preceding(anchor, TidIs(tid))(i);
      && (c.Futex? <==> exists w :: isWait(w) && forall i :: isIo(i) ==> i.timestamp <= w.timestamp)
      && (c.BlockIo? <==> exists i :: isIo(i) && forall w :: isWait(w) ==> w.timestamp < i.timestamp)
      && (c.Futex? ==> isWait(c.wait) && forall w :: isWait(w) ==> w.timestamp <= c.wait.timestamp)
      && (c.BlockIo? ==> isIo(c.io) && forall i :: isIo(i) ==> i.timestamp <= c.io.timestamp)
  {
    hide NearestPreceding;
    PrecedingFacts(typed.futexWait, anchor, TidIs(tid));
    PrecedingFacts(typed.blockIo, anchor, TidIs(tid));
  }
}
