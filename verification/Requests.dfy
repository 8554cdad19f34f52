/**
 * Block requests are matched by packed key. For sectors below 2^32 that is
 * matching by (dev, sector); beyond, two requests can be confused.
 */
module Requests {
  import opened Collections
  import opened Schema
  import opened Probes
  import opened Matching

  /** The firing begins, or ends, the request at exactly this device and sector. */
  predicate IssuesAt(h: seq<Action>, j: nat, dev: u32, sector: u64) {
    j < |h| && h[j].BlockRqIssue? && h[j].dev == dev && h[j].sector == sector &&
    OpensAt(h, j, Request(PackBlockKey(dev, sector)))
  }

  predicate CompletesAt(h: seq<Action>, i: nat, dev: u32, sector: u64) {
    i < |h| && h[i].BlockRqComplete? && h[i].dev == dev && h[i].sector == sector
  }

  /** Matching by (dev, sector): the latest issue by the target not yet completed. */
  ghost predicate ExactPairs(h: seq<Action>, j: nat, i: nat, dev: u32, sector: u64) {
    && j <= i < |h| && IssuesAt(h, j, dev, sector) && CompletesAt(h, i, dev, sector)
    && (forall m :: j < m <= i ==> !IssuesAt(h, m, dev, sector))
    && (forall m :: j <= m < i ==> !CompletesAt(h, m, dev, sector))
  }

  predicate IsRequest(a: Action) {
    a.BlockRqIssue? || a.BlockRqComplete?
  }

  /** No other request of the history shares this one's key. */
  ghost predicate OwnKey(h: seq<Action>, dev: u32, sector: u64) {
    forall a :: a in h && IsRequest(a) && PackBlockKey(a.dev, a.sector) == PackBlockKey(dev, sector) ==>
      a.dev == dev && a.sector == sector
  }

  ghost predicate SmallSectors(h: seq<Action>) {
    forall a :: a in h && IsRequest(a) ==> a.sector < TWO_32
  }

  lemma SmallSectorsDoNotCollide(h: seq<Action>, dev: u32, sector: u64)
    requires SmallSectors(h) && sector < TWO_32
    ensures OwnKey(h, dev, sector)
  {
    forall a | a in h && IsRequest(a) && PackBlockKey(a.dev, a.sector) == PackBlockKey(dev, sector)
      ensures a.dev == dev && a.sector == sector
    {
      KeysCollide(a.dev, a.sector, dev, sector);
    }
  }

  lemma KeyedFirings(h: seq<Action>, dev: u32, sector: u64, m: nat)
    requires OwnKey(h, dev, sector) && m < |h|
    ensures OpensAt(h, m, Request(PackBlockKey(dev, sector))) <==> IssuesAt(h, m, dev, sector)
    ensures ClosesAt(h, m, Request(PackBlockKey(dev, sector))) <==> CompletesAt(h, m, dev, sector)
  {
    hide PackBlockKey;
    assert h[m] in h;
  }

  /** Where no other request shares its key, a request's firings pair up in the packed table as they do
      in a table keyed by (dev, sector). */
  lemma PackedMatchingIsExact(h: seq<Action>, j: nat, i: nat, dev: u32, sector: u64)
    requires OwnKey(h, dev, sector)
    ensures Pairs(h, j, i, Request(PackBlockKey(dev, sector))) <==> ExactPairs(h, j, i, dev, sector)
  {
    hide PackBlockKey, OpensAt, ClosesAt, IssuesAt, CompletesAt;
    forall m: nat | m < |h| { KeyedFirings(h, dev, sector, m); }
  }

  /** For sectors below 2^32, an exactly matched pair is reported with the device and sector issued. */
  lemma ReportedRequestIsTheIssuedOne(h: seq<Action>, j: nat, i: nat, dev: u32, sector: u64, e: Event)
    requires SmallSectors(h) && ExactPairs(h, j, i, dev, sector)
    requires Report(Request(PackBlockKey(dev, sector)), StartedAt(h, j, Request(PackBlockKey(dev, sector))), h[i].ts) == Some(e)
    ensures UnpackBlockKey(e.key) == (dev, sector) && e.tid == h[j].tid
  {
    assert h[j] in h;
    UnpackOfPack(dev, sector);
  }

  // ------------------------------------ the packed table against an exact one

  /** The requests in flight, keyed by what they are: what the packed table stands for. */
  type Exact = map<(u32, u64), BlockIoStart>

  function Packed(d: (u32, u64)): u64 {
    PackBlockKey(d.0, d.1)
  }

  function ExactStep(target: u32, t: Exact, a: Action): Exact {
    match a
    case BlockRqIssue(ts, tgid, tid, dev, sector, comm) =>
      if target == 0 || tgid != target then t else t[(dev, sector) := BlockIoStart(ts, tgid, tid, comm)]
    case BlockRqComplete(_, dev, sector) => t - {(dev, sector)}
    case _ => t
  }

  function ExactAfter(h: seq<Action>): Exact {
    if h == [] then map[] else ExactStep(TargetAfter(Init(h)), ExactAfter(Init(h)), Last(h))
  }

  /** What a completion should report: the request it names, credited to whoever issued it. */
  function ExactReport(t: Exact, a: Action): Option<Event>
    requires a.BlockRqComplete?
  {
    var d := (a.dev, a.sector);
    if d in t then
      Some(Event(a.ts, SaturatingSub(a.ts, t[d].ts), Packed(d), t[d].tgid, t[d].tid, EVENT_BLOCK_IO, t[d].comm))
    else None
  }

  /** The packed table holds the same requests: packing is a bijection between the two tables. */
  ghost predicate Agree(p: map<u64, BlockIoStart>, t: Exact) {
    && (forall d :: d in t ==> Packed(d) in p && p[Packed(d)] == t[d])
    && (forall k :: k in p ==> exists d :: d in t && Packed(d) == k)
    && (forall d, e :: d in t && e in t && Packed(d) == Packed(e) ==> d == e)
  }

  /** Another request with the same packed key is in flight. */
  ghost predicate Shadowed(t: Exact, d: (u32, u64)) {
    exists e :: e in t && e != d && Packed(e) == Packed(d)
  }

  /** The firing issues or completes a request while another one with its packed key is in flight. */
  ghost predicate Confused(target: u32, t: Exact, a: Action) {
    match a
    case BlockRqIssue(_, tgid, _, dev, sector, _) => target != 0 && tgid == target && Shadowed(t, (dev, sector))
    case BlockRqComplete(_, dev, sector) => Shadowed(t, (dev, sector))
    case _ => false
  }

  lemma IssueAgrees(p: map<u64, BlockIoStart>, t: Exact, d: (u32, u64), start: BlockIoStart)
    requires Agree(p, t)
    ensures Agree(p[Packed(d) := start], t[d := start]) <==> !Shadowed(t, d)
  {
    hide Packed;
    var t' := t[d := start];
    if e :| e in t && e != d && Packed(e) == Packed(d) {
      assert e in t' && d in t';
    } else {
      var p' := p[Packed(d) := start];
      forall k | k in p' ensures exists e :: e in t' && Packed(e) == k {
        if k == Packed(d) {
          assert d in t';
        } else {
          var e :| e in t && Packed(e) == k;
          assert e in t';
        }
      }
    }
  }

  lemma CompleteAgrees(p: map<u64, BlockIoStart>, t: Exact, d: (u32, u64))
    requires Agree(p, t)
    ensures Agree(p - {Packed(d)}, t - {d}) <==> !Shadowed(t, d)
  {
    hide Packed;
    var p', t' := p - {Packed(d)}, t - {d};
    if e :| e in t && e != d && Packed(e) == Packed(d) {
      assert e in t' && Packed(e) !in p';
    } else {
      forall e | e in t' ensures Packed(e) in p' && p'[Packed(e)] == t'[e] {
        assert e in t && e != d;
      }
      forall k | k in p' ensures exists e :: e in t' && Packed(e) == k {
        var e :| e in t && Packed(e) == k;
        assert e in t';
      }
    }
  }

  /** One firing keeps the two tables in agreement exactly when it is not confused. */
  lemma StepAgrees(s: Tables, t: Exact, a: Action)
    requires Agree(s.requests, t)
    ensures Agree(Step(UNBOUNDED, s, a).tables.requests, ExactStep(s.target, t, a)) <==> !Confused(s.target, t, a)
  {
    hide Agree, Shadowed, FutexEventType, FutexOp;
    match a
    case BlockRqIssue(ts, tgid, tid, dev, sector, comm) =>
      IssueAgrees(s.requests, t, (dev, sector), BlockIoStart(ts, tgid, tid, comm));
    case BlockRqComplete(_, dev, sector) =>
      CompleteAgrees(s.requests, t, (dev, sector));
      assert PackBlockKey(dev, sector) !in s.requests ==> s.requests - {PackBlockKey(dev, sector)} == s.requests;
    case _ => assert Step(UNBOUNDED, s, a).tables.requests == s.requests;
  }

  /** An unconfused completion reports what the exact table says. */
  lemma ReportAgrees(s: Tables, t: Exact, a: Action)
    requires Agree(s.requests, t) && a.BlockRqComplete? && !Confused(s.target, t, a)
    ensures Step(UNBOUNDED, s, a).event == ExactReport(t, a)
  {
    var k := PackBlockKey(a.dev, a.sector);
    if k in s.requests {
      var d :| d in t && Packed(d) == k;
      assert d == (a.dev, a.sector);
    }
  }

  /** At every point of the history the packed table agrees with the exact one. */
  ghost predicate AgreeThroughout(h: seq<Action>) {
    forall n: nat :: n <= |h| ==> Agree(After(UNBOUNDED, h[..n]).requests, ExactAfter(h[..n]))
  }

  ghost predicate NeverConfused(h: seq<Action>) {
    forall n: nat :: n < |h| ==> !Confused(TargetAfter(h[..n]), ExactAfter(h[..n]), h[n])
  }

  lemma OneMore(h: seq<Action>, n: nat)
    requires n < |h| && Agree(After(UNBOUNDED, h[..n]).requests, ExactAfter(h[..n]))
    ensures Agree(After(UNBOUNDED, h[..n + 1]).requests, ExactAfter(h[..n + 1]))
       <==> !Confused(TargetAfter(h[..n]), ExactAfter(h[..n]), h[n])
  {
    hide Agree, Confused, Step, ExactStep;
    assert Init(h[..n + 1]) == h[..n] && Last(h[..n + 1]) == h[n];
    TargetIsLastSet(UNBOUNDED, h[..n]);
    StepAgrees(After(UNBOUNDED, h[..n]), ExactAfter(h[..n]), h[n]);
  }

  lemma {:induction false} AgreeUpTo(h: seq<Action>, n: nat)
    requires n <= |h| && NeverConfused(h)
    ensures Agree(After(UNBOUNDED, h[..n]).requests, ExactAfter(h[..n]))
  {
    if n > 0 {
      AgreeUpTo(h, n - 1);
      OneMore(h, n - 1);
    }
  }

  /** The packed table stands for the exact one throughout a history if and only if no request is ever
      issued or completed while another one with the same key is in flight. */
  lemma PackedTableExactIff(h: seq<Action>)
    ensures AgreeThroughout(h) <==> NeverConfused(h)
  {
    hide Agree, Confused, After, ExactAfter, TargetAfter;
    if NeverConfused(h) {
      forall n: nat | n <= |h| { AgreeUpTo(h, n); }
    }
    if AgreeThroughout(h) {
      forall n: nat | n < |h| ensures !Confused(TargetAfter(h[..n]), ExactAfter(h[..n]), h[n]) {
        OneMore(h, n);
        assert Agree(After(UNBOUNDED, h[..n + 1]).requests, ExactAfter(h[..n + 1]));
      }
    }
  }

  /** Then every completion reports the request it names, credited to the thread that issued it. */
  lemma CompletionsAreExact(h: seq<Action>, n: nat)
    requires NeverConfused(h) && n < |h| && h[n].BlockRqComplete?
    ensures LastEvent(UNBOUNDED, h[..n + 1]) == ExactReport(ExactAfter(h[..n]), h[n])
  {
    hide Agree, Confused, Step, ExactReport, ExactAfter, TargetAfter;
    assert Init(h[..n + 1]) == h[..n] && Last(h[..n + 1]) == h[n];
    AgreeUpTo(h, n);
    TargetIsLastSet(UNBOUNDED, h[..n]);
    ReportAgrees(After(UNBOUNDED, h[..n]), ExactAfter(h[..n]), h[n]);
  }

  lemma {:induction false} InFlightSectors(h: seq<Action>, d: (u32, u64))
    requires SmallSectors(h) && d in ExactAfter(h)
    ensures d.1 < TWO_32
  {
    if h != [] {
      assert Last(h) in h && forall a :: a in Init(h) ==> a in h;
      if d in ExactAfter(Init(h)) {
        InFlightSectors(Init(h), d);
      }
    }
  }

  /** Sectors below 2^32 are never confused. */
  lemma SmallSectorsNeverConfused(h: seq<Action>)
    requires SmallSectors(h)
    ensures NeverConfused(h)
  {
    hide PackBlockKey, ExactAfter, TargetAfter;
    forall n: nat, e: (u32, u64) | n < |h| && IsRequest(h[n]) && e in ExactAfter(h[..n])
      && Packed(e) == PackBlockKey(h[n].dev, h[n].sector)
      ensures e == (h[n].dev, h[n].sector)
    {
      assert h[n] in h && forall a :: a in h[..n] ==> a in h;
      InFlightSectors(h[..n], e);
      KeysCollide(e.0, e.1, h[n].dev, h[n].sector);
    }
  }

  /** The limit is real: thread 10 issues sector 5 and thread 11 issues sector 2^32 + 5 of the same
      device; the completion of sector 5 is then reported as thread 11's. */
  lemma CollisionMisattributes(comm: Comm)
    ensures var h := [
        SetTarget(1, 1),
        BlockRqIssue(2, 1, 10, 0, 5, comm),
        BlockRqIssue(3, 1, 11, 0, 0x1_0000_0005, comm),
        BlockRqComplete(4, 0, 5)];
      LastEvent(UNBOUNDED, h) == Some(Event(4, 1, 5, 1, 11, EVENT_BLOCK_IO, comm))
  {
    var a, b, c, d := SetTarget(1, 1), BlockRqIssue(2, 1, 10, 0, 5, comm),
      BlockRqIssue(3, 1, 11, 0, 0x1_0000_0005, comm), BlockRqComplete(4, 0, 5);
    assert Init([a, b, c, d]) == [a, b, c] && Init([a, b, c]) == [a, b] && Init([a, b]) == [a] && Init([a]) == [];
    assert PackBlockKey(0, 5) == 5 == PackBlockKey(0, 0x1_0000_0005);
    assert After(UNBOUNDED, [a]).target == 1;
    assert After(UNBOUNDED, [a, b]).target == 1;
    assert After(UNBOUNDED, [a, b, c]).requests[5] == BlockIoStart(3, 1, 11, comm);
  }
}
