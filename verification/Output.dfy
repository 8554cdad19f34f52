/**
 * What `explain` prints, said of the recorded events alone: which stalls, in
 * which order, and for each the one chain that explains itself at every step.
 */
module Output {
  import opened Collections
  import opened Schema
  import opened Trace
  import opened Causal
  import opened Nearest
  import opened Joins
  import opened Ranking

  /** The cause is the one the searches must find, and the links are the walk from it. */
  ghost predicate IsChain(typed: Typed, c: Chain) {
    var tid, resume := c.stall.tid, c.stall.timestamp;
    match c.cause
    case Futex(w) => ResumedFromWait(typed, tid, resume, w) && IsWalk(typed, w, c.links, 14)
    case BlockIo(r) => ResumedFromRequest(typed, tid, resume, r) && c.links == []
    case Unknown => ResumedFromNothing(typed, tid, resume) && c.links == []
  }

  /** A stall has exactly one chain. */
  lemma ChainIff(stall: TraceEvent, typed: Typed, c: Chain)
    ensures c == ChainOf(stall, typed) <==> c.stall == stall && IsChain(typed, c)
  {
    hide ClassifyResumeCause, Walk, IsWalk, ResumedFromWait, ResumedFromRequest, ResumedFromNothing;
    match c.cause
    case Futex(w) =>
      ResumeCauseIs(typed, stall.tid, stall.timestamp, w);
      WalkIff(w, typed, 1, c.links);
    case BlockIo(r) => ResumeCauseIs(typed, stall.tid, stall.timestamp, r);
    case Unknown => ResumeCauseIs(typed, stall.tid, stall.timestamp, stall);
  }

  /** The first record of a stall: when it began, whose it was, how long it took, and what it was on. It
      names the address of a wait exactly when the stall ended in that wait, a request exactly when one
      completed strictly nearer than every wait, and nothing exactly when both windows are empty. */
  lemma HeadlineSays(sysfs: (u32, u32) -> Option<string>, trace: TraceFile, stall: TraceEvent, e: TraceEvent)
    ensures var typed, lines := Partitioned(trace.events), Explanation(sysfs, trace)(stall);
      var tid, resume := stall.tid, stall.timestamp;
      && lines != [] && SaysStall(trace, stall, lines[0])
      && (ResumedFromWait(typed, tid, resume, e) ==> lines[0].on == OnFutexAddress(e.key))
      && (ResumedFromRequest(typed, tid, resume, e) ==>
        lines[0].on == OnRequest(DeviceName(sysfs, e.key / 0x1_0000_0000), e.key % 0x1_0000_0000))
      && (lines[0].on.OnFutexAddress? <==> exists w :: ResumedFromWait(typed, tid, resume, w))
      && (lines[0].on.OnRequest? <==> exists r :: ResumedFromRequest(typed, tid, resume, r))
      && (lines[0].on.NoCorrelatedCause? <==> ResumedFromNothing(typed, tid, resume))
  {
    hide ClassifyResumeCause, Walk, Partitioned, ResumedFromWait, ResumedFromRequest, ResumedFromNothing, Render, SaysStall, DeviceName;
    var typed := Partitioned(trace.events);
    var cause := ClassifyResumeCause(stall.tid, stall.timestamp, typed);
    RenderPrints(sysfs, trace, ChainOf(stall, typed));
    ResumeCauseIs(typed, stall.tid, stall.timestamp, e);
    forall w { ResumeCauseIs(typed, stall.tid, stall.timestamp, w); }
  }

  /** The stalls in descending order of duration, those of equal duration in arrival order. */
  ghost predicate IsRanking(blocks: seq<TraceEvent>, ranked: seq<TraceEvent>) {
    Sorted(ranked) && SameByDuration(ranked, blocks)
  }

  /** Records printed for the stall: those of its chain. */
  ghost predicate Explains(
    sysfs: (u32, u32) -> Option<string>, trace: TraceFile, stall: TraceEvent, lines: seq<Line>)
  {
    exists c: Chain :: c.stall == stall && IsChain(Partitioned(trace.events), c) && Prints(sysfs, trace, c, lines)
  }

  lemma ExplainsIff(sysfs: (u32, u32) -> Option<string>, trace: TraceFile, stall: TraceEvent, lines: seq<Line>)
    ensures lines == Explanation(sysfs, trace)(stall) <==> Explains(sysfs, trace, stall, lines)
  {
    hide ChainOf, Render, Prints, IsChain, Partitioned;
    var typed := Partitioned(trace.events);
    var chain := ChainOf(stall, typed);
    ChainIff(stall, typed, chain);
    PrintsIff(sysfs, trace, chain, lines);
    if c: Chain :| c.stall == stall && IsChain(typed, c) && Prints(sysfs, trace, c, lines) {
      ChainIff(stall, typed, c);
    }
  }

  /** The output: for each of the first `slowest` stalls of the ranking, in order, its records. */
  ghost predicate IsOutput(
    sysfs: (u32, u32) -> Option<string>, trace: TraceFile, slowest: nat, out: seq<seq<Line>>)
  {
    exists ranked ::
      && IsRanking(Partitioned(trace.events).block, ranked)
      && |out| == (if slowest < |ranked| then slowest else |ranked|)
      && forall i :: 0 <= i < |out| ==> Explains(sysfs, trace, ranked[i], out[i])
  }

  lemma RankingIff(blocks: seq<TraceEvent>, ranked: seq<TraceEvent>)
    ensures ranked == SortByDuration(blocks) <==> IsRanking(blocks, ranked)
  {
    SortFacts(blocks);
    if IsRanking(blocks, ranked) {
      SortUnique(ranked, SortByDuration(blocks));
    }
  }

  /** `explain` returns this output and no other. */
  lemma OutputIff(sysfs: (u32, u32) -> Option<string>, trace: TraceFile, slowest: nat, out: seq<seq<Line>>)
    ensures out == Explanations(sysfs, trace, Slowest(trace, slowest)) <==> IsOutput(sysfs, trace, slowest, out)
  {
    hide SortByDuration, IsRanking, Explains, Partitioned, Explanation;
    var blocks := Partitioned(trace.events).block;
    var sorted, printed := SortByDuration(blocks), Explanations(sysfs, trace, Slowest(trace, slowest));
    RankingIff(blocks, sorted);
    forall i | 0 <= i < |printed| ensures printed[i] == Explanation(sysfs, trace)(sorted[i]) && Explains(sysfs, trace, sorted[i], printed[i]) {
      ExplainsIff(sysfs, trace, sorted[i], printed[i]);
    }
    if ranked :|
      && IsRanking(blocks, ranked) && |out| == (if slowest < |ranked| then slowest else |ranked|)
      && forall i :: 0 <= i < |out| ==> Explains(sysfs, trace, ranked[i], out[i])
    {
      RankingIff(blocks, ranked);
      forall i | 0 <= i < |out| ensures out[i] == printed[i] {
        ExplainsIff(sysfs, trace, sorted[i], out[i]);
      }
    }
  }
}
