/** The tool's own copy of an event, the trace file, and wall-clock recovery. */
module Trace {
  import opened Schema

  datatype TraceEvent = TraceEvent(
    timestamp: u64, duration: u64, key: u64, pid: u32, tid: u32, eventType: u8, comm: Comm)

  datatype TraceFile = TraceFile(realtimeAnchor: u64, monotonicAnchor: u64, events: seq<TraceEvent>)

  /** The command name up to its first zero byte, or all of it when there is none. */
  function UntilZero(comm: Comm): (r: Comm)
    ensures r <= comm && 0 !in r
    ensures r == comm || comm[|r|] == 0
  {
    if comm == [] || comm[0] == 0 then [] else [comm[0]] + UntilZero(comm[1..])
  }

  function FromEvent(ev: Event): TraceEvent {
    TraceEvent(ev.timestamp, ev.duration, ev.key, ev.pid, ev.tid, ev.eventType, UntilZero(ev.comm))
  }

  /** The tool's copy keeps every number of the record, and of the command name what precedes its first
      zero byte. */
  lemma CopyIsFaithful(ev: Event)
    ensures var e := FromEvent(ev);
      && e.timestamp == ev.timestamp && e.duration == ev.duration && e.key == ev.key
      && e.pid == ev.pid && e.tid == ev.tid && e.eventType == ev.eventType
      && e.comm <= ev.comm && 0 !in e.comm && (e.comm == ev.comm || ev.comm[|e.comm|] == 0)
  {
  }

  const TWO_64 := 0x1_0000_0000_0000_0000

  /** The distance from the monotonic anchor is taken in signed 128-bit arithmetic, clamped below at
      zero, and truncated to 64 bits. */
  function WallNsFor(t: TraceFile, eventTs: u64): u64 {
    var delta := eventTs - t.monotonicAnchor;
    var wall := t.realtimeAnchor + delta;
    (if wall < 0 then 0 else wall) % TWO_64
  }

  /** Wall time runs parallel to the event clock, through the anchor, wherever the sum is a valid
      64-bit time; before the epoch it reads zero. */
  lemma WallIsAffine(t: TraceFile, a: u64, b: u64)
    ensures WallNsFor(t, t.monotonicAnchor) == t.realtimeAnchor
    ensures t.realtimeAnchor + a < t.monotonicAnchor ==> WallNsFor(t, a) == 0
    ensures 0 <= t.realtimeAnchor + a - t.monotonicAnchor < TWO_64
         && 0 <= t.realtimeAnchor + b - t.monotonicAnchor < TWO_64
        ==> WallNsFor(t, a) - WallNsFor(t, b) == a - b
  {
  }

  /** Wall time is right exactly when the true value is representable. */
  lemma WallExactIff(t: TraceFile, ts: u64)
    ensures WallNsFor(t, ts) == t.realtimeAnchor + ts - t.monotonicAnchor
       <==> 0 <= t.realtimeAnchor + ts - t.monotonicAnchor < TWO_64
  {
  }
}
