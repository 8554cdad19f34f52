/**
 * The consumer: draining the ring buffer while the traced system keeps running.
 */
module Drain {
  import opened Collections
  import opened Schema
  import opened Probes
  import opened Loss
  import opened Trace

  /** A tracing session. The traced system acts in bursts, one in each gap between two operations of
      the consumer; how many actions fall in which gap is arbitrary. `refusals` is how many more
      times the caller's stop test answers false. */
  class Session {
    const machine: ProbeMachine
    var bursts: seq<seq<Action>>
    var refusals: nat
    /** How many records had been accepted when the stop test answered true. */
    ghost var acceptedAtStop: Option<nat>

    ghost predicate Valid()
      reads this, machine
    {
      machine.Valid() && (acceptedAtStop.Some? ==> acceptedAtStop.value <= |machine.accepted|)
    }

    constructor (machine: ProbeMachine, bursts: seq<seq<Action>>, refusals: nat)
      requires machine.Valid()
      ensures Valid() && this.machine == machine && acceptedAtStop == None
      ensures this.bursts == bursts && this.refusals == refusals
    {
      this.machine, this.bursts, this.refusals := machine, bursts, refusals;
      acceptedAtStop := None;
    }

    /** The next gap: everything the traced system does before the consumer acts again. */
    method Interleave()
      requires Valid()
      modifies this`bursts, machine
      ensures Valid()
      ensures machine.drained == old(machine.drained)
      ensures old(machine.accepted) <= machine.accepted
      ensures machine.history == old(machine.history) + if old(bursts) == [] then [] else old(bursts)[0]
      ensures old(bursts) == [] ==> bursts == [] && machine.ring == old(machine.ring)
      ensures old(bursts) != [] ==> bursts == old(bursts)[1..]
    {
      if bursts != [] {
        var burst := bursts[0];
        bursts := bursts[1..];
        machine.FireAll(burst);
      }
    }

    /** A gap, then the consumer's `ring.next()`. */
    method Take() returns (item: Option<Event>)
      requires Valid()
      modifies this`bursts, machine
      ensures Valid() && old(machine.accepted) <= machine.accepted
      ensures item.Some? ==> machine.drained == old(machine.drained) + [item.value]
      ensures item.None? ==> machine.drained == old(machine.drained) == machine.accepted
      ensures |bursts| < old(|bursts|) || (bursts == old(bursts) && |machine.ring| <= old(|machine.ring|))
      ensures item.Some? && bursts == old(bursts) ==> |machine.ring| < old(|machine.ring|)
    {
      Interleave();
      item := machine.Next();
    }

    /** A gap, then the caller's stop test. */
    method ShouldStop() returns (stop: bool)
      requires Valid()
      modifies this`bursts, this`refusals, this`acceptedAtStop, machine
      ensures Valid() && old(machine.accepted) <= machine.accepted && machine.drained == old(machine.drained)
      ensures stop <==> old(refusals) == 0
      ensures stop ==> acceptedAtStop == Some(|machine.accepted|) && refusals == old(refusals)
      ensures !stop ==> refusals == old(refusals) - 1 && acceptedAtStop == old(acceptedAtStop)
    {
      Interleave();
      stop := refusals == 0;
      if stop {
        acceptedAtStop := Some(|machine.accepted|);
      } else {
        refusals := refusals - 1;
      }
    }
  }

  /** One `while let Some(item) = ring.next()` loop. Whatever had been accepted when it began has been
      taken when it ends. */
  method DrainAvailable(s: Session, events: seq<TraceEvent>) returns (all: seq<TraceEvent>)
    requires s.Valid() && events == MapSeq(FromEvent, s.machine.drained)
    modifies s`bursts, s.machine
    ensures s.Valid() && all == MapSeq(FromEvent, s.machine.drained)
    ensures old(s.machine.accepted) <= s.machine.accepted
    ensures old(|s.machine.accepted|) <= |s.machine.drained|
  {
    hide Probes.After, Emitted, Subsequence;
    all := events;
    ghost var taken := s.machine.drained;
    var item := s.Take();
    while item.Some?
      invariant s.Valid() && all == MapSeq(FromEvent, taken)
      invariant old(s.machine.accepted) <= s.machine.accepted
      invariant item.Some? ==> s.machine.drained == taken + [item.value]
      invariant item.None? ==> s.machine.drained == taken == s.machine.accepted
      decreases |s.bursts|, |s.machine.ring|, item.Some?
    {
      MapAppend(FromEvent, taken, item.value);
      all := all + [FromEvent(item.value)];
      taken := s.machine.drained;
      item := s.Take();
    }
  }

  /** The whole consumer: drain, ask whether to stop, and after a yes drain once more. With the traced
      system running in every gap, nothing accepted is lost, duplicated or reordered, everything
      accepted before the stop is returned, and all of it is true of the unbounded machine. */
  method DrainRingBuffer(s: Session) returns (events: seq<TraceEvent>)
    requires s.Valid() && s.machine.drained == []
    modifies s, s.machine
    ensures s.Valid()
    ensures events == MapSeq(FromEvent, s.machine.drained)
    ensures s.machine.drained + s.machine.ring == s.machine.accepted
    ensures s.acceptedAtStop.Some? && s.acceptedAtStop.value <= |s.machine.drained|
    ensures old(s.machine.accepted) <= s.machine.accepted
    ensures Subsequence(s.machine.accepted, Emitted(UNBOUNDED, s.machine.history))
  {
    hide Probes.After, Emitted, Subsequence;
    events := DrainAvailable(s, []);
    var stop := s.ShouldStop();
    while !stop
      invariant s.Valid() && events == MapSeq(FromEvent, s.machine.drained)
      invariant stop ==> s.acceptedAtStop == Some(|s.machine.accepted|)
      invariant old(s.machine.accepted) <= s.machine.accepted
      decreases s.refusals, !stop
    {
      events := DrainAvailable(s, events);
      stop := s.ShouldStop();
    }
    events := DrainAvailable(s, events);
    AcceptedIsTrue(s.machine);
  }
}
