# whyslow: a verified model

whyslow traces one Linux process with five eBPF probes, drains their events from a ring buffer, and
explains the longest stalls by walking backwards over waits, wakes and block requests. Its reproducer
is a two-thread program with a known causal chain. This project models the three components and
proves what each promises, and one theorem that crosses all of them.

* **The futex lock** (`FutexMutex`): any number of threads, any number of rounds, one atomic
  operation per step. A labelled move says which thread does what; a run is a sequence of enabled
  moves. Spurious wakeups are a budget in the state: safety holds for every budget, and progress is
  bounded in terms of it. `FutexMutex.Lock` is the imperative form, each method one atomic operation.
* **The probes** (`Probes`): an action is one probe firing with the values it reads. `Step` is the
  effect on the three in-flight tables, with table sizes as a parameter (`KERNEL` has the real ones,
  `UNBOUNDED` is the ideal machine). `ProbeMachine` is the running machine with its ring buffer.
  `Matching` says declaratively, over the firing history alone, what should be reported.
  `RoundTrips` follows one span from its first firing to its report; `Spans`, `Loss` and `Requests` hold
  whole-run consequences; `Drain` is the consumer.
* **The inference engine** (`Causal`): the nearest-match joins, the guarded walk and the ranking as
  functions, and the methods that run them through the shared device-name cache. Printed lines are
  typed records. `Joins` and `Output` say, of the recorded events alone, what every search finds, which
  chain a stall has and what is printed, and prove that the engine yields exactly that; `Nearest`,
  `Chains`, `Locality`, `Ranking` and `Shift` prove further properties.
* **Across the components**: `Attribution` justifies the headline join from the probes' span
  structure; `Reproducer` is the two-thread program as the probes see it; `GroundTruth` proves what
  every run of it leaves on record; `Diagnosis` proves exactly when the tool explains it as the
  reproducer promises; `Witness` gives a concrete run on either side of that condition.

## Assumptions

* Atomics are sequentially consistent, one probe runs at a time, and a probe's clock reading is taken
  when it runs. `Monotone` (the clock never goes back) and `Ticking` (no two firings share a reading)
  are hypotheses of the lemmas that need them.
* `FUTEX_WAIT` compares the word and sleeps in one step; `FUTEX_WAKE` with count 1 wakes at most one
  sleeper, whichever the kernel picks (futex(2)). Map insertion follows `BPF_ANY`.
* No other thread of the process uses the lock word, and no other request of the process in flight shares the
  packed key of the holder's outstanding read. The two threads may make other futex calls, issue other
  requests, and be switched out and in at any time; a waiter that has been switched out blocked takes no
  step until it is switched in.
* sysfs does not change while one explanation runs: it is a function from device numbers to names.

## Where a plain claim would be false

* A wake may take no recorded time and the waiter may be its own waker, so a chain can revisit one
  wait. `Chains.HopStandsStillIff` says which recorded events make one hop stay at the same instant, and
  `Chains.GuardIsNeeded` is a trace whose chain fills all 16 records. Where no recorded wait stands
  still, in particular where all wakes take time, no event repeats.
* DESIGN.md says a wake completes at or before the wait it ends. On another CPU its exit may be stamped
  later: `Witness.WakeMayExitTooLate` is such a run, and its chain stops at the headline.
  `Diagnosis.GroundTruthChain` says exactly when the reproducer's stall gets the true chain.
* A stall that ends before a futex wait begins is still blamed on that wait if it ends within 5 ms
  (`Attribution.LaterWaitIsBlamed`). `Attribution.BlamedWaitHadBegunIff` says exactly when the wait in
  the headline had begun by then.
* Two requests whose sectors agree modulo 2^32 share a key, and a completion can then be credited to
  the wrong thread (`Requests.CollisionMisattributes`). `Requests.PackedTableExactIff` says exactly when
  the packed table is as good as one keyed by (dev, sector). The comment in `whyslow-common/src/lib.rs`
  places this limitation in the repository's README.md; it is in DESIGN.md.
* The tables refuse new keys when full. `Loss.LosslessIff` says exactly when that is invisible.
* A later request of the holder may print just like its last read, so three right-looking records can
  name the wrong request. `Diagnosis.GroundTruthLines` is exact about that.
* Wall time is truncated to 64 bits: `Trace.WallExactIff` says exactly when it is right.

## Model

| member | source | states |
|---|---|---|
| FutexMutex.Reachable | synthetic/src/main.rs:78-97 | in every reachable state, for any number of threads, at most one thread holds the lock, the word is nonzero exactly while one does, and a sleeping thread is covered by the word 2, a pending wake or a pending swap of 2 |
| FutexMutex.NoDeadlock | synthetic/src/main.rs:78-97 | a reachable state has no program step left exactly when every thread has finished every round, the word is 0 and nobody sleeps |
| FutexMutex.PotentialDrops | synthetic/src/main.rs:78-97 | every step of any thread, including a spurious wakeup, lowers one potential, although a failed swap changes other threads' distance to sleep |
| FutexMutex.StepBound | synthetic/src/main.rs:78-97 | no run is longer than R(2N+8) + 3B + 4N steps for N threads, R lock/unlock rounds in all and B spurious wakeups |
| FutexMutex.MaximalRunFinishes | synthetic/src/main.rs:78-97 | every run that cannot be extended ends with all threads done, word 0, nobody asleep, and exactly one release per round |
| FutexMutex.UncontendedMakesNoFutexCall | synthetic/src/main.rs:78-97 | with one thread the lock is taken and released without any futex call |
| FutexMutex.Lock.CompareExchange | synthetic/src/main.rs:79-84 | the fast path: a word 0 becomes 1 and the thread holds the lock; any other word stays and the thread goes to the contended loop; nobody else moves |
| FutexMutex.Lock.SwapContended | synthetic/src/main.rs:85-88 | the word becomes 2 whatever it was; the thread holds the lock if it was 0 and is about to wait otherwise; nobody else moves |
| FutexMutex.Lock.FutexWait | synthetic/src/main.rs:52-62 | the thread sleeps if the word is still 2 and goes back to its swap otherwise; word and other threads stay |
| FutexMutex.Lock.SwapFree | synthetic/src/main.rs:93-94 | the word becomes 0; a wake is owed if it was 2, and the thread is outside the lock otherwise; nobody else moves |
| FutexMutex.Lock.FutexWake | synthetic/src/main.rs:64-73 | a thread is reported woken if and only if some thread slept; it did sleep and is back at its swap, whatever the word is by then, and nobody but it and the waker moves |
| FutexMutex.Lock.RunToCompletion | synthetic/src/main.rs:78-97 | under every choice of scheduler and signals the whole program terminates with every round done |
| Schema.PackOfUnpack | whyslow-common/src/lib.rs:82-89 | packing what was unpacked is the identity on all 64-bit keys |
| Schema.UnpackOfPack | whyslow-common/src/lib.rs:82-89 | unpacking recovers the device in full and the sector modulo 2^32 |
| Schema.KeysCollide | whyslow-common/src/lib.rs:74-84 | two requests share a key if and only if the devices are equal and the sectors agree modulo 2^32 |
| Schema.WordsAreArithmetic | whyslow-common/src/lib.rs:82-89 | on machine words the shift-and-mask packing is the arithmetic one used by the model, without overlap or wrap-around |
| Probes.ProbeMachine.SchedSwitch | whyslow-ebpf/src/main.rs:111-151 | a target thread leaving in a state other than 0 is recorded, room permitting, before the incoming thread is looked up; a recorded incoming thread is forgotten and its stall submitted; nothing else changes |
| Probes.ProbeMachine.FutexEnter | whyslow-ebpf/src/main.rs:160-183 | records a target thread's call, silently refused at 10240 entries unless the thread is on record |
| Probes.ProbeMachine.FutexExit | whyslow-ebpf/src/main.rs:192-222 | forgets the recorded call and submits it, with identity and address from its start, if it is a wait or a wake |
| Probes.ProbeMachine.BlockRqIssue | whyslow-ebpf/src/main.rs:231-252 | records the issuing target thread under device times 2^32 plus the sector modulo 2^32, refused at 4096 entries unless that key is on record |
| Probes.ProbeMachine.BlockRqComplete | whyslow-ebpf/src/main.rs:261-286 | forgets the recorded issue, whoever is running, and submits it as the issuer's |
| Probes.ProbeMachine.Emit | whyslow-ebpf/src/main.rs:95-102 | a record is appended when the ring has room and dropped when it is full |
| Probes.ProbeMachine.SetTargetTgid | whyslow-cli/src/bpf.rs:61-68 | writes the target slot and nothing else |
| Matching.EmitsMatchedPair | whyslow-ebpf/src/main.rs:111-286 | with tables that are never full, a firing emits an event if and only if it closes a matched pair of the firing history and the event is that pair's report: end stamp, time difference, identity from the start |
| Loss.EmitsMatchedPairWhileRoom | whyslow-ebpf/src/main.rs:111-286 | the same for tables of any size, over every history in which no new key meets a full table |
| Matching.InFlight | whyslow-ebpf/src/main.rs:40-77 | tables that are never full hold exactly the spans the history has opened and not closed, each from its latest opening |
| Loss.InFlightWhileRoom | whyslow-ebpf/src/main.rs:40-77 | the same for tables of any size, over every history in which no new key meets a full table |
| Matching.FutexOperations | whyslow-ebpf/src/main.rs:202-210 | exactly eight operation words count as waits and eight as wakes |
| Matching.PairsDisjoint | whyslow-ebpf/src/main.rs:111-286 | two matched pairs of one key never interleave |
| RoundTrips.StallReported | whyslow-ebpf/src/main.rs:111-151 | whatever fires in between, a thread that leaves the CPU and is next seen coming back is reported if and only if it belongs to the target and left in a state other than 0 |
| RoundTrips.PreemptionNotRecorded | whyslow-ebpf/src/main.rs:122-134 | a switch away from a thread in state 0 records nothing |
| RoundTrips.FutexCallReported | whyslow-ebpf/src/main.rs:160-222 | a call is reported if and only if it is the target's and a wait (type 1) or a wake (type 2), with its address, thread and span |
| RoundTrips.RequestReported | whyslow-ebpf/src/main.rs:231-286 | a request is reported if and only if the target issued it, as the issuing thread's, with device and sector in its key |
| Probes.FutexOpIsLowHalf | whyslow-ebpf/src/main.rs:169-169 | the recorded futex operation is the argument modulo 2^32 |
| Loss.LossIsNeverDistortion | whyslow-ebpf/src/main.rs:47-77 | for every history and every table size the tables stay inside the unbounded ones and the events are a subsequence of the unbounded machine's |
| Loss.AcceptedIsTrue | whyslow-ebpf/src/main.rs:95-102 | what the ring accepted, with losses in tables and ring, is a subsequence of what an unbounded machine emits |
| Loss.LosslessIff | whyslow-ebpf/src/main.rs:132-181 | bounded and unbounded machine agree throughout a history if and only if no firing brings a new key to a full table |
| Spans.SilentBeforeTarget | whyslow-ebpf/src/main.rs:26-30 | until the target is set all tables stay empty and nothing is emitted |
| Spans.Isolation | whyslow-ebpf/src/main.rs:111-286 | after the target is set once, for tables of any size, every table entry and every event carries its tgid and starts no earlier than the setting, although two of the probes never check it, and every duration is the exact distance between two firings, so no subtraction saturates |
| Spans.ExactDuration | whyslow-ebpf/src/main.rs:138-145 | under a monotone clock an event's duration is exactly the distance between its two firings |
| Spans.IdealSpansDisjoint | whyslow-ebpf/src/main.rs:111-286 | for each thread, its blocked spans never overlap, nor its futex spans, nor the spans of one request key |
| Spans.AcceptedSpans | whyslow-ebpf/src/main.rs:111-222 | for the records actually accepted, spans are disjoint and one thread's durations sum to at most the time since the target was set |
| Requests.PackedMatchingIsExact | whyslow-ebpf/src/main.rs:242-272 | where no other request of the history shares its key, a request's firings pair up as in a table keyed by (dev, sector) |
| Requests.PackedTableExactIff | whyslow-ebpf/src/main.rs:231-286 | the packed in-flight table stands in bijection with a table keyed by (dev, sector) throughout a history if and only if no request is issued or completed while a different one with its packed key is in flight |
| Requests.CompletionsAreExact | whyslow-ebpf/src/main.rs:261-286 | then every completion reports the request it names, credited to the thread that issued it, and nothing exactly when that request is not in flight |
| Requests.SmallSectorsNeverConfused | whyslow-common/src/lib.rs:76-80 | sectors below 2^32 always meet that condition |
| Requests.SmallSectorsDoNotCollide | whyslow-common/src/lib.rs:76-80 | when all sectors are below 2^32, no request shares another's key |
| Requests.ReportedRequestIsTheIssuedOne | whyslow-cli/src/causal.rs:281-290 | for such sectors the reported key unpacks to the device and sector issued, credited to the issuing thread |
| Requests.CollisionMisattributes | whyslow-common/src/lib.rs:76-80 | a concrete history in which a completion is credited to the wrong thread |
| Drain.DrainAvailable | whyslow-cli/src/bpf.rs:85-89 | with the traced system acting in every gap, one draining loop takes everything accepted before it began |
| Drain.DrainRingBuffer | whyslow-cli/src/bpf.rs:73-109 | the returned events are the drained records in order, accepted = drained + still in the ring, everything accepted when the stop test answered true is returned, and all of it is true of the unbounded machine |
| Trace.UntilZero | whyslow-cli/src/trace.rs:19-27 | the command name is the longest zero-free prefix ending at the first zero byte |
| Trace.CopyIsFaithful | whyslow-cli/src/trace.rs:19-32 | the tool's copy of a record has its numbers unchanged and its command name cut at the first zero byte |
| Trace.WallIsAffine | whyslow-cli/src/trace.rs:52-55 | wall time passes through the anchor, reads zero before the epoch, and preserves differences |
| Trace.WallExactIff | whyslow-cli/src/trace.rs:52-55 | wall time is right exactly when the true value fits in 64 bits |
| Causal.Partition | whyslow-cli/src/causal.rs:29-46 | types 0 to 3 go to the four lists, each event as often and in the order it arrived, and other types nowhere |
| Nearest.NearestPrecedingIff | whyslow-cli/src/causal.rs:49-62 | the result is the latest match within 5 ms before the anchor, ties to the last arrival, and nothing exactly when there is no match |
| Nearest.NearestFollowingIff | whyslow-cli/src/causal.rs:64-76 | the result is the earliest match within 5 ms after the anchor, ties to the first arrival |
| Nearest.ResumeCauseIff | whyslow-cli/src/causal.rs:84-114 | a futex wait is chosen if and only if some wait is at least as near to the resume as every completed request; a request if and only if it is strictly nearer than every wait |
| Nearest.PriorCauseIff | whyslow-cli/src/causal.rs:116-137 | the cause before a wake is the thread's latest wait or request in the window, a wait on a tie |
| Joins.FindWakeIff | whyslow-cli/src/causal.rs:252-254 | the wake found is the last in time, on ties in arrival, of those on the wait's address that ended at most 5 ms before the wait; none is found exactly when there is none |
| Joins.ResumeCauseIs | whyslow-cli/src/causal.rs:97-114 | which recorded wait or request is the cause of a resume, ties included, and exactly when there is none |
| Joins.PriorCauseIs | whyslow-cli/src/causal.rs:123-137 | which recorded wait or request of the waker preceded the beginning of a wake, ties included, and exactly when there is none |
| Joins.WalkIff | whyslow-cli/src/causal.rs:245-297 | the walk is the one list of links in which each wake and each cause is the one the recorded events determine, and which ends only at a request, where nothing is found, or with the eighth wake |
| Causal.DeviceNameSplits | whyslow-cli/src/causal.rs:157-163 | a device number is looked up by its high 12 and low 20 bits, and shown as these numbers when there is no name |
| Causal.DevNames.Name | whyslow-cli/src/causal.rs:150-167 | the cached answer is always the one a fresh lookup gives |
| Causal.WalkFromFutexWait | whyslow-cli/src/causal.rs:245-297 | appends exactly the records of the guarded walk, whatever the cache already held |
| Causal.ExplainOneStall | whyslow-cli/src/causal.rs:200-243 | prints, whatever the cache already held, when the stall began, whose it was, how long it took and what it was on, then one record per link of its chain, in order |
| Causal.Explain | whyslow-cli/src/causal.rs:301-312 | returns the records of the longest stalls, as many as asked for or as there are; sharing one mutable cache gives the same output as explaining each stall with fresh lookups |
| Output.ChainIff | whyslow-cli/src/causal.rs:200-297 | a stall has exactly one chain that its recorded events justify at every step, and it is the one walked |
| Output.HeadlineSays | whyslow-cli/src/causal.rs:201-241 | a headline names the address of a wait, or a request's device and sector, or nothing, exactly when the stall ended in that wait, strictly nearer to that request, or with both windows empty; with time, thread and duration |
| Output.OutputIff | whyslow-cli/src/causal.rs:301-312 | an output is what explain returns if and only if it holds, for each of the first stalls of the stable descending ranking, the records of the one chain of that stall |
| Chains.ChainBound | whyslow-cli/src/causal.rs:19-19 | in every trace a chain has at most 16 records and at most 8 wakes |
| Chains.ChainOrder | whyslow-cli/src/causal.rs:245-297 | after the headline timestamps along a chain never increase |
| Chains.GuardTruncates | whyslow-cli/src/causal.rs:262-264 | where no recorded wait stands still, the unguarded walk terminates and the guarded one is exactly its first records |
| Chains.FreeWalkProgress | whyslow-cli/src/causal.rs:245-297 | there the unguarded walk goes strictly back from wait to wait and meets no wake twice |
| Chains.PositiveWakesMove | whyslow-cli/src/causal.rs:266-270 | when every wake takes recorded time and none began before time zero, no recorded wait stands still |
| Chains.FreeWalkAcyclic | whyslow-cli/src/causal.rs:245-297 | and then the unguarded walk goes strictly back in time, except that a wait may share its timestamp with the wake that ends it |
| Chains.NoEventRepeats | whyslow-cli/src/causal.rs:200-297 | in a recorded trace where no wait stands still, no event appears twice in a chain, the headline's wait included |
| Chains.HopStandsStillIff | whyslow-cli/src/causal.rs:252-270 | a hop leads to a wait with the same timestamp if and only if the wake found ends with the wait and takes no recorded time, and the waker has some recorded wait ending at that instant |
| Chains.HopsGoBackIff | whyslow-cli/src/causal.rs:252-270 | every hop between recorded waits goes strictly back in time if and only if none of them stands still in that sense |
| Chains.LoopRunsToTheGuard | whyslow-cli/src/causal.rs:262-264 | a hop that returns to its own wait repeats until the depth guard stops it |
| Chains.GuardIsNeeded | whyslow-cli/src/causal.rs:262-264 | a concrete trace whose chain repeats one wait and reaches the 16-record limit |
| Locality.ChainDependsOnRelevantEvents | whyslow-cli/src/causal.rs:52-137 | if no wake exceeds D, two traces agreeing on [r - 75 ms - 7D, r + 5 ms] give a stall resuming at r the same chain |
| Locality.DeletingTheRest | whyslow-cli/src/causal.rs:200-297 | deleting every event outside that stretch leaves the chain unchanged |
| Locality.LaterEventsIgnored | whyslow-cli/src/causal.rs:200-297 | events more than 5 ms after the resume never change the chain |
| Ranking.SortFacts | whyslow-cli/src/causal.rs:304-304 | the ranking is a permutation of the stalls, descending, with ties in arrival order |
| Ranking.SortUnique | whyslow-cli/src/causal.rs:304-304 | and is the only such list |
| Ranking.SlowestAreSlowest | whyslow-cli/src/causal.rs:303-305 | no omitted stall is longer than a reported one |
| Ranking.AmongSlowest | whyslow-cli/src/causal.rs:303-305 | a stall is reported whenever no more than the requested number of stalls are at least as long |
| Ranking.RankedPrefix | whyslow-cli/src/causal.rs:301-312 | a smaller count prints a prefix of what a larger one prints |
| Ranking.ArrivalOrderIrrelevant | whyslow-cli/src/causal.rs:28-76 | when timestamps (and stall durations) identify events within a type, any permutation of the events gives the same output |
| Shift.ClockShift | whyslow-cli/src/causal.rs:200-312 | moving every timestamp and the monotonic anchor by one constant leaves the whole output, wall times included, unchanged |
| Attribution.EnclosingWaitFound | whyslow-cli/src/causal.rs:89-98 | for a stall ending inside a futex wait, the following-search returns exactly that wait if it exits within 5 ms and nothing otherwise, whatever other records were lost |
| Attribution.HeadlineIff | whyslow-cli/src/causal.rs:97-114 | for a stall ending inside a wait, the headline is that wait if and only if it exits within 5 ms and no completed request of the thread is strictly nearer; no other wait can be the headline |
| Attribution.BlamedWaitHadBegunIff | whyslow-cli/src/causal.rs:97-114 | for every recorded stall, a wait in the headline had begun when the stall ended if and only if some recorded wait encloses the stall's end, exits within 5 ms, and no request is strictly nearer |
| Attribution.LaterWaitIsBlamed | whyslow-cli/src/causal.rs:89-98 | a concrete trace whose stall is blamed on a wait that began after it ended |
| Reproducer.ProgramStep | synthetic/src/main.rs:149-193 | every step of the two-thread program keeps its positions: the holder never contends, reads only under the lock, and the waiter starts after the holder has it |
| Reproducer.OwedStep | synthetic/src/main.rs:161-190 | from the moment the waiter sleeps the holder owes it a wake until the holder's wake call returns |
| Reproducer.LockOfRun | synthetic/src/main.rs:149-193 | in every run of the program the lock goes through a run of the lock alone, so what is proved of the lock holds of it |
| GroundTruth.RunInvariant | synthetic/src/main.rs:149-193 | over every interleaving, what the probes have recorded and emitted of the two threads matches where the threads are in their code |
| GroundTruth.EvidenceExists | synthetic/src/main.rs:3-12 | every finished run in which the waiter went off the CPU asleep leaves a stall of the waiter that ended inside its recorded wait on the lock, exactly one holder wake, and a last holder read that completed before that wake began |
| Diagnosis.GroundTruthChain | synthetic/src/main.rs:10-12 | whatever part of a run's events was recorded, the chain of the waiter's stall is exactly the true one (blocked on the lock word, woken by the holder, holder blocked on its last read) if and only if the four records lie within the three windows and no request of the waiter and no wait or request of the holder lies nearer |
| Diagnosis.GroundTruthLines | whyslow-cli/src/causal.rs:200-297 | the printed records are the expected three if and only if that condition holds, for the last read or for another request of the holder that prints just like it |
| Diagnosis.GroundTruthReported | whyslow-cli/src/causal.rs:301-312 | when no more than the requested number of recorded stalls are at least as long, one of the chains explain returns is the waiter's, and it is the expected one exactly under that condition |
| Diagnosis.EveryContendedRun | synthetic/src/main.rs:149-203 | every finished run in which the waiter went off the CPU asleep contains the four records, so the condition decides it |
| Diagnosis.GroundTruthObserved | whyslow-cli/tests/integration.rs:127-139 | the same equivalence for what the consumer drained from the bounded machine, whose probes may have fired before the target was set |
| Diagnosis.LateWakeIsMissed | whyslow-cli/src/causal.rs:252-254 | when the wake exits after the wait, nothing but the headline is printed |
| Witness.GroundTruthApplies | synthetic/src/main.rs:161-193 | a concrete contended run whose records meet the condition: its chain is the true one |
| Witness.WakeMayExitTooLate | synthetic/src/main.rs:161-193 | a concrete contended run in which nothing is lost, the wake's exit is stamped after the wait's, and the chain stops at the headline |

## Left out

- Program loading, tracepoint attachment, rlimits, polling, ptrace, signals and the command line: foreign calls; only "target set" and "stop answered true" remain, as steps.
- A probe whose context cannot be read returns early without effect; such a firing is a `Quiet` action.
- Byte layout of ring records, and `decode_event`'s size check: the ring carries events, every one of the one size the probes write.
- The kernel's byte accounting of the ring: its capacity is a number of records, and every lemma holds for any number.
- Kernel structure layout in vmlinux.rs, beyond the futex operation and task-state constants.
- Colours, banners, text formatting, local time and floating-point durations: records are typed instead of strings.
- UTF-8 repair of command names: names stay bytes.
- JSON reading and writing, and the sysfs link itself, which is a function argument.
- The library sort of `explain` is a function with the contract of a stable sort, not an in-place algorithm, and `lines` is passed in and returned instead of being updated through a reference.
- Hardware memory ordering: atomic steps are interleaved.
- The reproducer's reads are issue/complete pairs of one outstanding request at a time; buffers, O_DIRECT and the joining main thread are not part of this model. The number of reads is any positive number, of which the program's 64 is one.
- Schema.WordsAreArithmetic: relates the shifts and masks to arithmetic on 64-bit words; that 64-bit word arithmetic is the integers' below 2^64 is not stated again over unbounded integers, in which the rest of the model works.
- Requests.PackedMatchingIsExact: assumes that no other request of the history shares the key; the exact condition is in Requests.PackedTableExactIff.
