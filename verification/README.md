# Verified model of the vhost-net TX watchdog

The agent watches the TX queues that QEMU hands to vhost-net. It decides when a queue has stopped making
progress, writes a verified wakeup to the queue's kick eventfd under strict limits, and checks that the wakeup
helped. A fault controller with a small kernel module drops wakeups on purpose so that the agent has something to
repair. This project models that logic in Dafny and proves what holds in every run of it, whatever the kernel,
QEMU, other threads and the clock answer.

Check everything with `dafny verify dfyconfig.toml`.

## How the model is built

- **One FD slot at a time, then the whole loop.** `BatchedSlots` and `PlainSlots` give the two loops as the state
  machine of one FD slot, driven by arbitrary inputs; the theorems about whole runs are stated there. The classes
  `BatchedLoop.Loop` and `PlainLoop.Loop` are the loops themselves, statement by statement, over their maps. A ghost
  log per FD records the turns of each slot, input and events, and the class invariant says that the maps are exactly
  the state those logs lead to. So every theorem about slots holds for every FD of every run of the loops. `BatchedRuns`
  and `PlainRuns` hold the lemmas in between; `Roster` and `Passes` do the same for the manager.
- **Objects and their values.** `Progress.RingProgress`, `Detectors.Detector`, `RingReads.RingBatch`,
  `Selection.Selector` and `Manager.Manager` are classes whose methods are proved against functions on values. The
  run theorems are about those functions.
- **Concurrency as interleavings.** `RekickProtocol`, `SnapshotChannel` and `Injector` are small-step machines. A
  run is a sequence of states and moves; every move of every thread, and of the environment, may come at any point.
- **Time** is a nondecreasing `real`, and -Inf has its own constructor (`Words.Stamp`). Intervals, thresholds and
  limits are positive, as `Config.Validate` demands. Machine words are bounded integers with explicit wrap-around.

## Main results

- *Batched loop.* Every event of every run (candidate, stall, kick, restart, unavailable, verdict) is characterised
  **exactly** by the inputs and the events before it (`BatchedSlots.KickExact` and its companions). A kick means two
  live snapshots of one attachment, a tick or more apart and both taken after a threshold of unbroken age, that agree
  in identity, used and consumed index, while every batched read in between showed the same `used` and a valid
  backlog (`BatchedSlots.KickJustified`). Every queue is aged by the ring words its own snapshot points to in QEMU's
  memory (`BatchedRuns.WordsWereOwn`).
- *Plain loop.* The stall verdict and its report, the guarded and the periodic kick, and the start and the end of a
  verification have exact conditions in the answers of the calls (`PlainSlots.StallVerdictExact`,
  `PlainSlots.ReportExact`, `PlainSlots.KickExact`, `PlainSlots.PeriodicExact`, `PlainSlots.EndingExact`), and every
  verification ends exactly once (`PlainSlots.EachVerificationEndsOnce`).
- *Limits.* The budget with its in-place pruning allows a kick exactly when the whole history of kicks plus this
  one stays within cooldown and hourly maximum (`Budgets.AllowedExact`), through errors, identity changes and the
  FD vanishing and returning. Budgets belong to one run of a loop: a worker that the manager restarts begins
  with a fresh one.
- *Wrapped counters.* Both detectors on 16-bit words give the verdict of detectors on unbounded counters at every
  step. The bound of one lap is needed: `Progress.FullLapIsInvisible` and `Detectors.FullLapIsInvisible` give two
  samples exactly 65536 completions apart that look like a stall. `Progress.LapBoundExact` and
  `Detectors.LapBoundExact` say for runs of any length exactly when wrapped and unbounded timers agree.
- *Verified write.* Under every interleaving Rekick writes at most once, the value 1, to the very eventfd attached
  at its confirming snapshot, after checking its id, its flags, the queue and the process in that order
  (`RekickProtocol.WriteIsVetted`); left alone it succeeds exactly when the snapshot still holds
  (`RekickProtocol.UndisturbedExact`). The guarantee ends at that snapshot:
  `RekickProtocol.ReattachmentAfterConfirmation` is a run in which the queue is reattached between the confirmation
  and the write, and the wakeup goes to the eventfd attached before. `RekickProtocol.WriteReachesTheAttached` says
  exactly when the write does reach the eventfd attached at that moment.
- *Fault experiment.* The controller's trace is determined by what its calls answer (`FaultController.Run`); beside the
  injector, no recovery kick is attempted while the injector could still swallow it
  (`FaultExperiment.KickMeetsInertInjector`).
- *Workers.* Selector and manager composed over a whole run (`Manager.RunSelected`): every round is one pass with the
  targets its Resolve found and the exits of its workers, which retires exactly the clean exits and leaves exactly the
  wanted keys that are not retired with a worker; no unjoined worker without an open BPF, no restart of a retired key, every worker joined exactly once; and a PID is followed into a
  second process generation only where a running domain vouches for one of the two. `Attachment.AttachesTheSelected`
  closes the window between selection and pidfd.
- *Shared snapshot slot, ring reads, selection, rescue*: see the table.

## Model

| member | source | states |
|---|---|---|
| `Snapshots.ValidateExact` | internal/watch/model.go:24-38 | the bit tests accept exactly attached little-endian split rings of power-of-two size up to 32768 without feature bits 33 and 34; busy is bit 1 of the work flags |
| `Snapshots.IdentityExact` | internal/watch/model.go:19-22 | two snapshots have one identity if and only if they agree in every field but time, work flags and the two counters |
| `Snapshots.BusyExact` | internal/watch/run_linux.go:241-242 | queued work is bit 1 of the work flags |
| `Words.PowerOfTwoTrick` | internal/watch/model.go:31-33 | `n & (n-1) == 0` holds exactly for the powers of two |
| `Words.WrappedBacklog` | internal/watch/model.go:82-83 | a wrapped difference passes as a backlog of at most Num exactly when the true difference is one, for counters within a lap |
| `Progress.RingProgress.Observe` | internal/watch/progress.go:11-19 | the object's new fields and answer are those of the value machine about which the run results are proved |
| `Progress.RingProgress.Reset` | internal/watch/progress.go:21-23 | restarts the timer and forgets eligibility, keeping the last `used` |
| `Progress.Anchor` | internal/watch/progress.go:14-17 | the timer anchor is the first reading of the longest unbroken run of eligible readings of one `used` value |
| `Progress.ReadyExact` | internal/watch/progress.go:11-23 | ready holds if and only if an unbroken run of eligible samples with equal `used` and no reset inside began at least a threshold ago |
| `Progress.WrapTransparent` | internal/watch/progress.go:11-19 | over any run within a lap, the 16-bit machine has the timer, eligibility and verdict of the one on unbounded counters |
| `Progress.TornReadRestarts` | internal/watch/progress.go:12-15 | a torn read with `used` ahead by 1..32767 is never eligible and restarts the timer, whatever came before |
| `Progress.LapBoundExact` | internal/watch/progress.go:11-19 | over every run with backlogs within a lap and increasing times, the timers of the 16-bit machine and of the one on unbounded counters agree at every step if and only if no two consecutive backlogged samples are a nonzero number of whole laps apart |
| `Progress.DecisionExact` | internal/watch/progress.go:14-17 | at any step of any such run, whatever the times, the two machines disagree on keeping the timer if and only if that step misses whole laps of completions |
| `Progress.FullLapIsInvisible` | internal/watch/progress.go:14-18 | counterexample beyond the lap bound: 65536 completions between two samples yield a false ready |
| `Detectors.Detector.constructor` | internal/watch/model.go:77-79 | a fresh detector has an unstarted timer and an unspent budget |
| `Detectors.Detector.Observe` | internal/watch/model.go:81-89 | the timer moves as the value machine says, the budget is untouched, the answer is the machine's verdict |
| `Detectors.Detector.Allowed` | internal/watch/model.go:91-100 | compaction inside the shared buffer leaves exactly the attempts younger than 3600 s in order; the answer is the budget's; the timer is untouched |
| `Detectors.Detector.Kicked` | internal/watch/model.go:102-105 | records the kick as last and as newest attempt, whether or not the buffer grows |
| `Detectors.Anchor` | internal/watch/model.go:84-88 | the timer anchor is the latest resetting event: failed, first, ineligible, or changed sample |
| `Detectors.StallVerdictExact` | internal/watch/model.go:81-89 | a stall verdict holds if and only if the sample is eligible and no resetting event lies within the last threshold |
| `Detectors.StallReportsSpaced` | internal/watch/run_linux.go:261-266 | two reports are at least a threshold apart with a restart between them |
| `Detectors.ReportExact` | internal/watch/run_linux.go:261-320 | in every run of samples and failures a stall is reported if and only if it is judged and every earlier judgement lies before the latest resetting event |
| `Detectors.WrapTransparent` | internal/watch/model.go:81-89 | over any run within a lap, verdicts, reports and timer equal those of the detector on unbounded counters |
| `Detectors.LapBoundExact` | internal/watch/model.go:81-89 | over every run with backlogs within a lap and increasing times, the timers of the 16-bit detector and of the unbounded one agree at every step if and only if no eligible sample shows whole laps of used and consumed since the sample before it, with at least one of them moved |
| `Detectors.DecisionExact` | internal/watch/model.go:84-86 | at any step of any such run the two detectors disagree on restarting if and only if that step misses whole laps of progress |
| `Detectors.FullLapIsInvisible` | internal/watch/model.go:84-88 | counterexample beyond the lap bound, on a snapshot that validates: 65536 packets consumed and completed between two samples yield a false stall |
| `Detectors.TornReadRestarts` | internal/watch/model.go:82-85 | a torn read with `used` ahead by 1..32767 restarts the timer and is never a stall |
| `Budgets.PruneIsSuffix` | internal/watch/model.go:92-98 | on ordered times pruning keeps exactly the suffix of attempts younger than the window |
| `Budgets.RecentExact` | internal/watch/model.go:92-98 | the attempts left after pruning are exactly the kicks of the whole history younger than the window, despite earlier pruning |
| `Budgets.AllowedExact` | internal/watch/model.go:91-100 | a kick is allowed if and only if the whole history of kicks with this one added keeps cooldown and hourly maximum |
| `Budgets.SpendKeepsLimits` | internal/watch/model.go:91-105 | every use of the budget, kick or not, keeps the limits and the correspondence with the history |
| `BatchedSlots.KickJustified` | internal/watch/batched_linux.go:121-222 | every kick has an earlier candidate, still held, on the same attachment: a threshold of unbroken age with fixed `used` before it, and since then only live rows that agree with it in identity, used and consumed and are stuck and not busy |
| `BatchedSlots.KickExact` | internal/watch/batched_linux.go:121-222 | by inputs and earlier events alone: a kick is written if and only if the queue is ready, its live row confirms and agrees with a held candidate, one more kick keeps the limits, the context is live and the write is verified |
| `BatchedSlots.RowsExact` | internal/watch/batched_linux.go:158-177 | a live row is stuck, and agrees with a candidate, exactly by these fields: backlog and outstanding within the ring, no queued work; equal identity, used and consumed |
| `BatchedSlots.CacheFollows` | internal/watch/batched_linux.go:88-112 | in every run the queue object caches the snapshot the latest inventory found, whatever was polled, kicked or abandoned since |
| `BatchedSlots.CandidateExact` | internal/watch/batched_linux.go:158-171 | a candidate is taken if and only if a ready queue's live row confirms and no candidate is held |
| `BatchedSlots.RestartExact` | internal/watch/batched_linux.go:122-220 | an occupied slot's timer is restarted if and only if the batch read fails, a needed live row is missing or of another attachment, a permitted kick is refused, or a ready queue's row does not confirm or disagrees with the held candidate; the unavailable event is exact too |
| `BatchedSlots.StallExact` | internal/watch/batched_linux.go:178-185 | a stall is reported if and only if a ready queue's row confirms and agrees with a held candidate for the first time since the last restart |
| `BatchedSlots.ReadyExact` | internal/watch/batched_linux.go:131-138 | Observe answers yes if and only if the inputs show one attachment, a valid backlog and one `used` value for a threshold, with no restart |
| `BatchedSlots.AnchorExists` | internal/watch/batched_linux.go:81-135 | a running timer was started by a poll of the same attachment, and every turn since kept attachment, backlog and `used` without a restart |
| `BatchedSlots.CandidateExists` | internal/watch/batched_linux.go:158-180 | a candidate the slot holds was taken by an earlier turn, and every turn since was quiet without restart or kick |
| `BatchedSlots.LimitsHold` | internal/watch/batched_linux.go:105-206 | kicks of one FD slot are a cooldown apart and any span under 3600 s holds at most the maximum, though queue objects are dropped and replaced |
| `BatchedSlots.StallReportsSpaced` | internal/watch/batched_linux.go:124-220 | two stall reports of a slot are at least a threshold apart, the stretch behind the second began after the first, and no unbroken stretch spans both |
| `BatchedSlots.VerificationIsAKick` | internal/watch/batched_linux.go:144-213 | an outstanding verification is that of the latest kick, on the attachment that was kicked, with the counters read then |
| `BatchedSlots.VerdictJudgesItsKick` | internal/watch/batched_linux.go:144-157 | each verdict compares the kicked attachment with itself: recovered if and only if both used and consumed changed; unconfirmed only after the timeout |
| `BatchedSlots.OutstandingIsJudged` | internal/watch/batched_linux.go:144-157 | an outstanding verification is decided exactly by a live row of the kicked attachment: recovered when both counters moved, else unconfirmed after the timeout |
| `BatchedSlots.VerificationsBalance` | internal/watch/batched_linux.go:93-220 | at every point of every run the kicks equal the verdicts plus the abandoned verifications plus those a later kick overwrote plus the one outstanding |
| `BatchedSlots.SupersessionExact` | internal/watch/batched_linux.go:206-213 | a kick overwrites an outstanding verification if and only if not both counters moved and the timeout has not passed; never when the cooldown is at least the verification timeout |
| `BatchedRuns.PollFollows` | internal/watch/batched_linux.go:130-221 | polling one queue takes one legal step of its slot and of no other |
| `BatchedRuns.WordsAreOwn` | internal/watch/batched_linux.go:111-132 | the words of batch index k are the ring words in QEMU's memory that the snapshot found by the latest inventory of FD k points to |
| `BatchedRuns.WordsWereOwn` | internal/watch/batched_linux.go:121-132 | after a complete read every listed FD took exactly one turn: at the tick's time, with the ring words of its own cached snapshot and the environment's answers for this very FD |
| `BatchedRuns.ListingSteps` | internal/watch/batched_linux.go:81-112 | an inventory moves every slot of every FD by one inventory step, keeping objects of unchanged attachments |
| `BatchedRuns.FailureSteps` | internal/watch/batched_linux.go:122-129 | a failed batch read is one failure step of every listed slot and of no other |
| `BatchedLoop.Loop.constructor` | internal/watch/batched_linux.go:50-59 | an empty loop satisfies the invariant, with empty logs and nothing open |
| `BatchedLoop.Loop.LiveRow` | internal/watch/batched_linux.go:31-48 | the row is available only if all three calls succeed; the duplicate is closed whichever fails |
| `BatchedLoop.Loop.Recover` | internal/watch/batched_linux.go:190-205 | writes only when listed, duplicated and verified; the duplicate is closed on every path |
| `BatchedLoop.Loop.Judge` | internal/watch/batched_linux.go:147-157 | refines the verdict function of the slot machine |
| `BatchedLoop.Loop.Confirm` | internal/watch/batched_linux.go:158-213 | refines candidate, confirmation, report, budget and kick of the slot machine, with the error return; counts writes |
| `BatchedLoop.Loop.PollQueue` | internal/watch/batched_linux.go:131-220 | changes exactly one queue and one budget, to what the slot machine says, and counts its kick; an error forces a new inventory; duplicates balanced |
| `BatchedLoop.Loop.Relist` | internal/watch/batched_linux.go:81-108 | keeps the answering FDs in order with their snapshots; budgets survive, new FDs get fresh ones |
| `BatchedLoop.Loop.Adopt` | internal/watch/batched_linux.go:77-111 | the new list is the answering FDs in order, and with its queues and budgets one inventory step of every slot; the snapshots are those of the queues in order |
| `BatchedLoop.Loop.TakeInventory` | internal/watch/batched_linux.go:76-120 | after a successful inventory, stamped with its time, batch slot i belongs to queue i; fails exactly on a failed listing, over 512 queues or an invalid snapshot |
| `BatchedLoop.Loop.FailBatch` | internal/watch/batched_linux.go:122-129 | a failed batched read restarts every listed slot, abandons its verification and forces a new inventory |
| `BatchedLoop.Loop.PollNext` | internal/watch/batched_linux.go:130-220 | queue k is polled with the words of batch index k, which are those of its own cached snapshot; its log grows by exactly that turn, and an unavailable queue forces an inventory |
| `BatchedLoop.Loop.PollAll` | internal/watch/batched_linux.go:129-222 | every slot takes exactly the step of its own batch index and its own ring words; an inventory is forced if and only if some queue was unavailable |
| `BatchedLoop.Loop.ReadBatch` | internal/watch/batched_linux.go:121-222 | one vectored read over the rings of all queues: complete, it shows each queue the ring indices its own snapshot points to in QEMU's memory; otherwise every queue is restarted; the new inventory is forced exactly by a failed read or an unavailable queue |
| `BatchedLoop.Loop.Summarise` | internal/watch/batched_linux.go:224-236 | returns the rows of the queues still available with their cached identity, in order; forces a new inventory exactly when some queue is not; changes no queue and closes every duplicate |
| `BatchedLoop.Loop.Iterate` | internal/watch/batched_linux.go:60-245 | one whole tick extends each slot's log by exactly the inventory and batch inputs, in that order, and a complete batch shows every listed FD the ring words of its own snapshot; whatever was unavailable or stale forces the next inventory, else one taken now is stamped; it ends the run exactly for a stated reason; duplicates balanced |
| `BatchedLoop.Loop.Run` | internal/watch/batched_linux.go:50-245 | over any ticks and any memory of QEMU: one view per tick, each following from the one before by a whole tick, up to one that ends the run; invariant, limits and justification hold for every FD, the write counter is the number of kicks in all logs, and no duplicate stays open |
| `BatchedLoop.Loop.Guarantees` | internal/watch/batched_linux.go:50-245 | every reachable state of the loop satisfies limits, justified kicks and spaced reports for every FD |
| `PlainSlots.StallVerdictExact` | internal/watch/run_linux.go:207-320 | a turn samples if and only if its calls succeed; it is judged stalled if and only if the answers show unconsumed work that fits the ring, no queued work, no active handler and none within the interval, and at least a threshold has passed since the last resetting event of that FD, failed samples included |
| `PlainSlots.SampleExact` | internal/watch/run_linux.go:233-244 | what a visit samples, field by field of its answers: identity, used, consumed, and eligible exactly when idle with work |
| `PlainSlots.TurnEventsExact` | internal/watch/run_linux.go:207-321 | the timer events of a turn are its sample, as its answers showed it, and then a failure exactly when the turn was unavailable and the FD has a detector |
| `PlainSlots.ReportExact` | internal/watch/run_linux.go:261-320 | a stall is reported if and only if the turn is judged stalled and the timer restarted since every earlier turn that was |
| `PlainSlots.StallReportsSpaced` | internal/watch/run_linux.go:261-320 | two stall reports of a slot are at least a threshold apart with a resetting event strictly between |
| `PlainSlots.LimitsHold` | internal/watch/run_linux.go:228-299 | guarded kicks of one slot keep cooldown and hourly maximum through errors, identity changes, vanishing and returning |
| `PlainSlots.KickExact` | internal/watch/run_linux.go:267-299 | a guarded kick is written if and only if the turn is stalled in that sense, one more kick keeps the limits, and log, context, listing, duplicate and write all succeed; and the turn is unavailable exactly when it cannot be sampled or logged, or such a kick is due and refused |
| `PlainSlots.PeriodicExact` | internal/watch/run_linux.go:270-299 | a periodic kick is written if and only if the turn samples, an interval has passed since the last kick of the slot's history, and nothing fails; the unavailable turns are exact too |
| `PlainSlots.PeriodicSpaced` | internal/watch/run_linux.go:270-296 | periodic kicks of one slot are at least an interval apart over the whole run, through errors, identity changes, vanishing and returning |
| `PlainSlots.ObserveWritesNothing` | internal/watch/run_linux.go:270-272 | no run in observe mode ever kicks |
| `PlainSlots.PendingIsAKick` | internal/watch/run_linux.go:307-309 | an outstanding verification was started by a kick on the present attachment, and none ended or started since |
| `PlainSlots.StartExact` | internal/watch/run_linux.go:307-309 | a kick starts a verification if and only if its sample had work to consume and no other is outstanding |
| `PlainSlots.EndingJudgesItsKick` | internal/watch/run_linux.go:219-260 | every ending has its kick; progress means both counters of that attachment changed, a timeout that they did not in time |
| `PlainSlots.OutstandingIsJudged` | internal/watch/run_linux.go:246-260 | a sample of the kicked attachment always gives the ending it deserves |
| `PlainSlots.EndingExact` | internal/watch/run_linux.go:219-334 | how an outstanding verification ends at any turn, if it does: abandoned, progress, timeout, or abandoned by a failure after the sample |
| `PlainSlots.EachVerificationEndsOnce` | internal/watch/run_linux.go:219-334 | started verifications equal ended ones plus the one outstanding, at every point of every run |
| `PlainRuns.VisitFollows` | internal/watch/run_linux.go:207-324 | visiting one FD extends its run by one legal step, leaves all others, and adds its kick to the total |
| `PlainRuns.LeavingFollows` | internal/watch/run_linux.go:328-334 | dropping unlisted FDs from the maps is one leaving step of every unlisted slot |
| `PlainLoop.Loop.constructor` | internal/watch/run_linux.go:167-178 | an empty loop satisfies the invariant |
| `PlainLoop.Loop.Recover` | internal/watch/run_linux.go:270-310 | refines the recovery decision of the slot machine, counts writes, closes the fresh duplicate on every path |
| `PlainLoop.Loop.Judge` | internal/watch/run_linux.go:246-260 | refines the ending of the outstanding verification |
| `PlainLoop.Loop.TakeSample` | internal/watch/run_linux.go:243-311 | refines observe, judge, report and recover, in that order |
| `PlainLoop.Loop.Examine` | internal/watch/run_linux.go:209-312 | refines a visit up to its error return; the pinned duplicate is closed on every path |
| `PlainLoop.Loop.Settle` | internal/watch/run_linux.go:313-321 | an error restarts the timer, clears the report flag, abandons the verification and forces a new inventory |
| `PlainLoop.Loop.VisitQueue` | internal/watch/run_linux.go:207-327 | one visit extends exactly one slot's log by its step; an unavailable FD forces an inventory |
| `PlainLoop.Loop.Sweep` | internal/watch/run_linux.go:328-334 | removes exactly the unlisted FDs from snapshots and pending; detectors stay |
| `PlainLoop.Loop.VisitAll` | internal/watch/run_linux.go:207-327 | every listed FD is visited once or, when the log breaks, exactly those up to the first whose events it refuses; an inventory is forced if and only if some visited FD was unavailable |
| `PlainLoop.Loop.Discover` | internal/watch/run_linux.go:198-204 | the cached list changes exactly when due, and is then stamped with its time; a failed listing stops the run |
| `PlainLoop.Loop.Iterate` | internal/watch/run_linux.go:179-347 | a whole tick brings each slot exactly one turn; a tick whose log breaks between two visits brings it to exactly the FDs visited by then; an unavailable FD forces the next inventory, else one taken now is stamped; it stops exactly on the listed conditions; duplicates balanced |
| `PlainLoop.Loop.Run` | internal/watch/run_linux.go:167-348 | over any ticks: one view per tick, each following from the one before by a whole tick, up to one that ends the run; every slot's log is a run of as many turns, limits hold in guarded mode, verifications balance, the write total is the number of kicks in all logs, nothing stays open |
| `PlainLoop.Loop.Guarantees` | internal/watch/run_linux.go:167-348 | every reachable state satisfies limits, balanced verifications and spaced reports for every FD |
| `RekickProtocol.Min` | internal/watch/target_linux.go:187-187 | the smallest candidate descriptor |
| `RekickProtocol.DisturbedConsistent` | internal/watch/target_linux.go:177-191 | no interference frees or renames a pinned eventfd, and live ids stay unique |
| `RekickProtocol.InvHolds` | internal/watch/target_linux.go:179-226 | what is pinned, confirmed and written at each program point of every interleaving |
| `RekickProtocol.WritesOnlyTheAttachedEventfd` | internal/watch/target_linux.go:177-226 | at most one write, of value 1, only to the eventfd object attached at the confirming snapshot; success if and only if written; the duplicate is closed at return |
| `RekickProtocol.WriteIsVetted` | internal/watch/target_linux.go:179-218 | every write of every run was preceded by five own moves in this order, all about the eventfd that is then written: it was what the smallest candidate named, it had the id of the caller's valid snapshot, it was nonblocking, it was attached to the queue of the caller's snapshot, and the process was alive |
| `RekickProtocol.WriteReachesTheAttached` | internal/watch/target_linux.go:206-218 | at every write of every run the wakeup goes to the eventfd attached at that moment if and only if the attachments and detachments since the confirming snapshot leave the confirmed one attached; always when there are none |
| `RekickProtocol.UndisturbedWrites` | internal/watch/target_linux.go:179-226 | without interference, a snapshot that still describes the queue leads to exactly one write to the attached eventfd and success in seven steps |
| `RekickProtocol.UndisturbedExact` | internal/watch/target_linux.go:179-226 | without interference the call succeeds if and only if the snapshot still describes the queue of a live process and the descriptor it picks is the nonblocking eventfd attached to it; otherwise nothing is written |
| `RekickProtocol.LeavesTheWorldAlone` | internal/watch/target_linux.go:177-178 | no step changes flags, ids, QEMU's descriptors or the attachment |
| `RekickProtocol.ReturnsAfterSevenSteps` | internal/watch/target_linux.go:179-226 | seven own steps end the call however the environment interleaves |
| `RekickProtocol.ReattachmentAfterConfirmation` | internal/watch/target_linux.go:206-218 | a concrete run: a reattachment between confirmation and write is not noticed |
| `SnapshotChannel.AlwaysExclusive` | internal/watch/bpf_linux.go:91-92 | at most the mutex holder is inside, and the slot is cleared when it probes |
| `SnapshotChannel.SnapshotIsOwn` | internal/watch/bpf_linux.go:90-121 | for any number of threads a successful snapshot is what its own ioctl found behind its own file, at that moment; never stale, never another queue's |
| `SnapshotChannel.LookupDecides` | internal/watch/bpf_linux.go:113-120 | a completed lookup decides the call by what its own ioctl found behind its own file: a valid queue is returned as it was then, with the time of the probe; no queue or an invalid one is an error |
| `SnapshotChannel.FailuresFail` | internal/watch/bpf_linux.go:93-121 | any failed step, and a file that is not /dev/vhost-net, make the call fail; a call returns what it left with |
| `SnapshotChannel.ProbesVhostOnly` | internal/watch/bpf_linux.go:93-103 | the ioctl is made only on a file that the same call found to be /dev/vhost-net |
| `SnapshotChannel.NeverStuck` | internal/watch/bpf_linux.go:90-121 | the holder of the mutex can always move, and a waiting thread can take a free mutex |
| `Injector.DropsBounded` | fault-injection/host/vhost_fault.c:39-62 | in every interleaving `dropped` is at most max_drops and equals the number of wakeups whose key was changed, each of them targeted and changed to zero; `matched` equals the number of targeted wakeups past the filter; and at quiescence dropped is min(matched, max_drops) |
| `Injector.CallsAnswer` | fault-injection/host/vhost_fault.c:39-62 | in every run call i answers wakeup i: past the filter exactly when the wakeup is of the target waiter, has the EPOLLIN bit and lies in the window; its key is zero once cleared and otherwise untouched |
| `Injector.UncontendedCall` | fault-injection/host/vhost_fault.c:44-60 | a selected call that runs alone needs no retry and swallows its wakeup exactly when the limit is not reached |
| `Injector.QuiescentDrops` | fault-injection/host/vhost_fault.c:49-60 | with no call running, exactly min(matched, max_drops) were dropped |
| `Injector.RetryRaisesCount` | fault-injection/host/vhost_fault.c:51-60 | a failed compare-and-swap strictly raises the local count |
| `Injector.CallsEnd` | fault-injection/host/vhost_fault.c:39-62 | in every run a call ends after at most max_drops + 3 own actions |
| `Injector.LifecycleSafe` | fault-injection/host/vhost_fault.c:96-151 | probe registered and removed at most once, file pinned while registered, released exactly once on every path, failed init included; an unloaded module has no running handler |
| `Injector.NeverStuck` | fault-injection/host/vhost_fault.c:96-151 | once every handler has finished, a loaded module can always be taken a step further towards its end |
| `Injector.NothingAfterUnload` | fault-injection/host/vhost_fault.c:145-151 | after the unload no handler starts and no counter or key changes |
| `FaultController.Unload` | internal/fault/run_linux.go:106-119 | succeeds if and only if one of a hundred tries removes the module with only busy answers before it |
| `FaultController.Iterate` | internal/fault/run_linux.go:258-296 | the tick ends the loop exactly for the reason its calls give, or goes on; progress if and only if `used` differs from the baseline read after a successful unload; unloaded exactly when due and possible |
| `FaultController.Loop` | internal/fault/run_linux.go:254-298 | by the ticks alone: the loop ends at the first tick with a reason to end it, the module is removed exactly when some tick removed it, no tick follows one past the deadline |
| `FaultController.CleanUp` | internal/fault/run_linux.go:230-246 | unload before any kick; the unload fails exactly when the module is still loaded and the kernel never lets go of it; a kick is written or refused exactly when it was removed, no progress was seen, the target is alive and Rekick answers so |
| `FaultController.Run` | internal/fault/run_linux.go:230-299 | in every run the trace is determined by what the calls answered: removed exactly when an attempt to remove succeeded, kicks only after that, at most once and exactly when recovery gets that far; progress or a written kick on clean recovery; it fails exactly for an error; no tick after the first one past the deadline |
| `FaultExperiment.KickMeetsInertInjector` | internal/fault/run_linux.go:231-246 | in every joint run of controller and injector, from the moment a recovery kick is attempted no handler runs or starts and no key is cleared |
| `FaultExperiment.Experiment` | internal/fault/run_linux.go:230-299 | for every controller run and every injector run beside it, no kick is attempted while the injector could swallow it; the single unload entry stands for an attempt to remove the module that succeeded; a clean recovery saw progress or wrote a kick |
| `RingReads.Ring` | internal/watch/target_linux.go:157-169 | succeeds exactly on a complete read and returns the two index words in memory |
| `RingReads.WordsExact` | internal/watch/target_linux.go:157-169 | byte by byte: the index stands two bytes into each ring, at an address that wraps at 2^64, low byte first |
| `RingReads.NewRingBatch` | internal/watch/target_linux.go:29-42 | succeeds exactly for 1..512 valid snapshots and reads them in order |
| `RingReads.RingBatch.Read` | internal/watch/target_linux.go:44-53 | succeeds exactly when every byte arrived; the bytes that arrived are the remote ones in order and the rest of the buffer is untouched, on success and on a short read |
| `RingReads.RingBatch.Indices` | internal/watch/target_linux.go:55-58 | decodes the four bytes at the index |
| `RingReads.BatchBytes` | internal/watch/target_linux.go:34-40 | byte 4i+j of the batch is byte j of queue i |
| `RingReads.ReadAll` | internal/watch/target_linux.go:29-58 | over fixed memory a batched read gives at each index what the read of that queue alone gives |
| `Selection.KeyExact` | internal/selection/selection.go:24-24 | two targets share a key if and only if they share PID and start time |
| `Selection.Selector.constructor` | internal/selection/selection.go:52-53 | the selector that New builds has anchored nothing |
| `Selection.NewSelector` | internal/selection/selection.go:35-54 | refuses exactly an empty selection, a nonpositive PID and a pattern that does not compile; otherwise nothing is anchored |
| `Selection.Selector.Resolve` | internal/selection/selection.go:109-161 | the anchors move as the explicit phase says; the result lists, strictly increasing in PID, exactly what was found; the problem count; a failed directory read |
| `Selection.Selector.MatchDomains` | internal/selection/selection.go:130-153 | refines the domain phase, branch by branch |
| `Selection.Selector.Sort` | internal/selection/selection.go:155-160 | lists the map without loss or repetition, increasing in PID |
| `Selection.ExplicitAnchors` | internal/selection/selection.go:112-124 | a call changes no existing anchor and each explicit target carries its anchor |
| `Selection.ExplicitExact` | internal/selection/selection.go:112-124 | an explicit PID, repeated or not, is found if and only if some reading shows its process with its anchored start time, and as one such reading observed it; it becomes anchored exactly when found |
| `Selection.AnchoredToFirst` | internal/selection/selection.go:112-124 | a PID is anchored to the first process that was ever read for it |
| `Selection.FoundAsLast` | internal/selection/selection.go:112-124 | an explicit PID is found as the last reading that showed its anchored process |
| `Selection.ExplicitProblems` | internal/selection/selection.go:112-124 | the problems are exactly the readings that show no process or another one than the anchored |
| `Selection.MatchedExact` | internal/selection/selection.go:125-154 | a PID is found as the last runtime file of a running, matching domain with its UUID says; one that no such file names, as the explicit phase left it |
| `Selection.AdmitsExact` | internal/selection/selection.go:134-153 | a file yields a target exactly when its running, matching domain has a live process with its UUID; the target's fields, one by one |
| `Selection.ProblemsCounted` | internal/selection/selection.go:130-152 | the problems of the domain phase are exactly the unreadable files and the running, matching domains without such a process |
| `Selection.AnchorsNeverMove` | internal/selection/selection.go:107-123 | over any sequence of calls an anchored start time never changes |
| `Selection.FoundIsAnchored` | internal/selection/selection.go:109-161 | every returned target has its PID's anchored start time or was matched by a running domain |
| `Selection.ExplicitPidsNeverFollowReuse` | internal/selection/selection.go:107-123 | two calls that return one explicit PID return one start time, unless a running domain vouches for it |
| `Manager.Manager.constructor` | internal/watch/manager_linux.go:136-147 | an empty table satisfies the invariant, with the shared BPF open |
| `Manager.Manager.AtMostOneWorkerPerPid` | internal/watch/manager_linux.go:151-199 | in every reachable state two unjoined workers never share a PID |
| `Manager.Manager.Join` | internal/watch/manager_linux.go:157-165 | receives once from a worker that has exited or was cancelled, and removes it |
| `Manager.Manager.Retire` | internal/watch/manager_linux.go:166-168 | enters the key in the history of retirements, which only grows |
| `Manager.Manager.ReapOne` | internal/watch/manager_linux.go:156-175 | unwanted workers are cancelled and joined, finished ones joined, cleanly finished ones retired as of the present number of starts |
| `Manager.Manager.Reap` | internal/watch/manager_linux.go:155-176 | in any iteration order exactly the wanted, running workers stay |
| `Manager.Manager.StartMissing` | internal/watch/manager_linux.go:177-199 | every target without worker that is not retired gets one, existing workers are kept, and each new worker is one start |
| `Manager.Manager.Start` | internal/watch/manager_linux.go:183-185 | adds one worker under its key; the PID had none |
| `Manager.Manager.Reconcile` | internal/watch/manager_linux.go:151-199 | after the pass the workers are exactly the wanted keys that are not retired; running wanted workers are untouched and every other one was started once; exactly the wanted workers that exited cleanly retire |
| `Manager.Manager.MakePass` | internal/watch/manager_linux.go:151-199 | the pass is entered in the history with its targets, the exits it met, the retired keys, the keys that have a worker and the number of starts |
| `Manager.Manager.Refreshed` | internal/watch/manager_linux.go:208-216 | one more call of the selector: the new targets are exactly what it found, or the present workers while discovery fails |
| `Manager.Manager.Shutdown` | internal/watch/manager_linux.go:137-144 | workers are joined while the shared BPF is open, which the invariant demands of any unjoined worker; afterwards every started worker was joined exactly once and the BPF is closed |
| `Manager.Manager.Run` | internal/watch/manager_linux.go:89-220 | over any rounds up to the first broken log: one pass per round, with the targets its call found and the exits of that round; it retires exactly the clean exits, leaves exactly the wanted keys that are not retired with a worker, and starts, once each, exactly those not left running; a PID is watched in two generations only where a running domain vouches for one; retired keys never start again; every started worker is joined exactly once, before the shared BPF closes |
| `Manager.RunSelected` | internal/watch/manager_linux.go:63-220 | the same for the whole run from the first Resolve on, whatever the selector had anchored before; no worker is started when that call or the opening of the BPF fails |
| `Passes.BookPass` | internal/watch/manager_linux.go:151-199 | one more pass keeps all earlier ones true: their keys, their retirements, their starts, and that what they had retired never starts again |
| `Passes.SourcedReuse` | internal/selection/selection.go:107-152 | two generations of one PID that calls found at any time: some call found one of them through a running domain |
| `Roster.SameGeneration` | internal/watch/manager_linux.go:151-199 | two targets have one key in the tables if and only if they have one key string |
| `Attachment.AttachesTheSelected` | internal/selection/selection.go:94-105 | however the PID is reused between selection, opening the pidfd and the check, a worker that goes on is attached to the very process that was selected |
| `Attachment.AttachesExactly` | internal/watch/run_linux.go:138-147 | a worker goes on if and only if the selected process still holds the PID at the check with the same UUID |
| `Attachment.ReuseBeforeOpening` | internal/selection/selection.go:92-93 | the opening alone pins another process than the selected one when the PID is reused in between, and the check refuses it |
| `Rescue.Rescuer.Visit` | internal/watch/run_linux.go:360-375 | one rescue kick; the duplicate is closed whichever call fails |
| `Rescue.Rescuer.Run` | internal/watch/run_linux.go:350-385 | matching queues are kicked in order until the first failure, no duplicate stays open, and it succeeds if and only if the inventory does, some queue matches and every visit succeeds |
| `Rescue.KickedAfter` | internal/watch/run_linux.go:356-380 | successful visits are all kicked and do not influence what follows them |
| `Rescue.MatchingExact` | internal/watch/run_linux.go:356-359 | without a choice every listed FD matches, otherwise only the chosen one |
| `Rescue.KickedExact` | internal/watch/run_linux.go:360-380 | the kicked FDs are a prefix, all written and all but the last logged; the rest is untouched because a visit failed |

## Left out

- The loops hold detectors, queue objects and verifications as values in `seq` and `map` fields, so aliasing between a list of queues and the map of old ones is not captured; the objects themselves are modelled as classes on their own.
- The batched loop keeps the snapshots of its batch and builds the `RingBatch` object over them at each read, so a buffer that survives from one read to the next is modelled only in `RingReads`; QEMU's memory does not change during one vectored read.
- Inside the loops a Rekick call is one answer of the environment, and the `events` map it consults is not carried; the call itself is `RekickProtocol`.
- Worker keys are pairs of PID and start time rather than the joined string; `Roster.SameGeneration` shows that this identifies the same generations.
- Listing of queues and rescue over several selected targets: single passes over the same building blocks.
- Each look at /proc is one moment, though it reads several files.
- `Config.Validate` beyond positive intervals, thresholds and limits; the run duration is a flag of each tick.
- The probe reads kernel structures in one atomic step; stage counters, `active` tracking and `Forget` of BPF map entries are inputs or omitted.
- The three reserved bytes of a snapshot are one word.
- A short eventfd write counts as a refused write: eventfd writes are whole or fail.
- Waiting inside `unregister_kprobe` and `cancel_delayed_work_sync` is modelled as a step that is enabled only when the wait is over; probe-address matching is one step that succeeds or fails.
- JSON logging, event fields and summaries: events are kept as ghost or returned traces, and a broken log as a flag.
- Command line, `PIDList`, libvirt XML, regular expressions, /proc text and UUID case folding: their outcomes are inputs of Resolve.
- Module build, state directory and host lock, loading of BPF and of the module, start delays of workers, and real scheduling.
- Floating-point rounding of times.
