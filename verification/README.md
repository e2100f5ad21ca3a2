# Verified model of the Cantrip computer-use core

This project models the parts of Cantrip that hold input on a person's behalf, play timed scores, run
requests, install packages across crashes, and talk over a framed pipe, and proves what they promise.
Results are stated for every input, every run, every answer of the native side and every point of
interruption. `dafny verify dfyconfig.toml` checks everything.

## How the model is laid out

| files | system |
|---|---|
| `HoldLedger`, `Ownership`, `InputMonitor`, `HostMachine`, `HostSafety`, `HostHistory`, `Host` | who holds which control, and the host that posts input through a backend which may deliver, certify that it did not, be uncertain, or unwind |
| `ClickScore`, `Timeline`, `Gesture`, `GestureBoard`, `TimelineTravel`, `Travel`, `TravelSpans`, `Schedule`, `Motion` | click scores compiled to timelines, validation, indexing of keys and pointer, inserted pointer travel, the held-key executor, the sample clock of a drag |
| `Executor`, `ExecutorSafety`, `ExecutorOrder`, `ExecutorCancel` | the request executor with deferral, cancellation, one input job per session, two capture slots, scripts and shutdown |
| `PackageOperation`, `PackageSafety`, `PackageReceiving`, `PackageRepair` | the durable package operation, interruptible after every durable step, and save-before-replace repair |
| `WindowTraversal`, `WindowSearch` | the bounded traversal of a window hierarchy |
| `Inventory`, `Identifiers` | cursor pagination of targets under a count and a byte budget |
| `Framing` | binary frames over fragmenting, failing pipes |
| `Participants`, `RemoteCapture`, `CaptureHistory` | sequence-fenced remote participants and capture leases |
| `Common` | shared value types |

The native side is never assumed to behave. It is an oracle (`Env`, `Answers`, `Choice`, `Turn`) quantified
over in every theorem; clocks, cancellation and thread interleaving are part of it. Objects whose methods
update fields are classes (`Ownership.Registry`, `InputHosts.InputHost`, `Motion.TimedLinear`,
`WindowTraversal.Traversal`, `Framing.Pipe`, `Framing.Stream`, `Participants.Table`, `RemoteCapture.Captures`). Their methods are
proved against functions of the old state, and the theorems over runs are about those functions or about
the invariant that every method keeps.

The host's central theorem does not mention its own bookkeeping. `InputMonitor` is an independent observer
that reads only the record of backend calls and rejects it as soon as a call breaks the rule "every input
that may have been delivered is released once, newest first". `HostSafety` proves that no run of the host is
ever rejected, and that the ledger's holds are exactly what the observer says is owed. `HostHistory` reads the
same record backwards and tells from it alone, for every submitted input, whether it is refused and why, and
otherwise exactly which packet is posted and what is answered.

In the same way `Schedule.StopsAtFirst` reads the callbacks' answers in the order they are asked,
`ExecutorCancel.Cancels` tells from a state and a step whom it cancels, and `PackageRepair.RepairInstalls` reads
only the plan and the tree: each is a second description of the behaviour, proved to agree with the program's.

Some facts about the program that the proofs brought out:

- A package admission can be retried if and only if it is not stuck: no directory without a record and
  without an admission under way. The stuck state is reached by a crash between the two, and is final
  (`PackageSafety.CompletableUnlessStuck`, `AdmissionCanBeInterrupted`, `InterruptedAdmissionIsDead`).
- "Failed" without a receipt means that no installer was launched, except after an interrupt between the
  launch and the next statement, which notes it (`PackageSafety.ReportsAreHonest`,
  `InterruptedLaunchIsMisreported`).
- A receipt does not by itself make a report: a record is "ready" or "failed" as its receipt deserves if and
  only if it is complete; when the last save raises, a successful installation stays "unknown" with its receipt
  on record (`PackageSafety.ReportsAreHonest`, `RaisedSaveIsUnknown`).
- An admission that names one artifact twice can never be started (`PackageReceiving.StartNeedsEverything`).
- The truncation flag of a traversal says "stopped, a list cut, or a node left out". It means "a node left
  out" in every graph whose lists fit (`WindowSearch.TraverseRoomy`); a node that lists itself 33 times is
  fully visited and still reported truncated (`WindowSearch.CutMayMislead`).
- The held-key executor leaves an index held if and only if more than one release above it unwinds, or more
  than none when an unwinding callback had already stopped the playing; that is also when the process can
  abort in the middle of its cleanup (`Schedule.DispatchFallible`, `CleanupLeaves`, `AbortLeavesHeld`).
- Numbers follow the code where its documentation differs: 37 pending requests and a 16 MiB header limit.

## Model

| member | source | states |
|---|---|---|
| `Ownership.RepresentedIsExclusive` | cantrip_interaction/src/ownership.rs:31-53 | two indexes that are inverses of each other admit at most one holder of a control per domain |
| `Ownership.IndexAnswers` | cantrip_interaction/src/ownership.rs:122-133 | a lookup in the global index answers exactly what scanning every participant's holds would |
| `Ownership.Registry.constructor` | cantrip_interaction/src/ownership.rs:55-68 | an empty registry represents the empty ledger |
| `Ownership.Registry.Open` | cantrip_interaction/src/ownership.rs:69-93 | issues a token never issued before, or reports capacity and changes nothing |
| `Ownership.Registry.AcceptSequence` | cantrip_interaction/src/ownership.rs:102-119 | accepts only sequences above the last accepted one of that participant |
| `Ownership.Registry.Available` | cantrip_interaction/src/ownership.rs:122-133 | tells free, own and foreign controls apart for the whole domain |
| `Ownership.Registry.Acquire` | cantrip_interaction/src/ownership.rs:136-169 | adds the hold to both indexes as the newest one, or changes nothing |
| `Ownership.Registry.Held` | cantrip_interaction/src/ownership.rs:171-179 | returns the retained release of a hold of the caller |
| `Ownership.Registry.ReplaceRelease` | cantrip_interaction/src/ownership.rs:195-217 | exchanges a release in place, keeping the acquisition order |
| `Ownership.Registry.Release` | cantrip_interaction/src/ownership.rs:220-233 | removes one hold from both indexes and returns its release |
| `Ownership.Registry.Close` | cantrip_interaction/src/ownership.rs:237-251 | forgets the participant in both indexes and returns its releases in reverse acquisition order |
| `Ownership.NewestFirst` | cantrip_interaction/src/ownership.rs:241-250 | sorting by descending ordinal is reverse acquisition order |
| `HoldLedger.AcquireGood` | cantrip_interaction/src/ownership.rs:136-169 | acquiring keeps one holder per control and domain and both limits |
| `HoldLedger.ReleaseGood` | cantrip_interaction/src/ownership.rs:220-233 | releasing keeps exclusivity and both limits |
| `HoldLedger.CloseGood` | cantrip_interaction/src/ownership.rs:237-251 | closing keeps exclusivity and both limits |
| `InputMonitor.AttemptsMatchDue` | cantrip_interaction/src/host.rs:243-341 | in an accepted record the release attempts made equal the releases due minus those still owed |
| `InputMonitor.NothingAfterClosed` | cantrip_interaction/src/host.rs:314-341 | an accepted record has no call for a participant after its close |
| `HostSafety.StepTracks` | cantrip_interaction/src/host.rs:106-341 | every operation under every outcome leaves a record the monitor accepts, with owed releases equal to held controls |
| `HostSafety.RunTracks` | cantrip_interaction/src/host.rs:230-349 | in every run a control is held exactly while its Down may have been delivered and no release was attempted; the release kept is that of the last move that may have been delivered |
| `HostSafety.DropReleasesEverything` | cantrip_interaction/src/host.rs:342-349 | after drop every possibly delivered Down got exactly one release attempt, and every Up certified unsent exactly one retry |
| `HostSafety.CloseSettles` | cantrip_interaction/src/host.rs:314-341 | closing attempts every owed release newest first, whatever each attempt returns |
| `HostSafety.FailTracks` | cantrip_interaction/src/host.rs:288-310 | rollback for a certified refusal, retry for an unsent Up and cleanup for the rest leave nothing owed |
| `HostSafety.StepIsolates` | cantrip_interaction/src/host.rs:230-341 | an operation, failed or not, changes nothing of any other participant and calls the backend for none |
| `HostSafety.ClosedTokenStaysClosed` | cantrip_interaction/src/ownership.rs:69-93 | a token that has been closed is not valid in any later state |
| `HostSafety.RunGood` | cantrip_interaction/src/ownership.rs:69-251 | exclusivity and both limits hold in every reachable state of the host |
| `HostHistory.HeldIsScanned` | cantrip_interaction/src/host.rs:243-311 | what is held for a live participant is, control by control, the release of the last Down or move that may have been delivered and was not followed by an Up; their number is the releases due minus those attempted |
| `HostHistory.SubmissionMeans` | cantrip_interaction/src/host.rs:162-311 | every submission: stale or unknown changes nothing; behind the fence it is refused exactly when its control is held already, held elsewhere in its domain, not held, or one too many, and nothing is posted; otherwise the first call carries exactly the prepared control, packet and release (an Up without a packet its retained release), a delivered call is accepted with that one call, and any other closes the participant and answers with its outcome and the failures of the cleanup |
| `HostHistory.OnlySubmissionsPost` | cantrip_interaction/src/host.rs:106-179 | no other operation posts input; an invalid event or a failed preparation consumes its sequence and nothing else, an unwinding preparation closes |
| `HostHistory.FailuresAre` | cantrip_interaction/src/host.rs:314-341 | the failures reported are the outcomes of exactly the failed calls, in their order |
| `HostHistory.SequencesRise` | cantrip_interaction/src/ownership.rs:102-119 | in every run the sequences of one participant that pass its fence strictly increase |
| `HostHistory.RisingPasses` | cantrip_interaction/src/host.rs:219-229 | after every run an input passes the fence if and only if its participant is live, its identity is the participant's target, and its sequence is above every one that has passed |
| `HostHistory.LeasesFollow` | cantrip_interaction/src/host.rs:106-138 | in every run a live participant's destination is the one last given to it, and its identity and domain are those it was opened with |
| `InputHosts.RollbackUndoes` | cantrip_interaction/src/host.rs:291-298 | releasing after a refused Down, or restoring the old release after a refused move, gives back the ledger as it was |
| `InputHosts.InputHost.Open` | cantrip_interaction/src/host.rs:106-115 | refines the machine: a fresh token bound to its destination, or no change |
| `InputHosts.InputHost.UpdateDestination` | cantrip_interaction/src/host.rs:124-138 | refuses a different identity; an unwinding refresh closes the participant |
| `InputHosts.InputHost.Prepare` | cantrip_interaction/src/host.rs:140-148 | refines the machine: neither dispatches nor consumes a sequence; an unwinding preparation closes the participant |
| `InputHosts.InputHost.Submit` | cantrip_interaction/src/host.rs:162-179 | a stale or replayed request changes nothing; an invalid event consumes its sequence and nothing else |
| `InputHosts.InputHost.SubmitPrepared` | cantrip_interaction/src/host.rs:182-191 | same rules for an already prepared packet |
| `InputHosts.InputHost.SubmitAction` | cantrip_interaction/src/host.rs:197-218 | a semantic action under the same lifetime, sequence, collision and failure rules |
| `InputHosts.InputHost.Dispatch` | cantrip_interaction/src/host.rs:243-311 | reserve, post, then roll back or clean up: the new state, record and reply are the step function's, of which `HostHistory.SubmissionMeans` says what they are |
| `InputHosts.InputHost.Close` | cantrip_interaction/src/host.rs:314-341 | closes exactly once, continues past failing and unwinding releases, and reports each failure in order |
| `InputHosts.InputHost.Drop` | cantrip_interaction/src/host.rs:342-349 | closes every live participant |
| `Schedule.DispatchFallible` | cantrip_interaction/src/schedule.rs:115-214 | where playing stops, what is posted and how the run ends are functions of the frames and the callbacks: what is played is a prefix of the native events in order with on-time moves, each in the frame of its own time; the first callback whose answer is not fine fixes both where that prefix ends and how the run ends; then one Up per index still held, highest first; the run completes if and only if every wait, check, preparation and post of every kept event and every release was fine; it aborts if and only if two of the stopping callback and the releases unwind; an index stays held if and only if more releases above it unwind than the cleanup can spare; `inputBegan` is false exactly when no Down or Up was attempted |
| `Schedule.NothingStaysHeld` | cantrip_interaction/src/schedule.rs:127-153 | such a record leaves no index held and gives every attempted Down a later Up |
| `Schedule.ReleasesAreUps` | cantrip_interaction/src/schedule.rs:131-146 | cleanup posts one Up for each held index in descending order and nothing else |
| `Schedule.ReleaseAll` | cantrip_interaction/src/schedule.rs:131-146 | releases held keys highest first past reported errors; an unwinding release leaves exactly the rest of the same cleanup to be done |
| `Schedule.Conclude` | cantrip_interaction/src/schedule.rs:204-214 | explicit cleanup, then the key table's own on drop: a first unwinding release is recovered from, a second ends the cleanup and aborts |
| `Schedule.CleanupLeaves` | cantrip_interaction/src/schedule.rs:131-153 | after a cleanup an index is held if and only if it lies below more unwinding releases than can be spared |
| `Schedule.CalmRunsEnd` | cantrip_interaction/src/schedule.rs:127-214 | if no callback unwinds while playing and no index is out of range, the run aborts if and only if two releases of held indices unwind |
| `Schedule.AbortLeavesHeld` | cantrip_interaction/src/schedule.rs:131-153 | a concrete run in which two releases unwind, the process aborts and index 0 stays held |
| `Schedule.PlayIsScore` | cantrip_interaction/src/schedule.rs:157-203 | what is played is a prefix of the score, all of it unless something stops it |
| `Schedule.PlayAnswers` | cantrip_interaction/src/schedule.rs:157-203 | playing stops only with an answer some callback gave, or on an index out of range |
| `Schedule.PlayStopsAtFirst` | cantrip_interaction/src/schedule.rs:157-203 | of all answers in the order they are asked for, the first that is not fine decides how many events are posted and how the playing ends; without one the whole score is played |
| `Schedule.FineIsUntroubled` | cantrip_interaction/src/schedule.rs:157-203 | all those answers are fine if and only if every wait elapsed and every frame check, event check, preparation and post of every kept event was fine, with no index out of range |
| `Schedule.KeptAre` | cantrip_interaction/src/schedule.rs:169-174 | a frame on time keeps every event; a late one drops its moves and keeps every native event |
| `Schedule.PlayFrame` | cantrip_interaction/src/schedule.rs:157-203 | one frame's events are posted as far as the stopping function says, which is as far as the first answer that is not fine, with the key table showing exactly what is held |
| `Motion.CountIsCeiling` | cantrip_interaction/src/motion.rs:137-150 | the split integer computation is the ceiling of sixty samples per second, at least one |
| `Motion.SampleClock` | cantrip_interaction/src/motion.rs:153-173 | times strictly increase, interior ones stay below the duration, gaps never exceed 16,666,667 ns |
| `Motion.PathIsAClock` | cantrip_interaction/src/motion.rs:153-173 | the whole path has these properties and ends at the full duration and the end point |
| `Motion.PositionsOnSegment` | cantrip_interaction/src/motion.rs:153-173 | every sample lies on the segment, at the share of its time |
| `Motion.TimedLinear.Next` | cantrip_interaction/src/motion.rs:153-173 | yields the remaining samples one by one |
| `Motion.TimedLinear.Nth` | cantrip_interaction/src/motion.rs:174-177 | agrees with repeated `Next` |
| `Motion.TimedLinear.Last` | cantrip_interaction/src/motion.rs:178-184 | agrees with the last of repeated `Next` |
| `Motion.TimedLinear.SizeHint` | cantrip_interaction/src/motion.rs:185-191 | exact unless the count exceeds the platform word |
| `Travel.SpanTimes` | cantrip_interaction/src/motion.rs:275-290 | spline samples lie strictly after the release, not after the deadline, in order, ending on it at the end point |
| `Travel.SpanCount` | cantrip_interaction/src/motion.rs:237-245 | the fewest samples that are at most a sixtieth of a second apart, at least one |
| `TravelSpans.SampleShares` | cantrip_interaction/src/motion.rs:275-290 | each sample is due at its exact share of the gap, rounded down |
| `TravelSpans.SpansAreCrossings` | cantrip_interaction/src/schedule.rs:31-71 | the spans are, in order, exactly the clicks with both time and distance to travel: each from the click before to this one, from the last release to the click's time, bending towards the neighbouring clicks |
| `Travel.MergeErases` | cantrip_interaction/src/schedule.rs:72-86 | erasing the inserted moves gives back the original frames |
| `Travel.MergeOrdered` | cantrip_interaction/src/schedule.rs:72-86 | the lazy merge keeps times non-decreasing |
| `Travel.LeadComesFirst` | cantrip_interaction/src/schedule.rs:42-86 | the samples waiting at any event belong to the next click and precede it |
| `Travel.TravelPreservesMeaning` | cantrip_interaction/src/schedule.rs:26-86 | for every alternating pointer timeline and every curve: native frames unchanged, times ordered, moves only while the button is up and after the last release, and every click after a positive gap finds the cursor in place |
| `Travel.FindSpans` | cantrip_interaction/src/schedule.rs:31-71 | one pass finds the span before every click, with the following click as look-ahead |
| `Travel.WithPointerTravel` | cantrip_interaction/src/schedule.rs:26-86 | the program's merge loop computes that travelled timeline |
| `TimelineTravel.AcceptedTimelinesTravel` | cantrip_cua/src/macos/gesture.rs:191-268 | every accepted timeline, keys and pointer indexed together, keeps its meaning under travel wherever its places are shown and whatever the curve |
| `TimelineTravel.PlayTimeline` | cantrip_cua/src/macos/gesture.rs:191-272 | end to end: validate, index, travel, play; played if and only if accepted, never found cancelled and fully prepared; moves aside, what is posted is a prefix of the plan followed by the cleanup of whatever it leaves held, the whole plan if every callback succeeds; how the run ends, whether it aborts and what it leaves held are the executor's functions of the callbacks; nothing stays held unless it aborts |
| `Gesture.AcceptedIsIndexed` | cantrip_cua/src/macos/gesture.rs:191-230 | in every accepted timeline each key and pointer release finds its press, each transition does what its touch asks for, presses are numbered in order and all end released |
| `Gesture.OnceDownOnceUp` | cantrip_cua/src/macos/gesture.rs:68-76 | in such a plan every index has exactly one Down and one later Up, so a prepared press is taken once |
| `Gesture.HandsFollow` | cantrip_cua/src/timeline.rs:64-90 | touch by touch, what is held is what the per-key and pointer histories of the validator say |
| `Gesture.IndexFrame` | cantrip_cua/src/macos/gesture.rs:194-229 | one frame's key releases, pointer release, key presses and pointer press are indexed in that order, if and only if each of its presses can be prepared |
| `Gesture.MakeBoard` | cantrip_cua/src/macos/gesture.rs:191-230 | a timeline is compiled if and only if it is accepted, no frame finds the request cancelled and every press can be prepared |
| `GestureBoard.BoardPlaysFrames` | cantrip_cua/src/macos/gesture.rs:191-230 | every frame of an accepted timeline is played at its own time and does exactly what it asks for: its key releases, pointer release, key presses with the frame's modifiers, and pointer press with its place, button and modifiers |
| `GestureBoard.ScoreAsks` | cantrip_cua/src/click_sequence.rs:53-77 | a compiled score asks, click by click, for one press at the click's place with the score's button and modifiers at the click's time, and its release after its hold |
| `Timeline.Validate` | cantrip_cua/src/timeline.rs:34-95 | accepts exactly the well-formed, ordered timelines in which each key and the pointer alternate, end released, and at most sixteen keys are held |
| `Timeline.ValidateFrame` | cantrip_cua/src/timeline.rs:64-90 | one frame's presses and releases follow the per-key histories, or the timeline is not acceptable |
| `ClickScore.Compile` | cantrip_cua/src/click_sequence.rs:40-79 | compiles exactly the playable scores |
| `ClickScore.CompiledIsAccepted` | cantrip_cua/src/click_sequence.rs:40-79 | every compiled score is an accepted timeline, whatever keys are supported |
| `ClickScore.MakePlan` | cantrip_cua/examples/timed_input_fixture.rs:15-52 | indexes the presses of an accepted pointer timeline and refuses every other |
| `ClickScore.ReleaseIsFound` | cantrip_cua/examples/timed_input_fixture.rs:30-46 | in an accepted timeline a release always finds the press it ends |
| `ClickScore.ScorePlan` | cantrip_cua/examples/timed_input_fixture.rs:30-52 | the plan of a compiled score has one Down at each click's time and one Up at its release time |
| `ClickScore.ScheduledAt` | cantrip_cua/src/click_sequence.rs:53-77 | the frames of the i-th click carry its own time and its own hold |
| `ClickScore.TimesAt` | cantrip_cua/src/click_sequence.rs:53-77 | the i-th click's Down is due at its time and its Up at that time plus its hold |
| `ClickScore.PlayScore` | cantrip_cua/examples/timed_input_fixture.rs:15-66 | end to end: refused exactly when not playable; what is posted is a prefix of one Down and one Up per click in score order, each in the frame of its own time and at its own click's place, then the cleanup; an unfailing run posts all of it and nothing else; how the run ends, whether it aborts and what it leaves held are the executor's functions of the callbacks |
| `ExecutorSafety.RunKeeps` | cantrip_cua/src/runtime.rs:168-562 | every reachable state of the executor keeps its invariant; who is cancelled in it is told by `ExecutorCancel.CancelledExactly` |
| `ExecutorSafety.PendingIsPartitioned` | cantrip_cua/src/runtime.rs:199-301 | pending requests are the disjoint union of queued, deferred, running, capturing and script-owned ones, never more than 37, with at most two captures and four script contexts |
| `ExecutorSafety.AnsweredAtMostOnce` | cantrip_cua/src/runtime.rs:65-110 | no request is answered twice |
| `ExecutorSafety.CleanShutdownAnswersAll` | cantrip_cua/src/runtime.rs:418-562 | after a clean end of input every request was answered exactly once unless its response could not be sent |
| `ExecutorSafety.CleanShutdownHappens` | cantrip_cua/src/runtime.rs:418-562 | a run with one request ends in such a clean shutdown, so that promise is not empty |
| `ExecutorSafety.RunningInputIsUndisturbed` | cantrip_cua/src/service.rs:405-477 | while a session's input job runs, the session's value is the one the job was planned from |
| `ExecutorSafety.ActiveIsNeverOverwritten` | cantrip_cua/src/runtime.rs:313-417 | a running job leaves its slot only by its own completion, cancelled requests that overtake the queue included |
| `ExecutorSafety.CompletionLosesNothing` | cantrip_cua/src/service.rs:562-610 | the step that completes a job replaces exactly the value the job was planned from, and no other session changes |
| `ExecutorOrder.SessionsStayOrdered` | cantrip_cua/src/runtime.rs:313-417 | in every run requests of one session are carried out in the order they were read, and none overtakes one of that session that still waits |
| `ExecutorOrder.FirstOfItsSession` | cantrip_cua/src/runtime.rs:313-417 | the first eligible uncancelled request is the first of its session in line |
| `ExecutorOrder.LeavingIsService` | cantrip_cua/src/runtime.rs:313-337 | a waiting request that nobody cancelled leaves the line only by being served on its session |
| `ExecutorCancel.CancelStep` | cantrip_cua/src/runtime.rs:159-301 | a step cancels exactly those the independent description names, and closes the reader exactly when reading fails |
| `ExecutorCancel.CancelledExactly` | cantrip_cua/src/runtime.rs:204-499 | in every run a request is cancelled if and only if a cancellation named it while pending, a close or retarget of its exact binding reached its running or waiting input, a reset or close of its exact binding reached its evaluation, the reader, the output, the script thread or the executor gave up while it was pending, or scripts were stopped at the end |
| `ExecutorCancel.OnlyPending` | cantrip_cua/src/runtime.rs:204-215 | only pending requests are ever cancelled, apart from one whose own reading fails |
| `ExecutorCancel.CancelledNeverStarts` | cantrip_cua/src/runtime.rs:312-417 | once cancelled a request is never served on a session, never becomes an input or capture job and starts no evaluation, whatever follows |
| `ExecutorCancel.ServiceMeans` | cantrip_cua/src/runtime.rs:330-417 | a served request leaves in its session what the service returned, and runs as the input job of its session or is answered |
| `ExecutorCancel.SessionsChangeByService` | cantrip_cua/src/runtime.rs:313-440 | a session changes only when a request of that session that nobody cancelled is served, or when the input job running on it completes |
| `ExecutorCancel.CommandMeans` | cantrip_cua/src/javascript.rs:906-952 | an evaluation starts if and only if it is not cancelled, has room and can be started, and is answered otherwise; a close, and a reset that is not cancelled, leave no context of their binding and no evaluation of it unanswered |
| `ExecutorCancel.ScriptsAreSeparate` | cantrip_cua/src/javascript.rs:868-965 | a script context changes only by a command of its exact binding, an answer to its own evaluation, the end of that evaluation, or the shutdown |
| `ExecutorSafety.ServeKeeps` | cantrip_cua/src/runtime.rs:313-417 | serving a waiting request keeps the invariant, whatever the service decides |
| `ExecutorSafety.FinishInputKeeps` | cantrip_cua/src/service.rs:562-610 | completing an input job keeps the executor's invariant |
| `ExecutorSafety.RunCommandKeeps` | cantrip_cua/src/javascript.rs:868-965 | every command of the script thread (evaluate, reset, close, a host's reply, a wake-up) keeps the invariant |
| `PackageSafety.RunKeeps` | cantrip_os/host/package-job.py:190-345 | every interleaving of commands, with a crash after any durable step, keeps the protocol invariant |
| `PackageSafety.AtMostOneInstaller` | cantrip_os/host/package-job.py:299-345 | at most one coordinator is forked and one installer launched, never for an abandoned operation |
| `PackageSafety.ClaimIsFinal` | cantrip_os/host/package-job.py:299-345 | the exclusive claim is never withdrawn and never changes between start and abandon |
| `PackageSafety.OnlyTheEntitledWrite` | cantrip_os/host/package-job.py:258-345 | every record write is by the process the claim entitles; after the fork only the coordinator |
| `PackageSafety.ReportsAreHonest` | cantrip_os/host/package-job.py:537-592 | "ready" if and only if the record is complete and dpkg and every helper returned 0; "failed" with a receipt if and only if it is complete and one of them did not; a receipt is the true outcome of the one installer, run on artifacts verified again, and in an incomplete record it is reported unknown; "failed" without a receipt means no installer was launched, exactly unless an interrupt struck between the launch and the note of it |
| `PackageSafety.EveryOutcomeIsReported` | cantrip_os/host/package-job.py:570-586 | for every exit code and every helper results some run ends in the report they deserve: ready when all are 0, failed otherwise |
| `PackageSafety.RaisedSaveIsUnknown` | cantrip_os/host/package-job.py:585-592 | a run in which the last save raises and a successful installation is left unknown with its receipt |
| `PackageSafety.OutcomeWasAwaited` | cantrip_os/host/package-job.py:574-582 | the outcome on record is what the awaited installer and, after exit code 0, its helpers returned |
| `PackageReceiving.StartNeedsEverything` | cantrip_os/host/package-job.py:258-318 | a started operation has received exactly its admitted artifacts, each of which once stood in its directory, and they are all different |
| `PackageReceiving.StagedCanBeAbandoned` | cantrip_os/host/package-job.py:332-345 | wherever a run stands with the operation staged and nobody in the locked region, abandoning succeeds: reported failed, claimed for good, no installer launched |
| `PackageSafety.InterruptedLaunchIsMisreported` | cantrip_os/host/package-job.py:570-592 | a run in which such an interrupt makes the coordinator report failure without a receipt although an installer was launched |
| `PackageSafety.DeadCoordinatorIsUnknown` | cantrip_os/host/package-job.py:220-236 | a claimed operation without a living process or a committed outcome is reported unknown |
| `PackageSafety.InterruptedAdmissionIsDead` | cantrip_os/host/package-job.py:238-256 | a directory without a record and without an admission under way stays so in every continuation, never claimed, started or abandoned |
| `PackageSafety.AdmissionCanBeInterrupted` | cantrip_os/host/package-job.py:242-256 | a run of three steps reaches that state |
| `PackageSafety.CompletableUnlessStuck` | cantrip_os/host/package-job.py:238-256 | some continuation gives the operation a record if and only if it is not in that state |
| `PackageRepair.EveryCrashPointRecovers` | cantrip_os/host/package-job.py:388-492 | after any number of repair steps, restoring the first journal entry of each path with its saved bytes recovers the original |
| `PackageRepair.StepKeeps` | cantrip_os/host/package-job.py:432-492 | every durable step keeps the recovery invariant; what the steps install is `RepairInstalls` |
| `PackageRepair.RepairInstalls` | cantrip_os/host/package-job.py:456-492 | a finished repair holds on every path what the last item for it asks: the new node, nothing after a removal, something after a directory, and the original where no item changes it |
| `PackageRepair.RepairFinishes` | cantrip_os/host/package-job.py:432-492 | within four steps per item a repair is finished, or stands blocked |
| `PackageRepair.HaltsOnlyIfBlocked` | cantrip_os/host/package-job.py:453-455 | a repair stops early only at an item that would replace or remove a directory or special node |
| `PackageRepair.ChangesAre` | cantrip_os/host/package-job.py:440-492 | exactly the payload admitted by the configuration policy and the scripts of every package are changed |
| `PackageRepair.ChangesInOrder` | cantrip_os/host/package-job.py:565-566 | packages are repaired one after the other, each its payload before its scripts |
| `PackageRepair.AdmittedInOrder` | cantrip_os/host/package-job.py:440-448 | the configuration policy leaves out files without disturbing the order of the rest |
| `PackageRepair.SparedPathsStay` | cantrip_os/host/package-job.py:432-492 | a path no remaining item replaces is not changed and not journaled |
| `PackageRepair.ConfigurationIsPreserved` | cantrip_os/host/package-job.py:553-566 | under the preserving policy no configuration file changes at any point |
| `WindowTraversal.ChildLimitFor` | cantrip_cua/src/window_traversal.rs:31-40 | at least one child is probed; below the depth limit the number asked for fits the child limit and the remaining budget |
| `WindowTraversal.Traversal.Next` | cantrip_cua/src/window_traversal.rs:26-30 | takes the oldest pending node and marks it seen |
| `WindowTraversal.Traversal.Extend` | cantrip_cua/src/window_traversal.rs:41-62 | queues the unknown children in order while there is room, and raises the flag exactly when more exist or one was refused |
| `WindowSearch.ExtendSearches` | cantrip_cua/src/window_traversal.rs:41-62 | offering any list of a node's children keeps the breadth-first tree and the account of what was left out |
| `WindowSearch.ShorterIsFound` | cantrip_cua/src/window_traversal.rs:13-62 | without a cut list, a walk shorter than some found node's depth ends in a node found at least as early |
| `WindowSearch.DepthIsShortest` | cantrip_cua/src/window_traversal.rs:13-62 | recorded depths are shortest distances, even in a truncated search |
| `WindowSearch.CompleteIsAll` | cantrip_cua/src/window_traversal.rs:13-62 | if every child list was taken in, every reachable node was visited |
| `WindowSearch.Traverse` | cantrip_cua/src/macos/accessibility.rs:388-440 | on any graph, stopped before any node or not: ends, no node twice, within the budget, visited nodes reachable at their depth, shortest depths when no list was cut; the flag is raised if and only if the walk was stopped, a reachable node was left out, or a list was cut, and which lists are cut is a function of the graph and the bounds |
| `WindowSearch.RoomyIsNeverCut` | cantrip_cua/src/window_traversal.rs:31-40 | if every reachable node has at most one child, or lies above the depth limit with lists that fit the limits, no list is cut |
| `WindowSearch.TraverseRoomy` | cantrip_cua/src/window_traversal.rs:13-62 | in such a graph the flag is raised if and only if a reachable node was left out, and depths are shortest |
| `WindowSearch.CutMayMislead` | cantrip_cua/src/window_traversal.rs:41-48 | a node listing itself 33 times is fully visited yet reported truncated, so the flag is exact only without cut lists |
| `Inventory.SortSorts` | cantrip_cua/src/inventory.rs:59-59 | the sorted inventory is ascending and a permutation |
| `Inventory.FaultlessIsStrict` | cantrip_cua/src/inventory.rs:60-65 | the walk finds no fault exactly when targets are valid and identifiers strictly ascend |
| `Inventory.FaultIsFirst` | cantrip_cua/src/inventory.rs:60-65 | the fault reported is that of the first target at fault: invalid, or a duplicate of the one before it |
| `Inventory.MeasurePrefix` | cantrip_cua/src/inventory.rs:28-53 | the longest prefix within 256 targets and 31 KiB, or an error exactly when the first target alone does not fit |
| `Inventory.MakePage` | cantrip_cua/src/inventory.rs:55-76 | the program's page is the specified one, errors included |
| `Inventory.PageMeans` | cantrip_cua/src/inventory.rs:55-76 | a page holds exactly the targets behind its cursor up to the next cursor, in strict order, within both budgets |
| `Inventory.PageAt` | cantrip_cua/src/inventory.rs:66-76 | a cursor resumes right behind its target and the page is the longest that fits there |
| `Inventory.FollowCursors` | cantrip_cua/src/inventory.rs:55-76 | following cursors returns every target once in order, or stops at the first target too large for any page, and a malformed inventory is refused at once |
| `Framing.LengthRoundTrip` | cantrip_cua/src/protocol.rs:153-154 | four big-endian bytes give back every 32-bit length |
| `Framing.WrittenMeans` | cantrip_cua/src/protocol.rs:92-217 | a frame is written if and only if its version is 1, its identifiers are in range, only a successful response carries a payload and both lengths are within 16 MiB; then come the two lengths, the header and the payload |
| `Framing.Pipe.WriteFrame` | cantrip_cua/src/protocol.rs:200-217 | nothing of a refused frame, all of an accepted one, or, when the pipe fails, a strict prefix of it |
| `Framing.Pipe.WriteAll` | cantrip_cua/src/protocol.rs:213-216 | writes everything over partial writes and interruptions, or stops with a strict prefix sent |
| `Framing.CollectHeader` | cantrip_cua/src/protocol.rs:206-212 | however the serialiser splits the header, it is collected whole or refused when over the limit |
| `Framing.HeaderBuffer.Put` | cantrip_cua/src/protocol.rs:180-192 | takes a piece exactly when the total stays within the limit |
| `Framing.ParseWritten` | cantrip_cua/src/protocol.rs:142-178 | a written frame is read back, whatever follows it |
| `Framing.BrokenFrameFails` | cantrip_cua/src/protocol.rs:142-178 | every strict non-empty prefix of a frame is an unexpected end, never another frame |
| `Framing.ParsedIsValid` | cantrip_cua/src/protocol.rs:92-139 | a frame is read if and only if the stream begins with its two lengths within their limits, a header that decodes to one valid for that payload, and the whole payload; a clean end is reported only for an empty stream |
| `Framing.StreamRoundTrip` | cantrip_cua/src/protocol.rs:142-217 | frames written one after another are read back, then a clean end |
| `Framing.BrokenStream` | cantrip_cua/src/protocol.rs:142-217 | frames followed by a broken one are read back, then an error |
| `Framing.Stream.ReadExact` | cantrip_cua/src/protocol.rs:152-152 | fills its buffer over any fragmentation and interruption, or reports the end or a failure |
| `Framing.Stream.ReadFrame` | cantrip_cua/src/protocol.rs:142-178 | the outcome and the bytes consumed depend on the bytes alone; only a failing stream adds a transport error |
| `Framing.Stream.ReadBody` | cantrip_cua/src/protocol.rs:153-178 | the header is judged before any payload byte is consumed |
| `Framing.Carry` | cantrip_cua/src/protocol.rs:142-217 | end to end over any fragmentation: exactly the written frames and a clean end, or an error if the last breaks off |
| `Participants.Attempt` | cantrip_cua/src/interaction.rs:290-344 | a dispatch reaches the native side if and only if it is not cancelled, the target resolves to the same sound one that takes input, and its point is inside on current revisions; it succeeds if and only if it is also delivered and not cancelled meanwhile; then the cursor is at the point, marked by a press, and the shown cursor has not moved |
| `Participants.PostGood` | cantrip_cua/src/interaction.rs:288-326 | posting under a consumed sequence keeps the history fenced |
| `Participants.CloseGood` | cantrip_cua/src/interaction.rs:109-114 | closing keeps the history fenced and the table in agreement with it |
| `Participants.ClosedIsFinal` | cantrip_cua/src/interaction.rs:345-353 | a handle that is gone has exactly one close, and nothing after it |
| `Participants.Table.Open` | cantrip_cua/src/interaction.rs:148-205 | a fresh handle for the resolved target, or no change |
| `Participants.Table.Input` | cantrip_cua/src/interaction.rs:269-354 | a request that is not ready changes nothing; otherwise it succeeds if and only if it reaches the native side, is delivered and is not cancelled meanwhile, and the participant's new fields are told one by one; any other outcome removes the participant and closes it exactly once; a post is recorded exactly if the input reached the native side; nothing else changes |
| `Participants.Table.Present` | cantrip_cua/src/interaction.rs:248-268 | moves the shown cursor under its own rising sequence, without any native call |
| `Participants.Table.Close` | cantrip_cua/src/interaction.rs:224-229 | removes the caller's own participant and closes its input, even if that close fails |
| `Participants.Table.CloseBinding` | cantrip_cua/src/interaction.rs:206-223 | removes every participant of the binding, past failing closes, and reports success exactly if all closed |
| `Participants.Table.Execute` | cantrip_cua/src/interaction.rs:141-355 | any request extends the history only for participants it names and changes no other |
| `Participants.Serve` | cantrip_cua/src/interaction.rs:93-355 | in every run posts of a handle strictly increase, and each handle is live or was closed once for good |
| `RemoteCapture.OneJobPerLease` | cantrip_cua/src/remote_capture.rs:62-91 | a live lease has at most one frame job |
| `RemoteCapture.FinishGood` | cantrip_cua/src/remote_capture.rs:92-104 | a finished job belongs to the binding of its lease, and removing it keeps every other lease and job consistent |
| `RemoteCapture.ClosingGood` | cantrip_cua/src/remote_capture.rs:199-209 | closing a binding cancels exactly its flights and keeps the invariant |
| `RemoteCapture.Captures.Open` | cantrip_cua/src/remote_capture.rs:135-183 | a handle never used before, for a binding that holds no lease |
| `RemoteCapture.Captures.PrepareFrame` | cantrip_cua/src/remote_capture.rs:62-91 | starts a job only on an idle lease of the caller |
| `RemoteCapture.Captures.FinishFrame` | cantrip_cua/src/remote_capture.rs:92-104 | publishes only under the lease that started the job, while live and not cancelled; a late result changes nothing |
| `RemoteCapture.Captures.Frame` | cantrip_cua/src/remote_capture.rs:184-191 | an immediate frame refreshes only its own lease and never changes its identity |
| `RemoteCapture.Captures.Close` | cantrip_cua/src/remote_capture.rs:192-198 | removes the lease and cancels its flight |
| `RemoteCapture.Captures.CloseBinding` | cantrip_cua/src/remote_capture.rs:199-209 | removes the binding's leases and cancels their flights |
| `CaptureHistory.Serve` | cantrip_cua/src/remote_capture.rs:62-210 | in every run the history is exactly what the turns did: every handle issued was opened and is live or was closed, never both, each completion is recorded with whether it published; handles are issued once in rising order, a closed handle starts and publishes nothing, a job finishes once under the handle that started it, and a handle starts a job only when its earlier ones have finished |
| `CaptureHistory.Session.Do` | cantrip_cua/src/remote_capture.rs:62-210 | any open, start, completion, immediate frame, close or cancellation adds exactly the event that happened, changes the leases, jobs and cancellations accordingly, and keeps the history lawful and in agreement with the table |
| `CaptureHistory.LawfulNext` | cantrip_cua/src/remote_capture.rs:92-104 | an event that follows the rules continues a lawful history |

## Left out

- QuickJS evaluation, the JavaScript bootstrap and promise semantics: a foreign engine. When an evaluation ends, and whether a host's reply reaches its pending call, are choices of the environment; the bound of 64 queued script commands is a choice of accepting or refusing each.
- The request executor and the package operation are step machines on values, because several threads or processes share the state; the model does not capture update in place inside one step. Leaving the service loop and cancelling everything pending are one step.
- PNG encoding, SHA-256, rasterisation, glyphs, colour and telemetry smoothing: library code or floating point with little state.
- Travel.SpanTimes: does not model the Bezier interior positions; an arbitrary curve function stands in for them. Sample times and end points are exact, with integer floors where the program rounds floating-point times.
- Motion.PositionsOnSegment: positions are real numbers, without floating-point rounding.
- Native backends, clocks and threads: oracles quantified over in every theorem.
- Error mapping of `dispatch` and `run` in the timeline module: the mapped code depends only on `inputBegan`, whose meaning is proved.
- Power loss before a directory has been synchronised: each durable file operation is one atomic step, and a crash falls between steps.
- Real dpkg, tar and `/proc` behaviour, parent-directory and symlink checks: exit codes, item lists and process-alive observations stand in for them; names of saved copies are assumed not to collide.
- WindowSearch.Traverse: does not name the accessibility walk's reasons to stop (32 controls, three seconds, cancellation); an arbitrary predicate stands for them. A pruned element is a node without children, the children of a node do not change during one walk, and native identity is equality.
- Reads from one target inventory while it changes between pages: `Inventory.PageMeans` covers each page on its own; only a fixed inventory is followed to its end.
- Framing.ParseWritten: the JSON text of a header is an abstract codec whose round trip is assumed for valid headers.
- Clipboard contents, cursor trails, sprites and hue of remote participants, and the backend's own list of retained captures.
- Cursor revision exhaustion is an answer of the oracle, not a counter.
- `cantrip_cli`, `cantrip_server`, `cantrip_app`, build and test configuration: argument parsing, start-up and I/O.
