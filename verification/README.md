# Zyvor OTA: a verified model

Zyvor OTA is an update agent for devices with two system slots. It accepts signed assignments, downloads and checks the
artifacts, installs to the slot that is not running, reboots, verifies health, and commits or rolls back, journalling
each step. This project models the parts of it that must stay correct through crashes, spontaneous reboots, bootloader
fallback, failed commits, hostile sources and lost messages, and proves what they keep, for every input, every run and
every interleaving.

Verify everything with `dafny verify dfyconfig.toml` (Dafny 4.11).

## How it is organised

| files | content |
|---|---|
| `Model.dfy`, `Journal.dfy` | releases, jobs, events, the journal and its integrity check, the two-slot device |
| `Engine.dfy` | the update engine as a transition system: one step per journal write and per backend call, and steps for crashes, boots into any slot, clock changes, acknowledgments and installs that outlive the agent |
| `EngineInvariant.dfy`, `EngineProof.dfy`, `EngineWrites.dfy` | the invariant and the proof that every step keeps it |
| `EngineTheorems.dfy`, `EngineRuns.dfy` | what follows for every step and every run |
| `Answers.dfy` | what one call of the engine durably answers, state by state, and what every install was preceded by |
| `NormalBoot.dfy`, `BootEvidence.dfy` | boots with no job active: fallback, confirmation and its evidence |
| `JobIdentity.dfy`, `Reuse.dfy` | when a job ID may be used again, and runs in which it is |
| `Liveness.dfy`, `HappyPath.dfy` | a health check ends in time; every suitable update has a run that completes it |
| `JournalStore.dfy`, `Simulator.dfy`, `Agent.dfy` | the store, the simulated device and the agent on top of them, as objects; every call of the agent is a piece of a run of the transition system |
| `Fleet.dfy`, `Outbox.dfy`, `OutboxDrain.dfy` | the fleet server's event endpoint, the outbox protocol between journal and server, and when the outbox empties |
| `EngineOutbox.dfy`, `EngineReports.dfy` | engine, network and server together, and what the fleet learns about jobs |
| `Topo.dfy`, `Payload.dfy` | dependency order of targets, and side payloads: apply, roll back, commit |
| `Download.dfy` | the resumable download, byte by byte |
| `Trust.dfy`, `TrustRuns.dfy` | signature thresholds, root chain, snapshot versions and the release log over a device's whole life |
| `Relay.dfy` | the relay cache under all interleavings of its clients |
| `EngineTrust.dfy` | the engine, the trust record and the release log together |
| `GoodSlot.dfy` | when some slot is always good |

Conventions. SHA-256 digests, assignment fingerprints and log-line hashes are injective constructors: a digest is
represented by what it digests. Decoders and signature checks are arbitrary functions. Times are integers in seconds.
Boot IDs are numbers, a fresh one being larger. A commit succeeds (`Durable`), fails without effect (`FailedLost`), or
takes effect and still reports failure (`FailedKept`). Health probes, status failures, envelope checks and the result of
a download are inputs of the engine's steps. A power cut is a `DeviceBoots` step: it kills the agent and may start either
slot. Where a method changes state in place, its contract ties the new state to a function of the old one, and the lemmas
are about that function.

Results that differ from what the documentation or a first reading suggests:

- `docs/ARCHITECTURE.md:39-41` promises that an identical assignment returns the existing job and that a different one
  with the same ID is rejected. Both hold while the job is in the hot journal (`EngineRuns.SubmitFindsExisting`). Once
  compaction has archived it, an identical assignment is refused rather than answered (`EngineRuns.ReplayMakesNoJob`)
  and a different assignment with that ID and a newer sequence makes a second job: `JobIdentity.SubmitExactly` states
  exactly when, and `Reuse.ArchivedIDIsReused` gives the runs, with `Reuse.SomeSeries` for the series of assignments
  they need. When that job is archived too, its record replaces the first one's (`Reuse.FirstRecordIsLost`).
- A failed payload apply restores the tree unless a touched payload had a leftover `previous` file and no `current` one;
  then that old file comes back (`Payload.RollbackRestores`, `Payload.LeftoverComesBack`).
- The server's `acked` counter falls exactly when a batch ends below it (`Outbox.AckFalls`), which a late replay does
  (`Outbox.AckedCanFall`); the prefix property holds nevertheless (`Outbox.AckedIsPrefix`).
- An acknowledgment by hand of an event the server never got keeps every later event in the outbox: undisturbed
  synchronisations empty it if and only if no such number is missing (`OutboxDrain.EmptiesExactly`,
  `OutboxDrain.ReleaseJams`).
- A log line torn by a crash stops every later release under trust metadata, for good once it is on the disk
  (`TrustRuns.AcceptsUnlessTorn`, `TrustRuns.TornForGood`).
- A release can be accepted without a durable log line: a retry that finds the line of an earlier attempt does not sync
  it (`TrustRuns.DurablyLoggedExactly`, `TrustRuns.AcceptedThenLost`).
- Some slot is always good exactly as long as no job is installed from a slot that is marked bad
  (`GoodSlot.SomeSlotStaysGood`, `GoodSlot.IncautiousLosesAll`); a normal-boot fallback that dies after its first mark
  leaves such a slot (`GoodSlot.InterruptedFallback`).
- A job past its deadline in AwaitingReboot waits without bound (`Liveness.WaitsForEver`).
- The relay stores a digest twice exactly if a look under its lock fails on a file that is there
  (`Relay.RefetchesExactly`, `Relay.StoredTwice`).
- A document is refused if the first signature of a listed key is wrong, even when a later one of that key is right
  (`Trust.OrderMatters`).

## Model

| member | source | states |
|---|---|---|
| EngineWrites.Keep | internal/ota/engine.go:187-482 | Every step of the agent, the device, the clock, the operator and a crash keeps the invariant that ties the durable journal, the copy in memory, the pending program, the health streak and the device together. |
| EngineTheorems.Reachable | internal/ota/engine.go:187-482 | The invariant holds in every world of every run. |
| EngineRuns.EveryRunIsSafe | internal/ota/engine.go:187-469 | In every run every step leaves the old slot of a job in flight alone, journals a verdict only when it describes the device, installs only a durably Installing job that was never installed, marks a target good only on health evidence from this boot inside its window, and respects the recovery lock. |
| EngineRuns.EveryLaterRunIsSafe | internal/ota/store.go:89-131 | The same for runs that start from a journal that is not empty, such as an imported one, filed by ID and in agreement with the device about its active job; Install at most once per release, and the integrity check throughout. |
| EngineRuns.EveryRunMovesForward | internal/ota/engine.go:60-81 | In every run Install is called at most once per release, sequences of accepted assignments strictly increase, and the durable snapshot passes its integrity check. |
| EngineRuns.OldSlotThroughout | internal/ota/engine.go:278-402 | However long a job stays in flight, its old slot keeps version and good flag and the journal keeps naming the same slots. |
| EngineRuns.WindowThroughout | internal/ota/engine.go:328-358 | A job's health window, once open, keeps its start through crashes, restarts and further boots. |
| EngineTheorems.StepSparesOld | internal/ota/engine.go:278-402 | No single step of the engine or its environment changes the old slot of a job in flight. |
| EngineTheorems.VerdictsMatchDevice | internal/ota/engine.go:314-469 | RolledBack is journalled only while the old slot runs the old version, Committed only with the target booted at the release version and good, Failed after an install only with the old slot booted and primary and the target bad. |
| EngineTheorems.GoodNeedsEvidence | internal/ota/engine.go:345-381 | Before a job's target is marked good there is an unbroken streak of passed probes in this boot, as long as the configured stability, ending inside the window. |
| EngineTheorems.WindowOpensOnce | internal/ota/engine.go:328-344 | No later record of the job moves the start of its window. |
| EngineTheorems.OnlyWritesRecord | internal/ota/engine.go:101-142 | Only the journal write of an engine call changes job records, and it changes the one it was asked to. |
| EngineRuns.RecoveryLocks | internal/ota/engine.go:403-469 | From NeedsRecovery on nothing is installed or rebooted and no job accepted; slots are marked only on the original slot, and only a completed abort ends the job. |
| EngineRuns.ReplayMakesNoJob | internal/ota/engine.go:56-81 | In every run, once an assignment was accepted, however long ago and whatever became of its job, no write of its acceptance changes anything durable; no assignment is ever accepted twice. |
| EngineRuns.SlotsStayRecorded | internal/ota/engine.go:278-402 | A step never rewrites the slots or the identity of a job in flight. |
| Answers.EveryInstallWasChecked | internal/ota/engine.go:195-299 | In every run each Install belongs to a call of Step, still in progress, that found the job Verified inside its window, the envelope, the SBOM, the side payloads and the artifact good, the backend idle and compatible, and, after the checks, time left until the deadline and the expiry of the release. |
| Answers.NothingAppliedYet | internal/ota/engine.go:254-259 | In every run no record of a job before its installation claims that its side payloads were applied, so the call that installs it has applied them. |
| Answers.AcceptedCall | internal/ota/engine.go:195-213 | One fault-free call on an Accepted job durably records Failed if and only if it is out of time or its envelope no longer verifies, Downloading if and only if it is in its window, trusted and armed, and otherwise leaves the record as it is. |
| Answers.DownloadingCall | internal/ota/engine.go:195-241 | On a Downloading job it records Failed and Verified each under exactly its condition, and otherwise stays, with the deferral remembered exactly as it happened. |
| Answers.VerifiedCall | internal/ota/engine.go:195-309 | On a Verified job it records Failed, Committed (a release without an OS image, with its side payloads applied) or the outcome of an install, each if and only if its condition on inputs and device holds; the release is installed exactly in the last case, once. |
| Answers.CallInstalls | internal/ota/engine.go:288-309 | A call that installs first records the slots and the boot, and ends in AwaitingReboot if and only if the install succeeded and the idle device, still on its old slot, has the other slot primary at the release version; in NeedsRecovery otherwise. |
| Answers.InterruptedCall | internal/ota/engine.go:310-313 | A job found Installing needs recovery, whatever the inputs. |
| Answers.AwaitingCall | internal/ota/engine.go:314-337 | A job that waits for its reboot is durably RolledBack if and only if a new boot is on its old slot, CheckingHealth with its window opened now if and only if it is on the target at the release version, NeedsRecovery if and only if it is anywhere else or the slot changed without a boot; the device is rebooted exactly when an automatic reboot is due. |
| Answers.HealthCall | internal/ota/engine.go:338-381 | Under health verification each of RolledBack, NeedsRecovery, Committed, RollbackPending and Committing is durably recorded by one fault-free call if and only if its condition on device, window and probes holds; only Committed marks the target. |
| Answers.RollbackCall | internal/ota/engine.go:382-402 | A job to be rolled back is RolledBack if and only if the old slot runs; on the target the idle device is rebooted to the old slot with the target marked bad; anywhere else it needs recovery. |
| Answers.RequestCall | internal/ota/engine.go:409-442 | A fault-free request reboots the device if and only if the job waits for it inside its window, in the boot and on the slot it was installed from, and the backend is idle; otherwise nothing changes. |
| Answers.RefusedRebootIsTakenBack | internal/ota/engine.go:409-420 | A reboot that the backend refuses is durably taken back. |
| Answers.AbortCall | internal/ota/engine.go:446-469 | A fault-free abort ends the job as Failed, with the target bad and the original slot primary, if and only if it needs recovery and the idle device runs the original slot; otherwise nothing changes. |
| EngineRuns.WritesAreValid | internal/ota/store.go:133-164 | The integrity check never refuses a snapshot that an engine call wants to write. |
| EngineRuns.AcksAreValid | internal/ota/engine.go:470-482 | The integrity check never refuses an acknowledgment. |
| EngineRuns.SpillCounts | internal/ota/store.go:213-237 | Taking away exactly the excess leaves a valid journal of at most the limit. |
| EngineRuns.NoJobEverForgotten | internal/ota/store.go:213-272 | In every run a job ID once recorded stays in the hot journal or the archive. |
| EngineRuns.ArchivedRecordStays | internal/ota/store.go:254-261 | In every run an archived record stays as it is for as long as its ID is not in the hot journal again. |
| EngineRuns.ArchivedStays | internal/ota/store.go:254-261 | A step replaces an archived record only by moving a hot job of the same ID to the archive. |
| EngineRuns.CompactThroughout | internal/ota/store.go:213-237 | In every run the hot journal, in memory and on disk, is within its limit. |
| JobIdentity.SubmitExactly | internal/ota/engine.go:32-82 | A submission makes a job, with a first record that claims nothing and its sequence as the new floor, if and only if it is admissible by conditions on the hot journal and the clock; otherwise nothing durable changes. An archived record of the same ID is no obstacle and is not touched by the acceptance. |
| Reuse.SeriesRuns | internal/ota/store.go:213-237 | Every series of admissible assignments with increasing sequences and deadlines, in which an ID returns only after `hotLimit` others, has a run on one clock: afterwards the hot journal is exactly the window of the latest jobs, and every older job is in the archive, unless its ID was moved there again. |
| Reuse.ArchivedIDIsReused | docs/ARCHITECTURE.md:39-41 | For every such series that ends with the first job's ID, a run of the engine accepts that last, different assignment as a second job while the archive still holds the first one's record. |
| Reuse.FirstRecordIsLost | internal/ota/store.go:254-261 | And a longer run in which the second job is moved as well: its record has replaced the first one's, which is then nowhere. |
| Reuse.SomeSeries | internal/ota/store.go:20-25 | Such series exist for every limit below two to the power of 95 (the source uses 10000), from every time on and in any length. |
| NormalBoot.CalmStep | internal/ota/boot.go:13-81 | With no job, a non-decreasing clock and boots that follow the primary slot, each step keeps the device on its slot, in the course of leaving it, or on the other slot with no way back. |
| NormalBoot.SwitchesAtMostOnce | internal/ota/boot.go:51-66 | Over such a stretch fallback switches slots at most once, with crashes between its two marks and the reboot. |
| NormalBoot.LeftForGood | internal/ota/boot.go:51-66 | Once left, the first slot is not booted again. |
| NormalBoot.OnlyVouchedVersions | internal/ota/boot.go:29-81 | In every stretch without jobs of every run (one that begins on the primary slot, has a non-decreasing clock and boots that follow the primary slot), each slot that is marked or made primary, and each slot the engine reboots into, holds the version that the latest finished job recorded for it, through crashes and failed writes between decision and mark; only the booted slot is marked good. |
| BootEvidence.ConfirmedOnEvidence | internal/ota/boot.go:67-81 | In every run, whenever a slot is marked good with no job active it is the booted one and the probes hold an unbroken streak in this boot, as long as the configured stability, that ends inside the window of its boot check; the confirmation is written only with that evidence and with the booted slot marked good, and every durably confirmed boot had it. |
| BootEvidence.BackedStep | internal/ota/boot.go:13-81 | Every step of the engine and its environment keeps the pending mark, the pending confirmation and both recorded boot checks backed by such a streak. |
| BootEvidence.BootCallExactly | internal/ota/boot.go:13-81 | One fault-free call with no job active starts the check of a new boot, marks a stable boot good and confirms it, or leaves a boot whose window is over for a recorded good slot, each under exactly its condition; in every other case, an unhealthy boot among them, journal and device stay as they are. |
| BootEvidence.HealthyBootIsConfirmed | internal/ota/boot.go:67-81 | A boot that is healthy at every call is durably confirmed once the calls inside the window of its check span the configured stability. |
| Liveness.EveryCallProgresses | internal/ota/engine.go:338-402 | On a job under health verification every fault-free call ends it with Committed or RolledBack or lowers the measure of calls left. |
| Liveness.HealthCheckEnds | internal/ota/engine.go:338-402 | A job in CheckingHealth is Committed or RolledBack within the health timeout plus five calls when each call is at least a second after the one before. |
| Liveness.AsksExactly | internal/ota/engine.go:314-326 | A job that waits for its reboot gets it asked for exactly inside its window: by Step once if it is automatic, on request while the backend is idle. |
| Liveness.WaitsForEver | internal/ota/engine.go:314-326 | Past its deadline it waits for ever: however many calls, requests, submissions, failed writes and restarts follow, nothing moves it but a boot. |
| GoodSlot.SomeSlotStaysGood | internal/ota/boot.go:51-66 | In every run that starts with a good slot, with crashes and boots into either slot, some slot is good throughout if every job is carried to Installing from a booted slot that is marked good. |
| GoodSlot.BootableStep | internal/ota/engine.go:278-469 | Every such step keeps the old slot of a job in flight good, in memory and on disk, and a good slot for a fallback to go to. |
| GoodSlot.IncautiousLosesAll | internal/ota/engine.go:284-297 | And only then: a job carried to Installing from a slot that is not good can, in two steps, leave no slot good. |
| GoodSlot.AllSlotsLost | internal/ota/engine.go:187-297 | A run of a device whose booted slot was never confirmed that ends with no good slot, for every suitable assignment. |
| GoodSlot.InterruptedFallback | internal/ota/boot.go:59-65 | A fallback whose agent dies after the first mark leaves the booted slot bad and the agent ready for a job. |
| HappyPath.UpdateCanSucceed | internal/ota/engine.go:32-408 | From every freshly provisioned device every suitable assignment of an OS release has a run, on one clock that never goes back, that ends with the job durably Committed and the other slot booted with the release version and marked good, so the safety results are not those of an idle engine. |
| HappyPath.PayloadUpdateCanSucceed | internal/ota/engine.go:254-262 | From every freshly provisioned device, whatever its slots, every admissible assignment of a release without an OS image has a run that ends with the job durably Committed and the device untouched. |
| Journal.DropAckedExact | internal/ota/engine.go:470-482 | An acknowledgment removes exactly the events numbered up to it and keeps the order. |
| Model.MarkedSlots | internal/ota/backend.go:139-166 | A mark changes only the named slot's flag or the primary slot. |
| Model.Other | internal/ota/backend.go:28-45 | The other slot is an existing slot different from the booted one. |
| Model.OtherExactly | internal/ota/backend.go:28-45 | It is found if and only if there are two slots, one of them booted and the other with a name of its own. |
| JournalStore.Oldest | internal/ota/store.go:215-228 | The pass picks only a job that may be moved, and, unless a finished job is filed under the empty ID that the loop uses for none, an oldest one, or none only if there is none. |
| JournalStore.CompactHot | internal/ota/store.go:213-237 | Compaction moves distinct finished inactive jobs, exactly the excess when it succeeds; unless a finished job is filed under the empty ID, it takes the oldest first and fails exactly when too few may be moved or the outbox is over its limit. |
| JournalStore.CapacityUnreachable | internal/ota/store.go:229-231 | With a limit of at least one and no unfinished job but the active one, the capacity error cannot happen. |
| JournalStore.ValidateDatabase | internal/ota/store.go:133-164 | The two passes accept exactly the snapshots that satisfy the integrity predicate. |
| JournalStore.StoreStep | internal/ota/store.go:89-272 | Each step of the store is one of an atomic register: an update writes its snapshot or nothing, opening and dying write nothing, and memory equals the register while not poisoned. |
| JournalStore.ReopenSeesOneOrTheOther | internal/ota/store.go:188-272 | A start after an update cut off anywhere sees the journal before or after that update, and after it if the update was reported. |
| JournalStore.OpensExactly | internal/ota/store.go:89-131 | A start succeeds, with the register's value, if and only if no legacy file is damaged and nothing has to be imported or the import commits and its file is set aside; after an import that took effect, reported or not, every later start succeeds. |
| JournalStore.UpdatesExactly | internal/ota/store.go:188-272 | An update is what the next start sees, with its archive rows, if and only if it is acceptable and not lost; it is reported exactly if durable, and otherwise poisons the copy. |
| JournalStore.LegacyNeverReturns | internal/ota/store.go:89-131 | In every run a legacy file is imported at most once and, once there is a snapshot, never changes the journal again. |
| JournalStore.Storage.Persist | internal/ota/store.go:239-272 | One transaction puts the snapshot and every moved job, under its own ID, in place, or nothing. |
| JournalStore.Store.Load | internal/ota/store.go:89-131 | Opening yields the register's value or fails, and never changes the register. |
| JournalStore.Store.Update | internal/ota/store.go:188-211 | For any change, Update is the register's step with what compaction takes, moves exactly the excess or refuses, and poisons the store on a failed commit; for a journal filed by ID the jobs are the oldest and go to the archive under their IDs. |
| Simulator.Simulator.constructor | internal/ota/backend.go:79-89 | A new simulated device has two good slots and runs its primary one. |
| Simulator.Simulator.Install | internal/ota/backend.go:110-138 | An install touches only the slot that is not booted and the primary slot, leaves the new version not yet good, and changes nothing when it fails. |
| Simulator.Simulator.Mark | internal/ota/backend.go:139-166 | A mark has exactly the specified effect and fails, without effect, exactly on an unknown slot. |
| Simulator.Simulator.Reboot | internal/ota/backend.go:167-181 | A reboot follows the primary slot with a fresh boot ID, or falls back and makes the booted slot primary. |
| Agent.LatestJob | internal/ota/boot.go:29-38 | The pass finds the finished job with the largest sequence, whatever the order of the map. |
| Agent.EventsAfter | internal/ota/engine.go:475-480 | The loop keeps exactly the events after the acknowledgment. |
| Agent.CommitMatches | internal/ota/store.go:188-211 | What the store does with an engine's change is what the transition system's write step does. |
| Agent.ChangeFits | internal/ota/store.go:213-237 | Every change the engine makes leaves enough movable jobs for compaction. |
| Agent.Agent.Step | internal/ota/engine.go:187-408 | One call extends the recorded run by its decision and the steps of its program, to the end; when nothing fails it is a fault-free call, whose durable answers `Answers` and `BootEvidence` state. |
| Agent.Agent.Submit | internal/ota/engine.go:32-82 | One call replies as decided from the journal and extends the recorded run by its acceptance, if any. |
| Agent.Agent.RequestReboot | internal/ota/engine.go:409-444 | One call extends the recorded run by the reboot request and its failure handling. |
| Agent.Agent.RecoverAbort | internal/ota/engine.go:446-469 | One call extends the recorded run by the two marks and the Failed record. |
| Agent.Agent.Acknowledge | internal/ota/engine.go:470-482 | An acknowledgment is one step of the recorded run, also in the middle of a call. |
| Agent.Agent.Restart | internal/ota/store.go:89-131 | A restarted agent continues the run from what is durable; it fails to start exactly when a damaged legacy file is in the way, and then changes nothing on the disk. |
| Agent.Agent.HistoryIsSafe | internal/ota/engine.go:187-469 | Everything the agent object ever did was safe in the sense of EveryRunIsSafe. |
| Fleet.InsertedFacts | internal/fleetref/server.go:135-155 | Insertion changes nothing stored, adds only events of the batch under their own numbers, also up to a conflict, and stores an accepted batch whole. |
| Fleet.AcceptedExactly | internal/fleetref/server.go:142-151 | A batch is accepted exactly when no event of it contradicts the store or another event of the batch on job or state, whatever its order. |
| Fleet.PostedFacts | internal/fleetref/server.go:129-170 | For every log and batch nothing stored is removed or changed; a batch of the wrong size has no effect; a conflict is replied exactly if the batch contradicts the store or itself, and leaves the acknowledgment alone; an accepted batch is stored whole. |
| Fleet.Advance | internal/fleetref/server.go:156-164 | The loop ends at the last number of the unbroken run above the old acknowledgment. |
| Fleet.Server.PostEvents | internal/fleetref/server.go:114-170 | The endpoint's new store, acknowledgment and reply are those of the specification, also for a batch that conflicts part way. |
| Outbox.Keep | internal/ota/fleet.go:103-128 | Appends, sends, late or repeated deliveries, replies, operator acknowledgments, failed commits and crashes keep the protocol's invariant. |
| Outbox.NoEventLost | internal/ota/engine.go:93-100 | In every run each event ever journalled is in the outbox, or stored at the server unchanged, or was released by an operator. |
| Outbox.NeverConflicts | internal/fleetref/server.go:142-151 | A request ever sent, however late it arrives, meets no conflict. |
| Outbox.AcksWholeBatch | internal/fleetref/server.go:156-169 | Without operator releases the server answers any request with its last event. |
| Outbox.RepliesAreWhole | internal/fleetref/server.go:156-169 | Over whole runs every reply ever given acknowledges exactly its batch. |
| Outbox.RoundTripClearsBatch | internal/ota/fleet.go:103-128 | A delivered round trip removes its batch from the outbox and nothing else, also with events added meanwhile. |
| Outbox.BatchNotNewer | internal/ota/fleet.go:104-125 | The client never waits for events its journal copy does not know. |
| Outbox.GenuineInserts | internal/fleetref/server.go:142-151 | Inserting a piece of the journal into a store of genuine events succeeds and stays genuine. |
| Fleet.AckFallsExactly | internal/fleetref/server.go:162-167 | For every stored state and accepted batch the remembered acknowledgment falls if and only if the batch ends below it. |
| Outbox.AckFalls | internal/fleetref/server.go:162-167 | In every run of the protocol it falls exactly at deliveries of a batch that ends below it. |
| Outbox.AckedIsPrefix | internal/fleetref/server.go:154-167 | In every run everything up to the acknowledgment is stored, and is the journal's own event. |
| Outbox.AckedCanFall | internal/fleetref/server.go:162-167 | A run of the protocol in which a late repeated request lowers the acknowledgment from two to one. |
| OutboxDrain.AnsweredExactly | internal/fleetref/server.go:154-169 | In every state of the protocol a request is answered with its last event if no earlier number is missing at the server, and with less than its first if one is. |
| OutboxDrain.RoundExactly | internal/ota/fleet.go:103-128 | An undisturbed synchronisation removes exactly the first hundred events, or all of fewer, or, behind a missing number, none. |
| OutboxDrain.Drains | internal/ota/fleet.go:103-128 | Any number of them removes exactly so many hundreds, or, behind a missing number, never anything. |
| OutboxDrain.EmptiesExactly | internal/ota/fleet.go:103-128 | The outbox can be emptied if and only if it is empty or no number before it is missing at the server, which then holds every event ever journalled. |
| OutboxDrain.GapsAreByHand | internal/ota/engine.go:470-482 | In every run without an acknowledgment by hand no number is missing. |
| OutboxDrain.ReleaseJams | internal/ota/engine.go:470-482 | A run in which one acknowledgment by hand keeps all later events in the outbox, however many synchronisations follow. |
| EngineOutbox.EngineStepsAreClientSteps | internal/ota/engine.go:93-142 | Every step of the engine, on disk, in memory and in the poisoned flag, is a step of the protocol's client or leaves its side alone. |
| EngineOutbox.JointKeep | internal/ota/fleet.go:103-128 | Engine, network and server together keep both invariants and stay matched, whatever moves. |
| EngineOutbox.NoEngineEventLost | internal/ota/fleet.go:103-128 | In every joint run each event the engine ever numbered is in its durable outbox, or stored at the server unchanged, or was released by an operator. |
| EngineOutbox.OutboxIsJournal | internal/ota/engine.go:93-100 | In every joint run what is in the engine's durable outbox is the numbered journal's own event. |
| EngineReports.ReportedStep | internal/ota/engine.go:93-142 | Every move of engine, network and server keeps it that the last event ever numbered for a hot job tells its durable state. |
| EngineReports.LastEventTellsState | internal/ota/engine.go:93-142 | That holds in every joint run, through crashes, reboots, failed commits and reused IDs. |
| EngineReports.FleetLearnsStates | internal/ota/fleet.go:103-128 | From any moment of any joint run without a missing number, undisturbed synchronisations bring the server to where the last event it stores for each hot job tells that job's durable state. |
| Topo.TopoTargets | internal/ota/verify.go:133-176 | For distinct IDs the check accepts if and only if every dependency names a target and no dependency cycle exists, whatever the order of the ready list and with repeated dependencies; it reports a missing dependency exactly when there is one. |
| Topo.OrderMeansAcyclic | internal/ota/verify.go:162-175 | A complete order with dependencies first rules out every cycle. |
| Topo.StuckMeansCycle | internal/ota/verify.go:170-175 | A nonempty set of targets that all wait for each other contains a cycle. |
| Topo.OrderedTargets | internal/ota/payload.go:13-50 | The order is a permutation with every target after its dependencies; it exists exactly for closed acyclic targets, and the loop's own cycle error is unreachable then. |
| Topo.SomethingIsReady | internal/ota/payload.go:30-40 | After the dependency check every round places a target. |
| Payload.RevertedAllAt | internal/ota/payload.go:117-136 | A rollback restores exactly the listed payloads from their backups, whatever the order. |
| Payload.CommittedAllAt | internal/ota/payload.go:137-145 | A commit removes exactly the listed backups and no current file. |
| Payload.TryOneHolds | internal/ota/payload.go:66-113 | Trying a target, to whichever sub-step it gets, keeps a backup of everything touched and leaves everything else; success means the signed bytes. |
| Payload.TryOneExactly | internal/ota/payload.go:66-113 | For every tree, target, fault and cache an attempt succeeds if and only if the signed bytes are cached and nothing fails, a failing rename counting only where there is a file to set aside; it touches the payload under its own exact condition, and leaves exactly the stated files in each case. |
| Payload.RollbackRestores | internal/ota/payload.go:55-136 | Rolling back what was touched restores every current file if and only if no touched payload had a leftover backup without a current file. |
| Payload.Payloads.Apply | internal/ota/payload.go:55-116 | It succeeds if and only if the targets are closed and acyclic and for every target the signed bytes are cached and no directory, space, rename, copy or health check fails, a failing rename counting only where a current file has to be set aside; success leaves every payload at its signed bytes with its predecessor backed up. Otherwise it stops at the first failing target and each payload it reached, a function of files, cache and faults, holds what could be backed up: every current file is as before if and only if none of those was a leftover backup without a current file. |
| Payload.TryingLocal | internal/ota/payload.go:66-113 | Whether a target succeeds, and whether it is touched, depends on the files as they were at the start and not on the targets applied before it. |
| Payload.NothingFails | internal/ota/payload.go:66-113 | With every payload cached and no fault no target fails. |
| Payload.BrokenKeepsBackups | internal/ota/payload.go:117-136 | A rollback stopped by a failing rename keeps the backup it could not move, and the files of every later target. |
| Payload.Payloads.Rollback | internal/ota/payload.go:117-136 | The loop restores every listed payload; with a rename that fails it has restored exactly those before it, has removed that target's current file, and reports failure exactly if it got there. |
| Payload.Payloads.Commit | internal/ota/payload.go:137-145 | The loop removes the backups and nothing else. |
| Payload.CommitLeavesNew | internal/ota/payload.go:55-145 | Apply then commit leaves exactly the signed bytes, no backups, and nothing else changed. |
| Payload.LeftoverComesBack | internal/ota/payload.go:117-136 | A concrete leftover backup that a rollback brings back. |
| Payload.DeathLeavesLeftover | internal/ota/payload.go:88-98 | A death between the rename and the copy leaves such a backup, holding the file that was current. |
| Payload.BrokenLeavesLeftover | internal/ota/payload.go:126-131 | So does a rollback stopped by a failing rename. |
| Payload.RetryRestoresOriginal | internal/ota/payload.go:55-136 | After such a death a retry that fails and rolls back restores the file that was current before the death. |
| Download.SuccessIsSigned | internal/ota/download.go:69-237 | Whatever any server, relay, local medium or file URL holds, success means a file of the signed size and digest; without local files nothing unsigned is put in place, and a cached artifact is never replaced. |
| Download.NotAsked | internal/ota/download.go:82-96 | A cached artifact is reported without a request, and one of impossible size or behind an address that is not allowed is refused; neither changes a file. |
| Download.RelayExactly | internal/ota/download.go:314-381 | From a cache without the artifact a relay attempt succeeds, with exactly the signed bytes in place, if and only if the file opens, the body arrives unbroken and is the signed content, and the rename succeeds; otherwise the finished file is unchanged, the partial one is removed where it can be, and the error says which. |
| Download.StagedExactly | internal/ota/download.go:271-287 | Staging succeeds if and only if the cache already holds the artifact or the copy completes and is the artifact; the error says which failed. |
| Download.LocalExactly | internal/ota/download.go:69-81 | A local medium or file URL is staged if and only if it is readable, inside its directory and the artifact; otherwise nothing changes. |
| Download.ReceivedExactly | internal/ota/download.go:152-219 | A reply that does not answer the request is refused for a stated reason and keeps the partial file, up to the emptying a whole file brings; a short or interrupted one is kept, one that is too long or wrong is dropped, and only one that completes the artifact without a fault succeeds. |
| Download.ServerExactly | internal/ota/download.go:102-219 | An attempt at the server puts a complete partial file in place without a request, empties one that is too long or wrong, and otherwise asks for exactly the rest. |
| Download.FetchedTrue | internal/ota/download.go:69-219 | Against true bytes cut off anywhere an attempt keeps the partial file a prefix, and neither the size nor the digest check fails. |
| Download.PrefixThroughout | internal/ota/download.go:96-219 | The same over any number of attempts. |
| Download.EachByteOnce | internal/ota/download.go:149-206 | When ranges are honoured, over any number of attempts each byte in place was written exactly once. |
| Download.FinishedWithoutWaste | internal/ota/download.go:96-219 | From an empty cache to the finished file each byte of the artifact, and no other, is transferred exactly once, and the file is the artifact. |
| Download.DeliveryCompletes | internal/ota/download.go:102-219 | From any cache two delivered replies suffice; one does if the partial file is a prefix or too long. |
| Download.ReceivedInFull | internal/ota/download.go:156-219 | A reply delivered in full completes a true partial file and empties a wrong one. |
| Download.Cache.Copy | internal/ota/download.go:196-200 | The copy appends exactly the bytes that arrive, up to one more than the signed size allows. |
| Download.Cache.Receive | internal/ota/download.go:152-219 | The transfer does to the two files what the specification of an attempt says. |
| Download.Cache.Fetch | internal/ota/download.go:69-237 | One call of fetch, file URLs included and with every file operation allowed to fail, does what the specification of an attempt says. |
| Download.Cache.StageLocal | internal/ota/download.go:271-287 | Staging from local media succeeds only with the signed bytes in place. |
| Download.Cache.FetchFromRelay | internal/ota/download.go:314-381 | The copy from a relay does to the two files what the specification of a relay attempt says, whose answers `RelayExactly` states. |
| Trust.VerifyThreshold | internal/ota/trustmeta.go:262-284 | The loop accepts exactly when each listed key's first signature is valid and at least the threshold of distinct listed keys signed. |
| Trust.ThresholdEndorses | internal/ota/trustmeta.go:262-284 | Acceptance means that the document carries valid signatures of threshold-many distinct listed keys. |
| Trust.LoadedExactly | internal/ota/trustmeta.go:184-226 | A root document is accepted if and only if it is unexpired and is the pinned one with its own signatures, the stored bytes, or strictly newer and signed under both root roles; the presented bytes are then the root in use. |
| Trust.AuthorizedExactly | internal/ota/trustmeta.go:228-260 | A key may sign a release if and only if the targets role lists it or the first delegation that names it covers every kind of the release. |
| Trust.EvaluatedExactly | internal/ota/trustmeta.go:81-171 | A release is let through if and only if the root is fine, timestamp, snapshot and targets documents are present, unexpired, signed under their roles and name each other by digest and version, the snapshot is no rollback, the targets list the release and reject none of its artifacts, and the key may sign it; the decision records exactly those documents. |
| Trust.OrderMatters | internal/ota/trustmeta.go:267-279 | The same two signatures are accepted in one order and refused in the other. |
| Trust.HeadDeterminesLog | internal/ota/trustmeta.go:361-376 | Two valid logs with the same last hash are the same log. |
| Trust.ScanFinds | internal/ota/trustmeta.go:361-376 | On a valid log the scan finds the digest or the head; the conflict and chain errors cannot happen. |
| Trust.ScanExactly | internal/ota/trustmeta.go:361-376 | On any file of whole lines, damaged or not, the scan stops at the first line that breaks the chain or carries the digest, and reports which. |
| Trust.AppendedExactly | internal/ota/trustmeta.go:349-390 | On any file an append succeeds if and only if the line that carries the digest is there for this release, or none is and the new line is written and synced; it adds at most that line, linked to the last one, and nothing where a line is torn, a link broken or the digest there for another release. |
| Trust.TransparencyLog.AppendLine | internal/ota/trustmeta.go:349-390 | The append scans and extends the log as specified, including torn and unsynced writes. |
| TrustRuns.LoadedRoot | internal/ota/trustmeta.go:184-226 | An accepted root document matches the pin and carries its own root signatures when none is stored; otherwise it is the stored bytes, or strictly newer and itself carries enough signatures under both root roles. |
| TrustRuns.EvaluatedFollows | internal/ota/trustmeta.go:81-171 | A decision follows the recorded root, never lowers a root or snapshot version and never gives one version another document. |
| TrustRuns.EvaluatedVouches | internal/ota/trustmeta.go:81-171 | Behind a decision stand unexpired timestamp, snapshot and targets documents, each with valid signatures of enough distinct keys of its role in the accepted root and each naming the next; targets that list the release and reject none of its artifacts; and a key that may sign every kind of it. |
| TrustRuns.Keep | internal/ota/trustmeta.go:173-182 | Every submission, failed commit, restart and power cut keeps the chain, the record and the log's soundness; synced lines stay for ever, and other lines until a power cut. |
| TrustRuns.TrustHolds | internal/ota/trustmeta.go:81-226 | Over all accepted submissions the presented root documents form a chain from the pinned one, each the same bytes or newer and carrying enough signatures under the old and the new root role; versions never fall and one version is one document; behind every accepted release stand the signed documents and the key that allow it; and the log is a hash chain without repeated digests. |
| TrustRuns.EveryRootWasSigned | internal/ota/trustmeta.go:196-226 | Every accepted root is byte for byte one that was presented with enough signatures under its own root role. |
| TrustRuns.LoggedWithoutPowerCut | internal/ota/trustmeta.go:173-182 | Without power cuts every accepted release has its line, through crashes and failed commits. |
| TrustRuns.AcceptedExactly | internal/ota/engine.go:64-81 | A submission is accepted if and only if supply chain, journal and log file let it pass, its commit is not lost, and the log names its release or takes its line and syncs it. |
| TrustRuns.DurablyLoggedExactly | internal/ota/trustmeta.go:370-372 | With power cuts accepted releases stay durably logged through a step if and only if it does not accept a release on the strength of a line that was never synced. |
| TrustRuns.PassesExactly | internal/ota/trustmeta.go:370-372 | Where the log already names the release, it is accepted exactly if the decision, the journal and the log file let it pass. |
| TrustRuns.EveryReleaseLogged | internal/ota/trustmeta.go:349-390 | Over a whole life, power cuts included, every accepted release keeps its line if none relied on an unsynced one. |
| TrustRuns.UnsyncedLineIsLost | internal/ota/trustmeta.go:370-372 | A release that did rely on one is accepted and loses its line in one power cut. |
| TrustRuns.AcceptedThenLost | internal/ota/trustmeta.go:370-390 | A concrete run in which that happens. |
| TrustRuns.RetryAddsNothing | internal/ota/trustmeta.go:349-390 | A release whose line was written is never logged again, whatever happened between, including a death before the journal commit; with power cuts between, if the line was synced. |
| TrustRuns.AcceptsUnlessTorn | internal/ota/trustmeta.go:356-360 | An otherwise acceptable release is accepted if and only if no log line is torn; a torn line that has reached the disk stops every later release, and one that has not does so until a power cut. |
| TrustRuns.TornForGood | internal/ota/trustmeta.go:356-390 | A concrete run that tears the log and after which nothing is ever accepted. |
| EngineTrust.JointKeep | internal/ota/engine.go:64-81 | Engine and trust record moving together keep both invariants, one poisoned flag and one history of acceptances, with appends and commits that fail and power cuts. |
| EngineTrust.EveryAcceptedIsLogged | internal/ota/engine.go:64-81 | In every joint run each release the engine ever accepted was accepted under the signed root chain with the signed documents and the key that allow it behind it, and has a line that no power cut can take unless some acceptance relied on an unsynced one. |
| Relay.Keep | internal/relay/relay.go:51-118 | Every step of every request, upstream failure and restart keeps the cache's invariant. |
| Relay.CacheIsSound | internal/relay/relay.go:51-118 | Under every interleaving, whatever fails, what is served hashes to its name and a stored file never changes. |
| Relay.AnswersExactly | internal/relay/relay.go:61-117 | A request comes to hold an answer if and only if a look, the first or the one under the lock, succeeds on a stored file, or it stores the file itself. |
| Relay.ServesTheFile | internal/relay/relay.go:61-117 | It is then served exactly the stored bytes of that name, which hash to it. |
| Relay.AnswerStays | internal/relay/relay.go:51-118 | Until then no step of any other request takes the answer away. |
| Relay.RefusedExactly | internal/relay/relay.go:69-113 | A request ends without an answer exactly when upstream or a file operation fails it or the hash is wrong, and then nothing is stored or served. |
| Relay.StoredOnce | internal/relay/relay.go:61-117 | Under every interleaving in which the look under the lock does not fail on a file that is there, a digest is stored at most once and nothing stored is asked for upstream again. |
| Relay.RefetchesExactly | internal/relay/relay.go:65-68 | A request goes on to fetch a file that is there exactly if its look under the lock fails on it. |
| Relay.StoredTwice | internal/relay/relay.go:61-68 | A run with such failing looks that fetches and stores one digest twice. |
| Relay.OneFillAtATime | internal/relay/relay.go:62-117 | At most one request fills the cache at a time. |
| Relay.FreshStep | internal/relay/relay.go:138-160 | With truthful looks every step keeps it that only missing files are being fetched. |

## Left out

- Form of the engine: the decisions of `Submit`, `Step`, `RequestReboot` and `RecoverAbort` are functions of journal, status and inputs; the `Agent` object carries them out step by step.
- Error texts, trace and span IDs, metrics and log lines: no effect on a job's outcome. The return of `save` before its update when a span ID cannot be drawn (internal/ota/engine.go:125-128) is no step of its own; nothing is written then.
- Side payloads inside the engine: an apply is an input that succeeds or fails; atomicity of payload files is proved for `payload.go` alone, because the engine may apply twice and removes backups before its journal write.
- Trust fields of the journal inside the engine's own steps: the verdict on an envelope is an input there; `EngineTrust` puts the two together, with trust metadata always configured.
- Download jitter and windows, URL allowlists, bandwidth limits, disk-space arithmetic and `Config.Validate`: single checks, given as inputs.
- `VerifyEnvelope` apart from the dependency check: plain field checks.
- Bootloaders that mark slots bad by themselves: a boot step changes the booted slot, the primary slot and the boot ID only.
- Agent.Agent.Step: runs on the simulated device, whose own file errors are not modelled; arbitrary backends are covered by the transition system.
- Journals whose active job disagrees with the device at the start, or whose jobs decode differently now: `EngineRuns.EveryLaterRunIsSafe` asks for agreement.
- Jobs filed under the empty ID: which of the others compaction then takes is not stated; `Submit` never admits such an ID, a hand-made legacy file could.
- JournalStore.StoreStep: a legacy file is put in place only while no agent runs.
- Liveness.HealthCheckEnds: assumes, as its title says, no extra reboot, an idle backend, known slots and room for three events; existence of each fault-free call is `Agent.Agent.Step`.
- Relay cache files that do not hash to their names before the relay starts: the relay never checks a file that is already there.
- Relay: request authorisation, HTTP details and the `fetches` counter's lock; the cache is modelled by its interleaved steps rather than as an object, since interleaving is the point.
- Fleet server restart and assignment delivery; server state is in memory in the reference server.
- Backup, archive export, garbage collection, campaigns, RAUC D-Bus, TLS, JSON, SQLite and file-locking internals.
- File attributes: symbolic links, permissions and irregular files are covered by an open that fails.
- SBOM and measured-boot checks: inputs of the decisions that use them.
