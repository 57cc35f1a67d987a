# Actordock: scheduler, policies and snapshots, verified

Actordock time-shares a few Workers, one sandbox at a time each, among many agent sandboxes. A scheduler resumes,
pauses and suspends sandboxes; Workers checkpoint and restore them; snapshots travel through an object store. This
project models the parts whose correctness is not visible in any one function, and proves what holds over every
interleaving, every event sequence and every file:

* **The Worker-slot protocol** (`Protocol*.dfy`, `WorkerAgent.dfy`, `Scheduler.dfy`). Any number of concurrent
  Resume, Pause, Suspend, Delete and EnsureGolden calls over one record store, the knock mutex, the restore
  reservations and the Workers. Every RPC, store access and lock operation is a step of its own. `Protocol` is the
  state machine; `ProtocolSafety`, `ProtocolAdmission`, `ProtocolRestores`, `ProtocolOwnership`, `ProtocolHosts`,
  `ProtocolDownloads`, `ProtocolSources` and `ProtocolRecords` hold the inductive invariants, one small lemma a step;
  `ProtocolTheorems` states what they mean, and exactly when the claims hold that fail in general; `ProtocolWitness`
  builds runs in which they fail. `WorkerAgent.Agent` and `Scheduler.Desk` are the mutable objects of the source, and
  `ProtocolAgent` and `ProtocolDesk` prove that what they do is a step of the state machine.
* **Policies and signals** (`Policy.dfy`, `Policies.dfy`, `Semantic.dfy`, `Signals.dfy`, `GreedyDual*.dfy`,
  `Accounting.dfy`, `Ordering.dfy`). The policies' common contract, the election of the one Resume that may knock and its
  ageing bound, the lazily aged GreedyDual-Size clock against the algorithm it stands for, and time accounting over
  arbitrary event sequences. `SignalLaws`, `PolicyLaws` and `SemanticLaws` say, in the terms of the records and signals
  themselves, what the store's calls leave, which Worker and which victim are chosen, and what each signal counts for.
* **Snapshots** (`Bytes.dfy`, `SparseCodec.dfy`, `Codec.dfy`, `SnapshotDir.dfy`, `WorkerDownload.dfy`). The
  sparse-extent format byte by byte, the zero-skipping copier, format detection, directories uploaded with the manifest
  last, and what a download of one means to the protocol.
* **The wave packer** of the dataset builder (`Waves.dfy`).

## How to read the model

A sandbox record, a decision, a signal record or a stream is a datatype; an object whose methods update its fields is
a class (`Agent`, `Desk`, `Store`, `File`, `ObjectStore`, `LocalDir`, `Packer`), and a loop of the source is a loop.
Each method is proved against a function of its inputs or of the state before, and the theorems are lemmas about
those functions. Clocks, random draws and the outcome of an RPC are parameters or nondeterministic choices.

The protocol's steps are functions from state to state with a guard (`Enabled`, `Apply`); a run is a sequence of
enabled steps from a system without sandboxes. The functions correspond to the source like this:

* `Protocol.ResumeApply`: scheduler.go 301-437 (`Reserve` is 433-435); `Protocol.RestorePlan` and `LocalOnly`,
  `NeedsGolden`: 409-431; `Protocol.RestoreApply`: 486-506; `Protocol.StopApply`, `NowStopped`: 580-638;
  `Protocol.GoldenApply`: 216-299; `Protocol.ApiApply`: 199-214 and 640-652; all in `internal/scheduler/scheduler.go`.
* `Protocol.Checkpointed`, `AfterFetch`: what the Worker's handlers do, `internal/workerserver/server.go` 164-206 and
  208-254.
* `Policy.Eligible`, `Hosting`, `LoadOf`, `SortsBefore`: `internal/policy/place.go` 42-98; `KeepAlive`, `IdleTime`:
  `internal/policy/evict.go` 42-75; `Sticky`: `internal/policy/resume.go` 7-24.
* `SemanticScore.KeepScore` and its four terms, `AdmitScore`: `internal/policy/semantic_score.go` 122-139 and 194-322.
* `SignalCache.Step`: one atomic change of `internal/signals/store.go`; `ToSignals`: 231-258. `Gds`: `gds.go`.

Behaviour worth knowing, found while proving:

* A resume does not always restore the newest snapshot: a directory left on a Worker the sandbox ran on before
  suppresses the download (`ProtocolWitness.StaleIsReachable`). It restores exactly the newest if and only if it
  downloaded it, or its Worker wrote it, or downloaded all of it since (`ProtocolTheorems.SnapshotFreshness`).
* A Resume can be admitted to a Worker that is busy with another sandbox, because live status and reservations are
  read one after the other (`ProtocolWitness.RaceIsReachable`). Every restore is alone on its Worker all along a run if
  and only if each reservation of it takes a Worker that is still free (`ProtocolRestores.RestoresExactly`), and then no
  two sandboxes run on one Worker (`ProtocolTheorems.ExclusiveAdmission`). Every Worker seen free stays vacant until its
  Resume is done if and only if no Resume keeps one taken since it looked (`ProtocolAdmission.ExclusiveExactly`);
  reading both at once is enough for all of it (`ProtocolAdmission.AtOnceIsUndisturbed`).
* Three requests whose failure is ignored, or comes too late, leave an occupant in a slot that no record and no call
  accounts for: the delete of a golden boot whose checkpoint failed, the delete of a running sandbox, and the record
  write after a restore. `ProtocolTheorems.NoLeak` says for every run exactly which slots leaked: those lost in this
  way, neither taken up again by a restore of the same sandbox on the same Worker nor freed by a checkpoint asked for
  before. A leaked golden boot, or a leaked sandbox that was deleted, takes its Worker away for good
  (`ProtocolTheorems.LeakIsForGood`, `ProtocolWitness.BootLeakIsReachable`, `ProtocolWitness.LostDeleteIsForGood`).
* Evicting a sandbox whose record was created by a mark or a semantic heartbeat, and so has no priority yet, sets the
  GreedyDual clock back to zero (`GreedyDual.BlindEvictionResetsClock`); `LazyAgreesExactly` says for every run whether
  it stays in step with the naive algorithm. An eviction between a restore and the start of the sandbox can leave a
  running priority below the clock (`GreedyDualVictims.OvertakenRunsBelow`); `FloorExactly` says for every run whether
  that happens.
* An upload over an older snapshot that stops half-way leaves a snapshot that downloads and mixes both
  (`SnapshotDir.InterruptedReuploadMixes`); on a fresh prefix it is refused.
* The closing loop of `pack_waves` finds nothing to do (`Waves.NothingLeft`), and the `hi < lo` guard of
  `sample_tool_loop_ms` cannot fire for the waits it is given (`Waves.SampleTool`).

## Model

| member | source | states |
|---|---|---|
| ProtocolTheorems.SlotSafety | internal/scheduler/scheduler.go:343-519 | In every state any interleaving reaches, a slot has at most one occupant, each sandbox recorded running is the one in its Worker's slot (but for the one whose finished checkpoint the mutex holder has yet to record), no two such share a Worker, and they are no more than the Workers the system started with, which no step adds to |
| ProtocolTheorems.Pigeonhole | internal/scheduler/scheduler.go:184-197 | Sandboxes placed on pairwise different Workers are at most as many as the Workers |
| ProtocolTheorems.SnapshotFreshness | internal/scheduler/scheduler.go:409-431 | A restored image is never newer than the last successful checkpoint, and is exactly that one, whole, if and only if no directory suppressed the download, or the Worker wrote that checkpoint (always so for a paused sandbox), or it downloaded it whole since |
| ProtocolTheorems.Lifecycle | internal/scheduler/scheduler.go:613-623 | Paused goes with a local source; suspended with none, or an external one under the sandbox's own key; at rest, the golden branch is the one to take exactly when there was never a successful checkpoint |
| ProtocolTheorems.RestoreSource | internal/scheduler/scheduler.go:409-431 | A restore under way reads from its Worker's directory for that sandbox, names the golden template exactly for a sandbox never checkpointed, and a paused one goes to its own Worker without any object |
| ProtocolTheorems.NoLeak | internal/scheduler/scheduler.go:270-506 | After any run, the slots whose occupant nobody accounts for - no record says it runs there, no restore filled it, no call is sealing it - are exactly those the history of lost requests names, Worker by Worker; every reservation belongs to a Resume still in flight; and without a failed delete, cleanup or record write after a restore the history is empty |
| ProtocolTheorems.LeakIsForGood | internal/workerserver/server.go:112-140 | Once a golden boot leaked, or a sandbox that is gone, its slot is never given back in any continuation of the run, and nobody else gets in |
| ProtocolTheorems.ExclusiveAdmission | internal/scheduler/scheduler.go:697-766 | In every run whose reservations take free Workers, reads apart or not: no two sandboxes are recorded running on one Worker and all of them are no more than the Workers, no Worker is restored onto twice, nobody but the holder of the reservation is on its Worker, and an admitted restore meets a busy Worker exactly when a golden boot is in the slot |
| ProtocolTheorems.RunKeepsOneRunner | internal/scheduler/scheduler.go:433-506 | Along such a run at most one sandbox is recorded running on each Worker, mid-checkpoint or not |
| ProtocolTheorems.KeepsOneRunner | internal/scheduler/scheduler.go:433-506 | Each single step keeps that |
| ProtocolSafety.InitInv | internal/scheduler/scheduler.go:63-85 | A system without sandboxes satisfies the safety invariant |
| ProtocolSafety.KeepsInv | internal/scheduler/scheduler.go:301-652 | Every step, whatever the other calls are in the middle of, keeps the safety invariant: slots, records, callers' copies, images and locks |
| ProtocolSafety.RunKeepsInv | internal/scheduler/scheduler.go:301-652 | So does every run |
| ProtocolSafety.KeepsResume | internal/scheduler/scheduler.go:343-437 | The steps of a Resume up to its reservation keep the invariant |
| ProtocolSafety.KeepsRestore | internal/scheduler/scheduler.go:486-506 | The steps of a Resume after its reservation keep the invariant, failed and partial downloads and a failed record write included |
| ProtocolSafety.KeepsHalt | internal/scheduler/scheduler.go:580-638 | The steps of pauseOrSuspend, in whichever call they run, keep the invariant, failed checkpoints, partial images and uploads that tear or never start included |
| ProtocolSafety.KeepsBuild | internal/scheduler/scheduler.go:216-299 | The steps of EnsureGolden keep the invariant, a failed cleanup and a failed golden record included |
| ProtocolSafety.KeepsCreate | internal/scheduler/scheduler.go:199-214 | Creating a sandbox keeps the invariant |
| ProtocolSafety.KeepsDelete | internal/scheduler/scheduler.go:640-652 | Deleting a sandbox keeps the invariant, even while calls hold copies of its record, and whether or not its Worker did what it was asked |
| ProtocolSafety.CheckpointFrame | internal/workerserver/server.go:164-206 | What a checkpoint request changes, for each way it can end, uploads that never start and partial images included: the slot is given back only by one that succeeded, and no other Worker notices |
| ProtocolSafety.CheckpointedMachine | internal/workerserver/server.go:164-206 | After a checkpoint that succeeded the slot is empty and the directory, the upload and the version count agree; one that failed leaves slot and count as they were, and no directory further ahead than the next version |
| ProtocolSafety.FetchedMachine | internal/workerserver/server.go:208-254 | However a restore ends, no other sandbox notices, the sandbox's last checkpoint is still where its record says, and an image that was started is fresh |
| ProtocolSafety.FetchedImage | internal/workerserver/server.go:223-246 | What lies in the directory after a fetch is never newer than the last checkpoint, is exactly that one if it was downloaded now, and is what it was if it was there before |
| ProtocolAdmission.KeepsExclusive | internal/scheduler/scheduler.go:697-766 | Every step keeps exclusivity, unless it keeps a Worker taken since it was seen idle: a Worker kept as free stays vacant until its Resume reserves it, and a reserved one is its holder's alone |
| ProtocolAdmission.MaskIsExact | internal/scheduler/scheduler.go:698-702 | Reading the reservations after the statuses keeps exclusivity if and only if every Worker kept as free still has no sandbox in its slot |
| ProtocolAdmission.ExclusiveExactly | internal/scheduler/scheduler.go:697-766 | Exclusivity holds in every state of a run if and only if no Resume of it keeps a Worker taken since it looked |
| ProtocolAdmission.AtOnceIsUndisturbed | internal/scheduler/scheduler.go:698-702 | No Resume does if statuses and reservations are read at once |
| ProtocolAdmission.RunKeepsExclusive | internal/scheduler/scheduler.go:697-766 | Every run in which no Resume keeps a Worker taken since it looked ends exclusive |
| ProtocolAdmission.VacantWhenIdle | internal/scheduler/scheduler.go:343-360 | Under the mutex, an idle Worker without a restore under way is vacant: nobody is recorded running there either |
| ProtocolAdmission.VictimAlone | internal/scheduler/scheduler.go:386-401 | The victim the mutex holder is about to checkpoint is the only sandbox on its Worker, and no restore onto it is under way |
| ProtocolAdmission.OneRestore | internal/scheduler/scheduler.go:731-738 | Two restores in flight are on different Workers |
| ProtocolRestores.RestoresExactly | internal/scheduler/scheduler.go:433-435 | Each restore holds its reservation and is alone on its Worker in every state of a run if and only if each reservation of the run takes a Worker with no restore under way and no other sandbox in the slot, whatever Resumes that leave again saw |
| ProtocolRestores.KeepsAlone | internal/scheduler/scheduler.go:343-652 | A step from a state in which restores are alone leads to another if and only if it is not a reservation of a Worker that is taken |
| ProtocolRestores.ReserveIsExact | internal/scheduler/scheduler.go:433-435 | A reservation keeps restores alone if and only if it takes a free Worker |
| ProtocolRestores.UndisturbedReservesFree | internal/scheduler/scheduler.go:697-766 | A run in which no Resume keeps a Worker taken since it looked takes free ones only |
| ProtocolRestores.LeavingIsHarmless | internal/scheduler/scheduler.go:343-401 | Not conversely: a Resume that keeps such a Worker and leaves again reserves nothing |
| ProtocolOwnership.KeepsExact | internal/workerserver/server.go:112-140 | Every step keeps the history exact: a slot without an owner is in it, and what is in it is a slot without an owner |
| ProtocolOwnership.KeepsReserved | internal/scheduler/scheduler.go:731-744 | Every step hands each reservation on with its Resume, or gives it back |
| ProtocolOwnership.RunKeepsExact | internal/scheduler/scheduler.go:301-652 | So does every run, both |
| ProtocolOwnership.NothingLeaks | internal/scheduler/scheduler.go:279-283 | A run without a failed delete of a running sandbox, failed cleanup of a golden boot or failed record write after a restore leaks nothing |
| ProtocolOwnership.BootStaysLeaked | internal/scheduler/scheduler.go:279-283 | A leaked golden boot stays leaked, whatever the rest of the run does |
| ProtocolOwnership.BoxStaysLeaked | internal/scheduler/scheduler.go:640-652 | So does the slot of a leaked sandbox that is gone: its record deleted, and no call restoring or checkpointing it |
| ProtocolOwnership.KeepsGone | internal/scheduler/scheduler.go:301-652 | Every step leaves a sandbox gone that was: no call picks it up again |
| ProtocolOwnership.DeletedIsGone | internal/scheduler/scheduler.go:640-652 | A delete of a running sandbox makes it gone if and only if no call is in the middle of checkpointing it |
| ProtocolHosts.KeepsHosts | internal/scheduler/scheduler.go:301-652 | No step reaches a Worker that is not the system's |
| ProtocolHosts.RunKeepsHosts | internal/scheduler/scheduler.go:301-652 | No run adds a Worker or loses one |
| ProtocolDownloads.KeepsSpreads | internal/workerserver/server.go:223-246 | Through every step, the last checkpoint of a sandbox at rest lies exactly on the Worker that wrote it and on those that downloaded it whole since |
| ProtocolDownloads.RunKeepsSpreads | internal/workerserver/server.go:223-246 | So through every run |
| ProtocolSources.RestoreHasImage | internal/workerserver/server.go:230-234 | In every reachable state, an admitted restore has a directory on its Worker or the whole last checkpoint - for a sandbox without one, the golden template - behind its key, so it is never told that the snapshot is missing |
| ProtocolSources.KeepsThere | internal/scheduler/scheduler.go:420-431 | Every step keeps the golden template there for the restores admitted on it |
| ProtocolRecords.StopRecordsOrder | internal/scheduler/scheduler.go:386-401 | After any run, a finished stop records what its call was last told to do: a Suspend, and always the eviction inside a Resume or for the golden template, leaves that sandbox suspended with an external snapshot under its own key, whole in the object store and on its Worker; a Pause leaves it paused with a local one and its key as it was; Worker and creation time stay |
| ProtocolRecords.KeepsOrders | internal/scheduler/scheduler.go:560-626 | Every step leaves each call checkpointing the sandbox it was last told to, in the way it was told |
| ProtocolRecords.RunKeepsOrders | internal/scheduler/scheduler.go:560-626 | So does every run |
| ProtocolRecords.StartRecords | internal/scheduler/scheduler.go:497-505 | After any run, a finished resume records the sandbox running on the Worker it was restored on, in that Worker's directory and in its slot; key, source and creation time stay |
| ProtocolRecords.CreateRecords | internal/scheduler/scheduler.go:199-214 | A new sandbox is suspended, without a Worker, a directory or a snapshot |
| ProtocolRecords.ObjectsAfter | internal/workerserver/server.go:183-198 | An object changes only through an upload of its own sandbox, whole if that finished and broken if it tore; a pause never touches the store |
| ProtocolWitness.ReturnIsStale | internal/workerserver/server.go:223-228 | From any settled state: a sandbox that ran on one Worker, was suspended, ran on another, was suspended again and returns to the first is given the first one's old directory |
| ProtocolWitness.StaleIsReachable | internal/workerserver/server.go:223-228 | Such a state is reached from an empty system with two Workers |
| ProtocolWitness.SplitReadMeetsBusyWorker | internal/scheduler/scheduler.go:698-702 | From any settled state: with status read before reservations, another Resume can claim, record and drop its reservation in between, and the second is admitted to the Worker the first one runs on |
| ProtocolWitness.DisturbedMeetsBusyWorker | internal/scheduler/scheduler.go:698-702 | Wherever a Resume keeps a Worker another one has taken since it looked - for a paused sandbox, its own Worker - it can go on to be admitted to it and find it busy |
| ProtocolWitness.RaceIsReachable | internal/scheduler/scheduler.go:697-702 | Such a state is reached from an empty system with one Worker |
| ProtocolWitness.EvictsAndTakes | internal/scheduler/scheduler.go:386-437 | From any settled state with a busy Worker: a Resume can evict its sandbox, which ends suspended and uploaded, and hold the reservation of the emptied slot |
| ProtocolWitness.ColdStart | internal/scheduler/scheduler.go:423-431 | From an empty system with one Worker: the first Resume builds the golden template itself, on the Worker it was given, and its sandbox runs from it |
| ProtocolWitness.TriesAgain | internal/scheduler/scheduler.go:439-475 | A Resume that is refused, or whose victim is gone, or for whom the golden template finds no place, may give the mutex back and wait in the lobby again |
| ProtocolWitness.UnrecordedLeaks | internal/scheduler/scheduler.go:497-505 | From any settled state: a restore whose record is not written leaves its sandbox in the slot, with the record as before and no call in flight |
| ProtocolWitness.LeakIsReachable | internal/scheduler/scheduler.go:497-505 | Such a state is reached from an empty system with one Worker |
| ProtocolWitness.LostDeleteIsForGood | internal/scheduler/scheduler.go:640-652 | From any reachable state: a delete of a running sandbox whose request to the Worker fails closes that Worker to everybody else in every continuation, unless a checkpoint of the sandbox is under way |
| ProtocolWitness.BootLeakIsReachable | internal/scheduler/scheduler.go:273-283 | From an empty system with one Worker: a golden boot whose checkpoint and cleanup fail, after which no sandbox ever gets onto that Worker |
| ProtocolWitness.LostStopLeavesSlotEmpty | internal/scheduler/scheduler.go:624-626 | If the record after a checkpoint were not written, the record would say running, the slot would be empty, and no call would be about to change that |
| WorkerAgent.Agent.Claim | internal/workerserver/server.go:112-122 | A claim succeeds on an empty slot or for its own occupant, and then that is the only occupant; otherwise nothing changes |
| WorkerAgent.Agent.Release | internal/workerserver/server.go:133-140 | Exactly that occupant leaves |
| WorkerAgent.Agent.HandleBoot | internal/workerserver/server.go:142-162 | Boots only into a slot it may claim; a failed boot gives the slot back |
| WorkerAgent.Agent.HandleCheckpoint | internal/workerserver/server.go:164-206 | What is left in the image directory for each way to end - replaced, as it was, cleared, or part of an image - and the slot is given back only when checkpoint and upload both succeeded |
| WorkerAgent.Agent.HandleRestore | internal/workerserver/server.go:208-254 | A directory already there suppresses the download; which image is restored, what is left on disk and who is in the slot, for every way it can end |
| WorkerDownload.DownloadInto | internal/workerserver/server.go:229-246 | A download into an absent or empty directory succeeds, is refused before it starts, or breaks off exactly as the prefix is complete, has no manifest, or names an unreadable file, and leaves what the agent and the protocol say for that ending - or the whole checkpoint, if it broke off after its last byte |
| WorkerAgent.Agent.HandleDelete | internal/workerserver/server.go:275-280 | The slot is given back whatever the runtime says |
| WorkerAgent.CheckpointLeaves | internal/workerserver/server.go:176-198 | Only a checkpoint that was taken leaves a whole image, a broken one part of it, nothing, or what was there; other directories never change |
| WorkerAgent.DownloadLeaves | internal/snapshotstore/store.go:75-111 | A finished download leaves the image as it is in the store, one that broke off part of it; other directories never change |
| ProtocolAgent.ServeCheckpoint | internal/workerserver/server.go:164-206 | An agent that mirrors its host in the protocol still does after a checkpoint request: the handler is the protocol's step |
| ProtocolAgent.ServeRestore | internal/workerserver/server.go:208-254 | A restore request is the protocol's refusal, or its claim and fetch one after the other, with the same image |
| ProtocolAgent.ServeBoot | internal/workerserver/server.go:142-162 | A boot request is the protocol's step |
| ProtocolAgent.ServeDelete | internal/workerserver/server.go:275-280 | A delete request is the protocol's step |
| ProtocolDesk.DecidesApart | internal/scheduler/scheduler.go:697-729 | Under any of the five policies: each status read in a state of its own, then the reservations, then, other calls having moved, the running list; what is decided is the protocol's decide step after its mask and list steps |
| ProtocolDesk.ScansNext | internal/scheduler/scheduler.go:159-182 | Asking the next Worker its status is the protocol's scan step in that state |
| ProtocolDesk.ScannedIsFree | internal/scheduler/scheduler.go:159-182 | The Workers that reported room are those the scan steps gathered |
| ProtocolDesk.Decides | internal/scheduler/scheduler.go:353-366 | The same with everything read in one state |
| ProtocolDesk.SameFree | internal/scheduler/scheduler.go:697-702 | The Workers with room that no other Resume holds are the protocol's unreserved idle ones |
| ProtocolDesk.SameRunning | internal/scheduler/scheduler.go:184-197 | The running list and the protocol's view of it name the same sandboxes on the same Workers |
| Scheduler.Desk.ReserveRestore | internal/scheduler/scheduler.go:731-738 | The Worker's entry becomes this sandbox; no other entry changes |
| Scheduler.Desk.ClearRestoreReserve | internal/scheduler/scheduler.go:740-746 | Only the holder's own clear removes an entry, and only that one |
| Scheduler.Desk.ApplyRestoreReserves | internal/scheduler/scheduler.go:748-766 | Exactly the Workers held by another sandbox have their used slots raised to their limit, at least one, and so look full; every other Worker, every other field and the order stay |
| Scheduler.Desk.AddResumeWaiter | internal/scheduler/scheduler.go:768-780 | A new waiter joins now; a known one gets its new record and keeps its join time |
| Scheduler.Desk.RemoveResumeWaiter | internal/scheduler/scheduler.go:782-786 | Only that waiter leaves |
| Scheduler.Desk.ListResumeWaitState | internal/scheduler/scheduler.go:788-798 | Every waiter once, whatever the order, with its join time |
| Scheduler.Desk.EnsureKnockerTurn | internal/scheduler/scheduler.go:545-559 | Always the turn under other policies; under semantic-score exactly when no other waiter in the lobby outranks the asker |
| Scheduler.Desk.ResumeCandidates | internal/scheduler/scheduler.go:697-729 | A paused sandbox, or one whose last Worker has room and its directory, is shown only that Worker and who runs there; every other one is shown all Workers, those another Resume holds as full; an absent sticky Worker is an error only for a paused one |
| Scheduler.Desk.AskPolicy | internal/scheduler/scheduler.go:353-366 | Given truthful views, any decision keeps to the protocol's contract and is what the policy promises for these views and signals; refused for want of the turn exactly off the top of the lobby |
| Scheduler.Desk.DecideResume | internal/scheduler/scheduler.go:343-375 | Any decision is a free Worker or a running sandbox with its own Worker, and is the policy's answer to the Workers and sandboxes a Resume is shown; no decision means a paused sandbox whose Worker is gone |
| Scheduler.FilterRunningOn | internal/scheduler/scheduler.go:686-694 | Exactly the running sandboxes of that Worker |
| Scheduler.JoinTimeKept | internal/scheduler/scheduler.go:768-786 | However often waiters are refreshed, added and removed, a waiter that stays keeps its join time |
| Scheduler.StaysKeyed | internal/scheduler/scheduler.go:768-786 | Every waiter stays filed under its own id |
| Scheduler.EarlyWaiterWins | internal/scheduler/scheduler.go:768-798 | A waiter that joined the lead earlier outranks the other, whatever was refreshed since and whatever their signals say |
| Scheduler.OneTurn | internal/scheduler/scheduler.go:545-559 | At one time and signal view, exactly one waiter of a non-empty lobby has the turn |
| Scheduler.TurnIsBest | internal/scheduler/scheduler.go:545-559 | Asking a list of the waiters, in whatever order, and asking the lobby come to the same |
| SemanticScore.RequireBestWaiter | internal/policy/semantic_score.go:92-119 | Passes exactly when no other named waiter has a higher score, or the same with an earlier creation, or both the same with a smaller id |
| SemanticScore.ExactlyOneKnocker | internal/policy/semantic_score.go:92-119 | In a non-empty lobby of distinct non-empty ids exactly one waiter passes, and it outranks all the others |
| SemanticScore.OutranksTrichotomy | internal/policy/semantic_score.go:104-117 | Of two different ids exactly one outranks the other |
| SemanticScore.OutranksTransitive | internal/policy/semantic_score.go:104-117 | Outranking is transitive |
| SemanticScore.KeepScoreBounds | internal/policy/semantic_score.go:194-322 | Whatever the signals, the keep score is at least 0 and below WL+WU+WF+WC |
| SemanticScore.UrgencyBounds | internal/policy/semantic_score.go:231-284 | Urgency lies between 0 and 1 for every deadline, profile, mix and alpha |
| SemanticScore.FairnessBounds | internal/policy/semantic_score.go:286-299 | Fairness is at least 0 and below 1, even for negative times on file |
| SemanticScore.FairnessIsShare | internal/policy/semantic_score.go:286-299 | Fairness is the waiting time's share of one second plus service plus waiting |
| SemanticScore.FairnessOrder | internal/policy/semantic_score.go:286-299 | Who waited no less and was served no more is treated no worse |
| SemanticScore.DeadlineOrder | internal/policy/semantic_score.go:256-266 | An earlier deadline is no less urgent, and full urgency means the deadline has come |
| SemanticScore.KeepScoreOrder | internal/policy/semantic_score.go:194-213 | A sandbox that is behind in none of protection, urgency, fairness and preemption cost is kept no less, and strictly more when fairness favours it |
| SemanticScore.LockedIsProtected | internal/policy/semantic_score.go:183-229 | The sandboxes kept out of the victim pool are exactly those whose phase has full protection in the score |
| SemanticScore.AgeingBound | internal/policy/semantic_score.go:122-139 | A waiter that joined at least 60(WL+WU+WF+WC)/WQ seconds before another has the strictly higher admit score |
| SemanticScore.DefaultLead | internal/policy/semantic_score.go:38-50 | With the default weights that is 240 seconds |
| SemanticScore.PickSemanticVictim | internal/policy/semantic_score.go:141-181 | Busy exactly when all are mid-checkpoint; all-locked exactly when none of the others is unlocked and override is off; else the first best of the pool by keep score, then age |
| SemanticScore.Cheapest | internal/policy/semantic_score.go:165-178 | The scan returns the first least element of the pool |
| SemanticScore.PoolVictim | internal/policy/semantic_score.go:141-192 | That element is unlocked if any candidate is, of least keep score among those it competes with, and the oldest of them |
| SemanticScore.Place | internal/policy/semantic_score.go:54-77 | The least usable Worker if there is one; otherwise the right victim; each refusal exactly in its case |
| SemanticScore.Resume | internal/policy/semantic_score.go:79-90 | Refuses exactly those not at the top of the lobby; the others get their last Worker if it is usable, and without one exactly what Place promises: the least usable Worker, else the right victim, each refusal in its own case |
| SemanticLaws.PhaseValues | internal/policy/semantic_score.go:215-229 | Full protection under a lock or in a tool loop, 0.2 while waiting for the model, none when idle, 0.5 in any other phase |
| SemanticLaws.IdleGoesFirst | internal/policy/semantic_score.go:165-229 | Of two sandboxes whose signals differ in the phase alone, the one waiting for its model is never suspended while the idle one runs |
| SemanticLaws.VictimMeans | internal/policy/semantic_score.go:141-192 | Whoever is suspended is in no checkpoint, is at work only if the override is on and nobody else can be chosen, and scores no more than anybody who can; on a tie it is no younger |
| SemanticLaws.KeepScoreGap | internal/policy/semantic_score.go:209-212 | The gap between two keep scores is the weighed gap between their four terms |
| SemanticLaws.WeightOfEach | internal/policy/semantic_score.go:209-212 | Phase goes by WL, urgency by WU, fairness by WF and preemption by WC |
| SemanticLaws.OnlineCases | internal/policy/semantic_score.go:256-266 | No deadline is not urgent, a past one fully, one in t seconds by a share of 1 in 1 + t |
| SemanticLaws.PriorCases | internal/policy/semantic_score.go:268-284 | Half plus the complexity signal, plus similarity times its weight, within 0 and 1; what is missing, or weighted below zero, adds nothing |
| SemanticLaws.UrgencyCases | internal/policy/semantic_score.go:231-254 | The profile counts from a confidence of 0.3 on: alone without a deadline, else by its share of the mix, which is cut to 0 and 1 |
| SemanticLaws.PreemptCases | internal/policy/semantic_score.go:194-208 | The stored keep-alive value, its stand-in at clock zero, or 1 without signals, through the curve and cut to 0 and 1 |
| SemanticLaws.AdmitCases | internal/policy/semantic_score.go:122-139 | A minute in the lobby is worth WQ; an unknown or future join time nothing |
| SemanticLaws.OutranksMeans | internal/policy/semantic_score.go:104-117 | Between two that joined together the higher keep score decides, then the earlier created, then the smaller id |
| Policy.PickIdleWorker | internal/policy/place.go:14-25 | The least usable Worker by load, registration and id; none exactly when none is usable |
| Policy.IdleCandidates | internal/policy/place.go:28-40 | Exactly the usable Workers |
| Policy.HostingIsExact | internal/policy/place.go:54-66 | With at most one running sandbox to a Worker, the scan that looks only at the first one listed answers whether any sandbox there is mid-checkpoint |
| Policy.SortsBeforeIsOrder | internal/policy/place.go:79-98 | The comparison given to sort.Slice is a strict weak order |
| Policy.PickGDSVictim | internal/policy/evict.go:29-40 | The first sandbox of least keep-alive value, older first on ties, one mid-checkpoint only if all are |
| Policy.PickLRUVictim | internal/policy/evict.go:15-27 | The first sandbox idle longest, older first on ties |
| Policy.OlderThanIsOrder | internal/policy/fifo.go:34-41 | Creation time, then id, is a strict weak order |
| Policies.FifoPlace | internal/policy/fifo.go:23-48 | The least usable Worker, else the oldest running sandbox with its Worker; refuses exactly when there is neither |
| Policies.LruPlace | internal/policy/lru_idle.go:20-36 | The least usable Worker, else the sandbox idle longest; refuses exactly when there is neither |
| Policies.ResourceEvictPlace | internal/policy/resource_evict.go:19-36 | The least usable Worker, else the sandbox of least keep-alive value; refuses exactly when there is neither |
| Policies.RandomPlace | internal/policy/random.go:29-47 | Whatever is drawn: a usable Worker, else a running sandbox with its Worker; refuses exactly when there is neither or no Worker is listed |
| Policies.Resume | internal/policy/resume.go:7-24 | Under all five policies whoever has the turn gets a usable last Worker, and without one exactly what that policy's Place promises; a Resume is without the turn exactly under semantic-score and off the top of the lobby |
| PolicyLaws.UsableMeans | internal/policy/place.go:42-66 | With one sandbox to a Worker: admitted to exactly if healthy by registry and last report, with a slot free (no limit counting as one), and nobody on it in the middle of a checkpoint |
| PolicyLaws.LeastLoaded | internal/policy/place.go:68-98 | The Worker picked carries the least CPU plus memory of those that could be, an unreported one counting as 0; then registered first; then of smallest id |
| PolicyLaws.StickyMeans | internal/policy/resume.go:7-24 | With distinct Worker ids: the last Worker is kept exactly when it is listed and usable |
| PolicyLaws.FifoTakesOldest | internal/policy/fifo.go:23-48 | Nobody running is older than the victim |
| PolicyLaws.IdleCases | internal/policy/evict.go:42-57 | Idle since the reported activity; without one since the flat report; without that since the record was written; without that since it was created |
| PolicyLaws.LruTakesIdlest | internal/policy/evict.go:13-25 | Nobody running has been idle longer than the victim, nor as long and is older |
| PolicyLaws.KeepAliveCases | internal/policy/evict.go:59-76 | 1 without a report, above everything in a checkpoint, else the stored priority, or cost over size when none is stored |
| PolicyLaws.ResourceTakesLeast | internal/policy/evict.go:27-40 | Nobody running is worth less than the victim, nor as much and is older; it is in a checkpoint only if all are |
| Ordering.SortSlice | internal/policy/place.go:79-98 | Sorted by the given strict weak order, and a permutation |
| Ordering.FirstBestNext | internal/policy/evict.go:29-40 | A scan that replaces its best only by a strictly better one keeps the first of the least |
| Ordering.HeadIsLeast | internal/policy/fifo.go:33-47 | The head of a sorted permutation is a least element of the original |
| Ordering.StringLessTotal | internal/policy/place.go:94-96 | Go's string order is total and asymmetric |
| Ordering.StringLessTransitive | internal/policy/place.go:94-96 | Go's string order is transitive |
| Ordering.StringLessMeans | internal/policy/place.go:91-95 | A string is less exactly if it starts the other and is shorter, or has the smaller character where they first differ |
| SignalStore.Store.ApplyPush | internal/signals/store.go:57-89 | The Worker row, then every sample in order, then the purge |
| SignalStore.Store.ApplySemantic | internal/signals/store.go:91-123 | The heartbeat merged into the record, then the purge |
| SignalStore.Store.MarkRunning | internal/signals/store.go:125-142 | The wait interval closed, a running one opened if none was; nothing else changes |
| SignalStore.Store.MarkSuspended | internal/signals/store.go:144-161 | The running interval closed, a wait opened if none was; nothing else changes |
| SignalStore.Store.RecordCheckpoint | internal/signals/store.go:163-186 | What was measured is merged, the priority renewed, then the purge |
| SignalStore.Store.RecordRestore | internal/signals/store.go:188-202 | The restore is noted, the priority renewed, then the purge |
| SignalStore.Store.OnEvict | internal/signals/store.go:204-216 | The clock becomes the victim's priority if it has a record |
| SignalStore.Store.Purge | internal/signals/store.go:218-229 | Exactly the expired records and rows go |
| SignalStore.Store.GetSandbox | internal/signals/store.go:260-269 | A fresh record as readers see it, nothing for a missing or expired one |
| SignalStore.Store.ListSandboxes | internal/signals/store.go:282-293 | Exactly the fresh records |
| SignalStore.Store.constructor | internal/signals/store.go:39-48 | Empty, clock zero, and 30 seconds when no time to live is given |
| SignalLaws.SampleTaken | internal/signals/store.go:71-87 | A sample replaces the runtime, its flat fields standing in for missing ones; checkpoint figures, semantics and times stay |
| SignalLaws.SampleAccess | internal/signals/store.go:77-86 | A first sample, or one more active than before, sets the priority to the clock plus cost over size; any other leaves it |
| SignalLaws.HeartbeatMerged | internal/signals/store.go:91-123 | The lock is always the new one; every other field is replaced if given and kept if not; nothing else in the record changes but its dates |
| SignalLaws.CheckpointMerged | internal/signals/store.go:163-186 | Bytes and cost are kept unless measured, date and duration go together, the priority becomes the clock plus cost over size, and nothing else changes |
| SignalLaws.RestoreMerged | internal/signals/store.go:188-202 | Date and duration of the restore, a new priority, and nothing else |
| SignalLaws.NobodyIgnored | internal/signals/store.go:57-216 | No call for an empty sandbox id changes anything |
| SignalLaws.PurgedExactly | internal/signals/store.go:218-229 | A record or row survives a purge exactly if touched within the time to live |
| SignalLaws.NothingStale | internal/signals/store.go:218-229 | After any call that purges, no record is older than the time to live |
| SignalLaws.ReadersSee | internal/signals/store.go:231-294 | Readers see exactly the sandboxes touched within the time to live; a heartbeat older than that is hidden, its lock included, while the platform's own figures stay |
| SignalLaws.RowTaken | internal/signals/store.go:60-69 | The row of a push is filed under its own id or the Worker's, dated now if it has no date, and no other row changes |
| Gds.Cost | internal/signals/gds.go:15-26 | The cost of bringing a sandbox back is always positive |
| Gds.Size | internal/signals/gds.go:28-46 | The size is never below one MiB |
| Gds.Priority | internal/signals/gds.go:48-51 | A priority given now is above the clock |
| Gds.WorthOrder | internal/signals/gds.go:15-51 | A sandbox that costs no less to bring back and frees no more is worth no less |
| Gds.SizeCases | internal/signals/gds.go:28-46 | Live memory in MiB before the last checkpoint's bytes, either at least 1; 1 if both are unknown |
| Gds.CostCases | internal/signals/gds.go:15-26 | Preemption plus restore; without them the last checkpoint's duration; without that 1 |
| Gds.PriorityGain | internal/signals/gds.go:48-51 | A priority is above the clock by cost over size |
| GreedyDual.LazyRefinesNaive | internal/signals/store.go:57-216 | Over every run of pushes, heartbeats, marks, checkpoints, restores, purges and evictions of valued victims, the lazy clock simulates subtracting the victim's value from everybody, naive value being H - L |
| GreedyDual.LazyAgreesExactly | internal/signals/store.go:57-216 | The two agree all along a run if and only if each eviction of it has a victim without a record or with a priority, or comes while the clock is zero or nobody has a priority |
| GreedyDual.EvictSimulates | internal/signals/store.go:204-216 | An eviction agrees with the naive algorithm if and only if its victim has no record or a priority, or the clock is zero, or nobody has a priority |
| GreedyDual.ChangeSimulates | internal/signals/store.go:57-202 | Every other change agrees with it |
| GreedyDual.FactsOf | internal/signals/store.go:57-229 | What a change does to everything but priorities does not depend on priorities or the clock |
| GreedyDual.PriorityAfter | internal/signals/store.go:83-85 | An access sets the priority to the clock plus the worth; nothing else touches a priority |
| GreedyDual.StepKeepsSound | internal/signals/store.go:57-229 | Clock and priorities stay non-negative |
| GreedyDual.BlindEvictionResetsClock | internal/signals/store.go:211-215 | From the empty store: a restore, its eviction, another sandbox's first heartbeat and its eviction take the clock from 3 back to zero and break the correspondence |
| GreedyDualVictims.SameVictim | internal/policy/evict.go:29-40 | Lazy and naive algorithm pick the same victim, ties included, when every running sandbox has a fresh valued record |
| GreedyDualVictims.FloorExactly | internal/signals/store.go:204-216 | Over every run that evicts least-valued running sandboxes, all of them valued, every running priority stays at or above the clock if and only if no sandbox joins after an eviction exceeded the priority of its last access; and then the clock never goes back |
| GreedyDualVictims.FloorHolds | internal/signals/store.go:204-216 | So from an unused store |
| GreedyDualVictims.NextKeepsFloor | internal/signals/store.go:204-216 | One event keeps every running priority at or above the clock if and only if it is not the joining of an overtaken sandbox; the clock never goes back |
| GreedyDualVictims.PickedVictimIsLeast | internal/policy/evict.go:29-75 | The victim resource-evict picks among running sandboxes with fresh valued records outside a checkpoint has the least priority |
| GreedyDualVictims.AccessedMayJoin | internal/signals/store.go:83-85 | A sandbox accessed since the last eviction is not overtaken |
| GreedyDualVictims.RestoredMayJoin | internal/scheduler/scheduler.go:492-510 | So a sandbox whose restore was just recorded joins in time |
| GreedyDualVictims.OvertakenRunsBelow | internal/scheduler/scheduler.go:486-510 | From an unused store: one sandbox restored and running, a second restored, the first evicted, the second started, and its priority is below the clock |
| Accounting.ReportedTimes | internal/signals/store.go:231-240 | Over any run in which the record survives, at most one interval is open, the reported service and waiting times are the trace's totals, they add up to the time since the first mark, and neither is negative on a clock that does not go back |
| Accounting.TimesAreTotals | internal/signals/store.go:231-240 | What holds of the record's books holds of the times reported at any moment |
| Accounting.BooksMatch | internal/signals/store.go:125-161 | What the record holds is what the marks so far add up to, whatever happened between them |
| Accounting.TotalsTile | internal/signals/store.go:125-161 | The two kinds of interval of a trace tile the time since its first mark |
| Accounting.OtherAtomsKeepTimes | internal/signals/store.go:57-123 | No push, heartbeat, checkpoint, restore, eviction or mark of another sandbox touches a sandbox's times |
| SparseCodec.SparseRoundTrip | internal/snapshotstore/sparsezstd.go:30-152 | For every file and every ascending list of extents whose holes read as zero, what is printed parses, and laid into an empty file gives the same bytes and length |
| SparseCodec.ParseBodyRoundTrip | internal/snapshotstore/sparsezstd.go:129-150 | Any in-range extents, printed and followed by the sentinel and anything at all, are read back as they were |
| SparseCodec.DataExtentsCover | internal/snapshotstore/sparsezstd.go:62-92 | The extents found by SEEK_DATA and SEEK_HOLE ascend, hold the file's bytes and leave out only zeros |
| SparseCodec.OverlayRebuilds | internal/snapshotstore/sparsezstd.go:129-150 | Such extents laid over zeros give the file back |
| SparseCodec.WriteSparse | internal/snapshotstore/sparsezstd.go:30-100 | Writes the twelve bytes ATESPRSE 02 00 00 00 and, compressed, the size low byte first, the extents, and eight bytes FF; reports the logical size and the bytes of data |
| SparseCodec.WriteExtents | internal/snapshotstore/sparsezstd.go:62-92 | The extent loop terminates by a strictly growing offset and prints the file's data extents |
| SparseCodec.ReadSparse | internal/snapshotstore/sparsezstd.go:102-152 | Accepts exactly what starts with the version bytes 02 00 00 00 and then parses; the file then has the declared size and holds the extents laid over its former content cut or extended to that size |
| SparseCodec.AcceptedStream | internal/snapshotstore/sparsezstd.go:118-151 | Of any accepted stream: the output is as long as declared, every extent is inside it, and each byte is that of the last extent covering it, or zero |
| SparseCodec.OverlayBytes | internal/snapshotstore/sparsezstd.go:144-149 | Later extents win, and in-range ones never change the length |
| SparseCodec.ParsedInRange | internal/snapshotstore/sparsezstd.go:141-143 | Nothing is written out of bounds |
| SparseCodec.RangeCheckFits | internal/snapshotstore/sparsezstd.go:141-143 | Whatever bytes the stream has for size, offset and length, the range check accepts exactly the extents inside the file, and its subtraction stays within int64 |
| SparseCodec.RangeCheckIsExact | internal/snapshotstore/sparsezstd.go:141-143 | So for any int64 values |
| SparseCodec.HeaderBytes | internal/snapshotstore/sparsezstd.go:37-43 | In front of the compressed part are the twelve bytes ATESPRSE 02 00 00 00, whatever the file |
| SparseCodec.PayloadBytes | internal/snapshotstore/sparsezstd.go:58-95 | Compressed are the size, low byte first, the extents, and eight bytes FF |
| SparseCodec.ExtentLayout | internal/snapshotstore/sparsezstd.go:77-86 | An extent is its offset and its length, eight bytes each and low byte first, and its data |
| SparseCodec.ParsedIsPrinted | internal/snapshotstore/sparsezstd.go:129-150 | What the parser accepts is what would be printed for the extents it found, and the sentinel |
| SparseCodec.DataExtentsExact | internal/snapshotstore/sparsezstd.go:62-92 | A byte is written exactly if it lies in a data region |
| Bytes.Int64RoundTrip | internal/snapshotstore/sparsezstd.go:77-82 | A little-endian int64, the negative sentinel included, is read back as written |
| Bytes.LittleEndianRoundTrip | internal/snapshotstore/sparsezstd.go:41-43 | So is an unsigned integer that fits its bytes |
| Bytes.ZeroWord | internal/snapshotstore/codec.go:133-137 | A little-endian word is zero exactly when all its bytes are |
| Bytes.LittleEndianDigit | internal/snapshotstore/sparsezstd.go:41-43 | The byte at i is the digit of 256 to the i |
| Bytes.DigitsRoundTrip | internal/snapshotstore/sparsezstd.go:104-107 | Any bytes are printed again by the number they are read as |
| Bytes.Int64Bytes | internal/snapshotstore/sparsezstd.go:77-95 | Minus one is eight bytes FF, and a number from zero on has its digits |
| Codec.AllZero | internal/snapshotstore/codec.go:131-144 | True exactly when every byte is zero |
| Codec.CopySparse | internal/snapshotstore/codec.go:99-129 | Skipping zero blocks leaves the same file as copying everything, and counts the bytes of the other blocks; fails exactly when the stream does |
| Codec.DecodeContent | internal/snapshotstore/codec.go:60-90 | Into a file: an object that starts with ATESPRSE goes through exactly when the rest parses, any other exactly when it decompresses cleanly, and the file then holds what the format says |
| Codec.DecodeToWriter | internal/snapshotstore/codec.go:60-97 | Into anything else: goes through exactly when the object does not start with ATESPRSE and decompresses cleanly |
| Codec.WriteContent | internal/snapshotstore/codec.go:23-37 | Sparse for a file, plain for any other reader, with the right sizes |
| Codec.ContentRoundTrip | internal/snapshotstore/codec.go:23-97 | Both kinds of object decode to the content they were made from, and are told apart by the magic |
| Codec.FrameIsNotSparse | internal/snapshotstore/codec.go:62-64 | A Zstandard frame (section 3.1.1 of RFC 8878) is never taken for a sparse stream |
| Codec.PopulatedBlocks | internal/snapshotstore/codec.go:99-129 | What is counted as written are the blocks of 64 KiB, the last one shorter, that are not all zero |
| SnapshotDir.DirectoryRoundTrip | internal/snapshotstore/store.go:42-111 | After an upload of a directory with a regular file other than a root manifest.json, a download goes through; the manifest names exactly those files, and each decodes to its content |
| SnapshotDir.DownloadRebuilds | internal/snapshotstore/store.go:75-111 | What a successful download leaves is exactly the uploaded files with equal contents |
| SnapshotDir.UploadDir | internal/snapshotstore/store.go:42-73 | The files as walked, then the manifest, are put in that order until the store fails; with a store that takes all puts it succeeds exactly when there is a regular file other than a root manifest.json; reports the bytes put so far, also when it fails |
| SnapshotDir.DownloadDir | internal/snapshotstore/store.go:75-111 | Goes through exactly when the manifest names files that all decode; without a manifest the directory is untouched; otherwise a failure leaves the files before the failing one and that one |
| SnapshotDir.ListRegularFiles | internal/snapshotstore/store.go:113-136 | Exactly the regular files but a root manifest.json, in the order walked |
| SnapshotDir.DownloadFile | internal/snapshotstore/store.go:187-208 | Succeeds exactly when the object is there and decodes, with the decoded content |
| SnapshotDir.ListedFiles | internal/snapshotstore/store.go:113-136 | The regular files but a root manifest.json, every one once, and no others |
| SnapshotDir.KeysApart | internal/snapshotstore/store.go:38-40 | Under one prefix different files have different keys, none of them the manifest's |
| SnapshotDir.NoKeyShared | internal/snapshotstore/store.go:33-40 | No file and no manifest of one sandbox has the key of a file or manifest of another, their ids being non-empty and without a slash |
| SnapshotDir.SandboxesApart | internal/snapshotstore/store.go:33-40 | From a key one can tell the sandbox and the name |
| SnapshotDir.PrefixesApart | internal/snapshotstore/store.go:33-36 | Two sandboxes have different prefixes |
| SnapshotDir.KeyLayout | internal/snapshotstore/store.go:33-40 | sandboxes/ID/NAME.zstd for a file, sandboxes/ID/manifest.json for the manifest |
| SnapshotDir.SlashIgnored | internal/snapshotstore/store.go:38-40 | A slash at the end of a prefix makes no difference |
| SnapshotDir.GoldenApart | internal/scheduler/scheduler.go:28 | No object of a sandbox has the key of an object of the golden template |
| SnapshotDir.ListedInOrder | internal/snapshotstore/store.go:113-136 | The files keep the order of the walk |
| SnapshotDir.UploadedSoFar | internal/snapshotstore/store.go:53-62 | After k files those are the new ones; the rest and the manifest are as before |
| SnapshotDir.InterruptedUpload | internal/snapshotstore/store.go:42-111 | An upload stopped before its manifest leaves something a download accepts if and only if an earlier manifest is there and each file it names was written now or could be read before |
| SnapshotDir.InterruptedUploadIsRefused | internal/snapshotstore/store.go:42-111 | On a fresh prefix a download after any strict prefix of the puts fails |
| SnapshotDir.InterruptedReuploadMixes | internal/snapshotstore/store.go:42-111 | On a used prefix with the same file names it goes through and returns new and old files mixed |
| Waves.PackWaves | hack/build-agent-semantic-dataset.py:352-410 | Waves are filled in order and none is skipped; a slot goes to another bucket only once its own, and every one before the stand-in's, is used up; no session is placed twice and none is forgotten; a list without repetitions comes back permuted, each bucket's sessions in their old order |
| Waves.PackWave | hack/build-agent-semantic-dataset.py:383-399 | A wave is short only when every bucket is empty |
| Waves.Packer.constructor | hack/build-agent-semantic-dataset.py:353-366 | Every session is in exactly the bucket it belongs to, in the order listed, dense ones in the first whatever their cohort |
| Waves.BucketsMean | hack/build-agent-semantic-dataset.py:353-366 | Dense sessions go to the first bucket, hard ones to the second, easy ones to the third, the rest to the last |
| Waves.BucketInOrder | hack/build-agent-semantic-dataset.py:353-366 | A bucket keeps the order of the list |
| Waves.PreferenceMeans | hack/build-agent-semantic-dataset.py:383-399 | Slot 0 is for dense sessions, 1 for hard, 2 for easy, 3 for the rest: once a slot went to another kind, none of its own kind comes later |
| Waves.Packer.Take | hack/build-agent-semantic-dataset.py:371-378 | A session of that bucket that was not used before, or none with the bucket run dry; no other bucket changes |
| Waves.Packer.TakeFor | hack/build-agent-semantic-dataset.py:385-393 | A session of the preferred bucket, or of another once that one and every bucket before the other are dry; none only when all are |
| Waves.ReplayKept | hack/build-agent-semantic-dataset.py:352-378 | After any pops every listing is taken once, dropped as a repetition, or still in its bucket |
| Waves.NothingLeft | hack/build-agent-semantic-dataset.py:403-410 | When the loop ends the buckets are empty and every session has its place |
| Waves.WaveCount | hack/build-agent-semantic-dataset.py:380-401 | There are exactly ceil(n/4) waves and all but the last hold four |
| Waves.AssignArrivals | hack/build-agent-semantic-dataset.py:413-421 | Fails exactly when some wave has no busy minute; otherwise each session arrives 60 s times its wave's minute after 2019-07-01, plus 5 s a slot |
| Waves.ArrivalsIncrease | hack/build-agent-semantic-dataset.py:413-421 | With strictly increasing busy minutes packed sessions arrive strictly one after another |
| Waves.DeriveSpans | hack/build-agent-semantic-dataset.py:168-216 | One model wait for each assistant message and one tool loop for each call, ending idle; the spans tile the session's time, each as long as its phase allows (2 to 8 s, 0.1 to 1.5 s, 0.2 to 0.8 s), each tool loop at most half its turn's wait, and the trace lists the tool starts |
| Waves.Turn | hack/build-agent-semantic-dataset.py:181-207 | One assistant message adds its wait and its tool loops, in order |
| Waves.OneSpanAt | hack/build-agent-semantic-dataset.py:168-216 | Every moment of a tiled session lies in exactly one span |
| Waves.SampleTool | hack/build-agent-semantic-dataset.py:155-161 | Between 100 and 1500 ms and at most half of the wait |

## Left out

What the protocol's theorems assume, because the code does not enforce it or it is outside the model:

- At most one Resume for a sandbox id is in flight at a time, and it starts from a record that is suspended or paused; the code re-reads the record but does not check its state again.
- Worker crashes and restarts, and RPC replies that are lost after the request took effect. Requests that fail are in: refused or failed boots and restores, failed and partial downloads, checkpoints that fail and leave the image directory as it was, cleared or with part of an image, uploads that fail before their first put or tear, deletes of a running sandbox or of a golden boot, and the record writes after a restore and of the golden template.
- Store writes that fail are steps like any other, with one exception: a write that fails after its slot was given back, which is the record after a checkpoint and the removal of a record by a delete. Such a failure makes the record say running while the slot is empty (`ProtocolWitness.LostStopLeavesSlotEmpty`), and the theorems are about runs without it. Ids are not used again.
- EnsureGolden evicts only while its caller holds the knock mutex, as the comment on suspendLocked asks; the HTTP and startup entries, which do not hold it, appear without eviction.
- goldenMu is not modelled: any number of EnsureGolden calls may interleave, which is more than the code allows. Where the golden template is placed, and whom it evicts, is any Worker and any sandbox.
- Status answers and the running list are as true as the moment they are read; a Worker that does not answer is left out of the view.
- A checkpoint directory is empty or whole or partial, never looked into; an empty directory counts as absent.
- The retry conditions and the deadline of Resume: a Resume may leave or retry at any point before its reservation. That Resume terminates is not claimed.

Weaker than one might ask:

- ProtocolSafety.KeepsDelete: Delete's request to the Worker and its store write are one step, though the request may fail; in the code they are two, without a lock, and between them the record says running while the slot is empty.
- ProtocolSafety.KeepsHalt: the record write after a checkpoint does not fail, as said above.
- ProtocolSafety.KeepsRestore: does not model a record store that stores a record and reports a failure.
- SnapshotDir.DownloadDir: does not model the count of downloaded bytes, nor directories that cannot be created or removed.
- SnapshotDir.UploadDir: a put takes effect as a whole or not at all.
- Codec.DecodeContent: an object is a value in a map, so reading its header does not fail.
- WorkerAgent.Agent.HandleRestore: the way a download ends is an input; WorkerDownload.DownloadInto derives it from the object store, but for a directory that cannot be created.
- Policies.RandomPlace: the draw is any index, without the generator's state.

Not modelled:

- Times are real seconds with 0 as Go's zero time, and scores are reals: rounding, NaN and overflow of floats, and nanosecond arithmetic. The log1p curve of normalizePreempt is any function; only its clamp is used.
- zstd is any lossless encoding whose non-empty output starts with the frame magic; JSON is any faithful encoding of the list of names.
- Temporary files, fsync, file modes, nested directories beyond their relative names, and walk or read errors.
- Metrics, logs, decisions' reasons, CPU time and the other legacy profile fields, readers of Worker rows, and environment variables.
- HTTP, the Worker client, Redis, S3 and file-system stores, gVisor, cgroups, the pusher: plumbing. Records are a map as in internal/store/memory.go, objects a map from keys to bytes.
- The dataset builder's downloads, classifiers, cohorts, selection and YAML; argument digests and tool names of the trace.
