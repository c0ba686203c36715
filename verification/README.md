# BoostLock, verified

BoostLock raises CPU frequency floors through sysfs, holds the DMA-latency lock, and stimulates
cores with short pulses under a thermal guard. Everything it changes must come back. This project
models that as a reversible transaction over the machine with a feedback controller on top, and
proves what the program is for, or exactly when it holds: plans are applied in full or undone, a
restore works or says what it missed, a whole run gives back the machine it found, and a tripped guard
stops every pulse.

## How it is built

* **The machine** (`Kernel.dfy`). Sysfs is a finite map from resolved nodes to texts of tokens. Every
  attempt to preflight, write, open or close is decided by an `Oracle` and kept in a log; an attempt
  that fails changes nothing. `UndoWorks` says that compensating, releasing and restoring attempts
  succeed; theorems that need it name it, all others hold for any pattern of failures.
* **Specification and object.** Each step of the program is a function on values (`Execute`,
  `RestoreSnapshot`, `LockDevice`, `Update`, `Tick`, …). The classes carry the source's fields, loops
  and early returns, and each of their methods is proved to move the object exactly as its function
  says. The laws are proved about the functions, and the main ones
  say what a function does without naming it or its parts.
* **The layers.**
  `Policies`, `Planning`, `PlanLaws`, `FloorLaws`, `SysfsController`: discovery and planning.
  `PlanMeaning`, `PlanOrder`: what a plan writes, skips and opens, in terms of the request and the files.
  `Transaction`: preflight, apply, roll back.
  `PmQos`: the latency lock and its ledger.
  `Snapshot`, `CaptureLaws`, `SnapshotLaws`, `ReportLaws`, `HonestyLaws`, `StateManager`: capture and restore.
  `Daemon`, `DaemonLaws`, `RouteLaws`, `BoostLockDaemon`: the life cycle, and what a start puts in force.
  `RelockLaws`, `LockLaws`, `RunLaws`: which later locks can still be undone, and whole runs.
  `Bounds`, `RunBounds`: order of the frequency bounds at every attempt, and over whole runs.
  `Thermal`: spike filter and guard.
  `Duty`, `AdaptiveDutyController`, `Engine`, `EngineLaws`, `EngineMeaning`, `PulseEngine`: the feedback loop.
  `Bench`, `Sorting`: percentiles and sample conservation.
  `WillingRuns`, `Counterexamples`, `BoostCounterexample`: what the conditions of the main theorems
  exclude, first on any machine of a kind and then on a concrete one, and that runs meeting them exist.
  `Common`, `Arithmetic`: shared vocabulary.

Run `dafny verify dfyconfig.toml` in this directory.

## Where the code departs from its intent

* The executor's error names the first completed action instead of the failing one once it has rolled
  something back (boostlock/sysfs.py:522 and 528); the model reports the failing position.
* The guard calls its callbacks without the reading the daemon's callbacks take (boostlock/thermal.py:493,
  505, 522; boostlock/daemon.py:879-911), so trips and recoveries are free steps of the daemon here, and
  thermal safety rests on the clamp.
* A lock whose pulse engine fails to start leaves its transaction in force while the boost flag is off
  (boostlock/daemon.py:400-402); a second lock over the idle route then saves the disabling values as
  originals, and the stop leaves the idle states disabled. See `WillingRuns.LockLosesItsEngine` and
  `SecondLockForgets`, and `Counterexamples.LockCanLoseTheEngine` and `SecondLockForgetsIdleStates`.
* A controller thread that fails to start cannot be joined, so stopping the engine raises and leaves it
  STARTING (boostlock/engine.py:850-872).
* A governor requested after the start need not be captured (boostlock/sysfs.py:449-453), and then
  survives the stop. The exact condition is `FloorLaws.RelockCapturedExactly`; the runs are
  `WillingRuns.UncoveredGovernorStays` and `Counterexamples.UncoveredGovernorEscapes`.
* Until a second start, these are the only two ways a run whose undo writes are not refused can fail to
  give everything back: `RunLaws.WholeRunExactly` has the condition, which can be checked before a lock.
* A start issued while paused or throttled fails on the daemon's own PID lock, restores everything, and
  spends the snapshot (`RunLaws.StartDuringRun`).
* A trip while PAUSED loses the pause: the recovery leaves the daemon RUNNING (boostlock/daemon.py:886-911;
  `DaemonLaws.TripTakesEffect`).
* `lock` while THROTTLED starts the engine and leaves the daemon THROTTLED (boostlock/daemon.py:400-404).
* Restoring skips a shared node after its first success (boostlock/state.py:518-522), so two policies
  whose saved values for one node differ are not both honoured, and the second is not reported. For a
  snapshot the program takes this is about boost alone: boost files that differed and whose policies
  have come to share the global switch. `HonestyLaws.PlanSnapshotIsHonest` has the exact condition,
  `BoostCounterexample.BoostLostInSilence` a concrete loss.
* The legacy restore swallows a refused first bound and still writes the second, and never compares the
  saved bounds (`Bounds.LegacySafeExactly`).
* An out-of-range temperature repeats the last raw entry (`Counterexamples.SuppressedSpikeReturns`).
* The waveform lifts any positive duty to the minimum, so of small duties only zero is preserved; with a
  minimum of zero a drawn waveform can give an empty burst (`EngineLaws.PeriodIsExact`).
* A reconfiguration with a configured target that is not positive is refused when configuration, owners,
  targets and clamps are already new (boostlock/engine.py:899-909; `EngineLaws.RetuneKeepsInv`).
* Without known bounds the engine takes the request as it is, where planner and benchmark refuse
  (`Engines.EngineAgreesWithPlanner`).

## Model

| member | source | states |
|---|---|---|
| Kernel.IntegerTextRoundTrips | boostlock/sysfs.py:377-382 | a frequency that parses is written back as the very text that was read |
| Kernel.Machine.Attempt | boostlock/sysfs.py:584-592 | one open or write of the machine: logged, and effective on an existing node only when it succeeds |
| Policies.DiscoveryIsUnique | boostlock/sysfs.py:217-247 | each resolved directory gives exactly one policy, none is lost, and identifiers are distinct |
| Policies.FirstIsKept | boostlock/sysfs.py:225-236 | of the entries that resolve to one directory the first is kept |
| PlanMeaning.InventoryMeans | boostlock/sysfs.py:249-339 | what a directory is taken to be: its own name, CPUs and limits, each control with the node behind it, usable iff it has CPUs and its governor and both bounds can be read |
| Planning.TargetInsideLimits | boostlock/sysfs.py:549-569 | a resolved target is positive and inside both the hardware and the active interval |
| Planning.TargetIsNearest | boostlock/sysfs.py:549-569 | a target exists iff lower and upper limits are known and compatible; it is the allowed frequency nearest to the request, the largest when nothing is requested |
| Planning.TargetsCompose | boostlock/sysfs.py:549-569 | raising the floor to one target and resolving a second gives what the larger request would have given; repeating is idempotent and never lowers |
| Planning.UniqueNodesOnce | boostlock/sysfs.py:572-581 | preflight paths are exactly the given nodes, once each |
| PlanLaws.PlanIsWellFormed | boostlock/sysfs.py:413-484 | a plan exists iff a policy is usable; nodes are distinct, originals current, every wanted control is served, and every optional control is planned or has a skip reason, never both |
| PlanLaws.ExactlyOneFloor | boostlock/sysfs.py:445-461 | a usable policy with compatible bounds gets exactly one minimum-frequency action, with its resolved target; any other policy gets none |
| PlanLaws.BoostPlannedOnce | boostlock/sysfs.py:463-476 | a boost switch wanted by any number of policies, shared or not, is written by exactly one action |
| PlanLaws.PlanWritesWantedNodes | boostlock/sysfs.py:413-484 | a plan writes a node iff it is the node of a control some discovered policy wants |
| PlanMeaning.PlanExists | boostlock/sysfs.py:413-444 | a plan exists iff some kept directory has CPUs, a governor that reads and two bounds that parse |
| PlanMeaning.PlanMeansRequest | boostlock/sysfs.py:413-484 | a plan writes a value to a node iff some usable directory asks for it: 1 or 0 to the boost switch and cpb as requested, the requested tokens to the preference, the requested governor where it is available and a target resolves, the target to the minimum |
| PlanMeaning.SkipsMeanReasons | boostlock/sysfs.py:413-479 | a control is reported as skipped for a reason iff that reason holds of its directory: no node, an unusable one, an unusable policy, unknown limits, an unavailable governor, nothing requested, or a switch planned before |
| PlanMeaning.PreflightMeans | boostlock/sysfs.py:478-484 | the plan preflights exactly the nodes it writes and the extra ones it was given, once each |
| PlanOrder.PlanIsInOrder | boostlock/sysfs.py:445-479 | actions follow the order of discovery and, in one directory, governor, minimum, boost, cpb, preference |
| PlanOrder.DiscoveryInOrder | boostlock/sysfs.py:225-247 | policies come in the order of their directory entries |
| FloorLaws.FloorsCompose | boostlock/sysfs.py:549-569 | after a plan has been applied, planning another request gives every policy the floor the larger request would have given; it never drops below the floor in force |
| FloorLaws.ReplanIsIdempotent | boostlock/sysfs.py:413-484 | planning the same request after applying it plans only values already in place, for every control |
| FloorLaws.RelockCapturedExactly | boostlock/sysfs.py:413-484 | in the tree a start has left, a later request, whatever its target, plans captured nodes only iff its governor is covered |
| SysfsControllers.SysfsController.DiscoverCpufreqPolicies | boostlock/sysfs.py:217-247 | the discovery loop with its set of seen directories keeps the first candidate of each directory and inventories exactly those |
| SysfsControllers.SysfsController.UniquePaths | boostlock/sysfs.py:572-581 | the loop returns each resolved path once, in order of first occurrence, and loses none |
| SysfsControllers.SysfsController.PlannedPolicyAction | boostlock/sysfs.py:533-546 | an action records the current value of its node; a missing path and an unreadable original are separate errors |
| SysfsControllers.SysfsController.PlanUsablePolicy | boostlock/sysfs.py:445-479 | the per-policy planning steps, in the source's order, extend the draft as specified |
| SysfsControllers.SysfsController.BuildPolicyApplyPlan | boostlock/sysfs.py:413-484 | the whole planning loop computes the specified plan, or fails exactly when no policy is usable |
| Transaction.PreflightWritesNothing | boostlock/sysfs.py:486-503 | preflighting writes no node, and names the first path it cannot open |
| Transaction.PreflightReports | boostlock/sysfs.py:486-503 | the paths are opened in order, one attempt each, up to the first that is refused, which is the one reported |
| Transaction.WritesInOrder | boostlock/sysfs.py:513-518 | files are written in the order of the actions, one attempt each, up to the first that is refused |
| Transaction.RollbackInReverse | boostlock/sysfs.py:519-526 | every completed file action is attempted back once, the last first, whatever is refused on the way |
| Transaction.RollbackListsRefusals | boostlock/sysfs.py:519-531 | the rollback lists a node iff its compensating write, or the close of the descriptor, was refused |
| Transaction.ExecuteOpensFirst | boostlock/sysfs.py:505-531 | whatever an execution writes, forward or back, it has opened before it wrote anything, the device it comes to hold included |
| Transaction.ExecuteIsAtomic | boostlock/sysfs.py:505-531 | for any failures and whatever the latency lock holds: a refused preflight writes nothing, success puts every value in force, a rollback restores every node but the listed ones, and nodes outside the plan never change; only the saved nodes of a fallback held under the device route are excepted |
| Transaction.RollbackReportIsExact | boostlock/sysfs.py:517-531 | after a rollback a file differs from before iff it is listed and an action of the plan changes its value |
| Transaction.ListedNodeKeepsPlannedValue | boostlock/sysfs.py:517-531 | a listed file still holds the value an applied action wrote |
| Transaction.AllOrNothing | boostlock/sysfs.py:505-531 | when compensation is not refused, a plan is applied in full or leaves every node as it was, the same exception apart; from an idle latency lock there is none, and the lock stays idle |
| Transaction.ExecuteSettles | boostlock/daemon.py:835-866 | a transaction that stays off the saved idle states keeps a held fallback as it is when it applies, and otherwise keeps it or gives its states back |
| Transaction.TransactionExecutor.WriteOne | boostlock/daemon.py:835-866 | the transaction writer: lock or strict release on the device route, a plain write otherwise, and a failed lock is released before it is reported |
| Transaction.TransactionExecutor.PreflightPolicyApplyPlan | boostlock/sysfs.py:486-503 | paths are opened in order until the first refusal |
| Transaction.TransactionExecutor.WriteForward | boostlock/sysfs.py:514-518 | actions are written in order, and the completed ones are exactly the prefix before the first failure |
| Transaction.TransactionExecutor.CompensateInReverse | boostlock/sysfs.py:519-526 | originals are written back last action first, and every refusal is collected |
| Transaction.TransactionExecutor.ExecutePolicyApplyPlan | boostlock/sysfs.py:505-531 | preflight, forward writes and compensation together make the specified transaction |
| PmQos.WriteBackEverySaved | boostlock/pm_qos.py:307-316 | a release attempts one write for each saved node, in order, whatever fails, and touches nothing else |
| PmQos.LockMeans | boostlock/pm_qos.py:97-154 | a latency out of range is refused before anything; a held descriptor is asked for the new latency, and the lock stays held whatever comes of it; otherwise the device is opened, asked, and closed again if it refuses, and nothing else is attempted |
| PmQos.ReleaseMeans | boostlock/pm_qos.py:294-320 | a release leaves everything idle, closes the descriptor iff one is held, and fails iff it is strict and that close is refused |
| PmQos.LockKeepsLedger | boostlock/pm_qos.py:97-154 | a lock keeps the ledger, a failed one holds nothing new, and none changes a sysfs node |
| PmQos.ReleaseKeepsLedger | boostlock/pm_qos.py:294-320 | a release, strict or not, holds nothing afterwards and writes exactly the saved nodes back |
| PmQos.LedgerOverAnyRun | boostlock/pm_qos.py:97-320 | over any calls, with the fallback activated only while unlocked: locked iff exactly one of descriptor and fallback is held, and opened descriptors less close attempts is one or zero accordingly |
| PmQos.UndisciplinedActivationBreaksLedger | boostlock/pm_qos.py:235-242 | activating the fallback while locked breaks the ledger or forgets the values saved first |
| PmQos.PmQosController.Lock | boostlock/pm_qos.py:97-154 | the device route: range check, update of a held descriptor, open, write, and close again when the write fails |
| PmQos.PmQosController.ActivatePlannedFallback | boostlock/pm_qos.py:235-242 | records an applied fallback and what it saved |
| PmQos.PmQosController.Release | boostlock/pm_qos.py:294-320 | closes the descriptor, writes every saved state back, clears the records, and reports a failed close only when strict |
| CaptureLaws.SnapshotHoldsPlan | boostlock/state.py:244-289 | a snapshot taken after planning holds every planned control with the value its node held, under the identifier and the CPUs of its policy, and nothing else |
| CaptureLaws.EntriesOfActions | boostlock/state.py:262-282 | whatever the actions: a live policy has an entry iff an action belongs to it, also when no value of it could be captured |
| CaptureLaws.PlanOwnersDistinct | boostlock/sysfs.py:413-484 | no plan owns one control of one policy twice |
| SnapshotLaws.RestoreIsHonest | boostlock/state.py:459-578 | under any refused writes and vanished policies every saved control ends at its saved value or is covered by an error of its own policy; other nodes do not change |
| ReportLaws.ErrorsHaveReasons | boostlock/state.py:459-578 | and every error is true: the policy is not live, or its saved bounds are out of order or meet unknown limits, or a saved value has no node, its node is gone, or its restoring write was refused |
| SnapshotLaws.HonestExactlyOnAgreement | boostlock/state.py:492-522 | with nothing refused, a restore is honest iff saved controls that share a node agree |
| SnapshotLaws.RestoreWorks | boostlock/state.py:459-578 | with every policy live and no write refused, a restore reports nothing |
| SnapshotLaws.SharedNodeWrittenOnce | boostlock/state.py:510-522 | an optional node is written successfully at most once per restore, however many policies share it |
| HonestyLaws.PlanSnapshotIsHonest | boostlock/state.py:459-578 | the snapshot of any plan, restored in any rediscovered tree under any refusals: if saved boosts that have come to share the switch agree, every captured control ends at its value or is covered by an error of its own policy, and nothing else changes; exact when every captured control is live and nothing is refused |
| HonestyLaws.AgreementIsAboutBoost | boostlock/state.py:510-522 | in a rediscovered tree, saved controls sharing a node agree iff saved boosts sharing the global switch do |
| HonestyLaws.SameLayoutAgrees | boostlock/state.py:459-522 | while no node has come or gone, what a plan captured agrees |
| HonestyLaws.FailedDiscoveryReportsAll | boostlock/state.py:459-490 | a discovery that fails writes nothing and reports every captured control |
| HonestyLaws.SharedBoostLosesAValue | boostlock/state.py:510-522 | two boost files that differed and whose policies now share the switch: nothing is reported, and one value is lost |
| StateManagers.StateSnapshotManager.CreatePolicySnapshot | boostlock/state.py:244-289 | the capture loop over the actions records the specified snapshot |
| StateManagers.StateSnapshotManager.WriteLivePolicyPath | boostlock/state.py:574-578 | a vanished path fails without an attempt, a live one is written |
| StateManagers.StateSnapshotManager.RestorePolicyBounds | boostlock/state.py:524-555 | which bounds are written, in which order, and which combinations are refused |
| StateManagers.StateSnapshotManager.RestorePolicyValue | boostlock/state.py:557-572 | one captured control is written or reported |
| StateManagers.StateSnapshotManager.RestoreOnePolicy | boostlock/state.py:492-522 | bounds, governor and optional controls of one policy, each error collected and shared nodes skipped |
| StateManagers.StateSnapshotManager.RestorePolicySnapshot | boostlock/state.py:459-490 | every saved policy is restored through rediscovered nodes, a missing one is reported, and the snapshot is cleared |
| Bounds.PlanKeepsOrder | boostlock/sysfs.py:445-461 | every plan built in an ordered tree writes only floors that stay under the policy's maximum |
| Bounds.ExecuteKeepsBoundsOrdered | boostlock/sysfs.py:505-531 | at every attempt of applying and rolling back such a plan, however it ends and whatever the latency lock holds, each policy's minimum stays at or below its maximum, which does not move |
| Bounds.RestoreBoundsSafe | boostlock/state.py:524-555 | restoring one policy's bounds proposes ordered bounds at every attempt, from any ordered state and whatever fails |
| Bounds.RestoreKeepsBoundsOrdered | boostlock/state.py:459-578 | the same for a whole restore through freshly discovered policies, for any snapshot whose bounds fit; a maximum that was not saved does not move |
| Bounds.AdaptiveOrderIsNeeded | boostlock/state.py:547-555 | of the two orders the restore chooses from, the chosen one is always ordered, and each fixed one exactly on a stated condition |
| Bounds.NoFixedOrder | boostlock/state.py:547-555 | each fixed order proposes unordered bounds for some saved bounds |
| Bounds.LegacySafeExactly | boostlock/state.py:381-401 | the legacy restore of one CPU, from ordered bounds: every attempt stays ordered iff the saved bounds fit the current ones, in terms of whether its first write is accepted, refused or denied |
| RunBounds.TransactionKeepsBoundsOrdered | boostlock/daemon.py:760-810 | the daemon's own transaction keeps every ordered policy ordered at every attempt, on every route and however it ends |
| RunBounds.PlanSnapshotSavesFloors | boostlock/state.py:244-289 | a snapshot taken in an ordered tree saves no maximum, and only floors that are positive and at most the maximum |
| RunBounds.PlanSnapshotKeepsBoundsOrdered | boostlock/state.py:459-578 | restoring it wherever only captured nodes and idle states have drifted keeps every ordered policy ordered at every attempt |
| RunBounds.RunKeepsBoundsOrdered | boostlock/daemon.py:261-413 | over any run of all commands with any failures, every attempt keeps every ordered policy ordered and its maximum never moves, as long as restores have a snapshot in memory |
| RunBounds.WholeRunKeepsBoundsOrdered | boostlock/daemon.py:261-413 | from rest: a start that succeeds, any commands and a stop keep every ordered policy ordered at every attempt |
| DaemonLaws.TransactionOutcome | boostlock/daemon.py:760-810 | the startup transaction changes only planned nodes and idle states it saved; a failed one holds no lock and, with working compensation, changes nothing |
| RouteLaws.RouteInForce | boostlock/daemon.py:760-866 | from an idle latency lock, a transaction that applies with the device present ends with the lock held by a descriptor whose opening and whose write of the configured latency were granted and came last; without it, every readable idle state of index one and deeper holds 1 and is on record with its earlier value, and the lock stays idle iff there is none |
| RouteLaws.RequestApplied | boostlock/daemon.py:760-822 | every file a usable directory is asked to change holds the requested value |
| RouteLaws.BoostSwitchedOn | boostlock/daemon.py:812-822 | in particular every boost switch and cpb file of a usable directory holds 1 |
| RouteLaws.TransactionOpensFirst | boostlock/daemon.py:797-833 | the transaction opens every file it is going to write, and the device if it is going to hold it, before it writes anything |
| RouteLaws.StartPutsInForce | boostlock/daemon.py:261-312 | a start that succeeds ends with the request in force, the latency lock of its route held, and flag, engine, guard and server up |
| RouteLaws.LockPutsInForce | boostlock/daemon.py:395-404 | and so does a lock that succeeds while nothing is held; it stays THROTTLED if it was |
| Daemons.FallbackPathsRead | boostlock/pm_qos.py:212-233 | a planned fallback covers exactly the readable idle states of index one and deeper |
| DaemonLaws.LockAgrees | boostlock/daemon.py:395-404 | a lock keeps flag, engine and latency lock in agreement iff the engine does not fail after the transaction was applied |
| DaemonLaws.AgreementOverAnyRun | boostlock/daemon.py:325-413 | in every state between commands: not locked implies engine stopped and lock released; locked and RUNNING implies engine running; locked and PAUSED implies engine paused |
| DaemonLaws.AgreementEndsWithTheEngine | boostlock/daemon.py:395-413 | the first engine failure after an applied transaction is exactly where the agreement first fails |
| DaemonLaws.PauseTakesEffect | boostlock/daemon.py:379-385 | a pause of a RUNNING daemon ends PAUSED with the engine of a locked one paused, and a resume gives the very daemon back; in any other state it changes nothing |
| DaemonLaws.ResumeTakesEffect | boostlock/daemon.py:387-393 | the same for a resume of a PAUSED daemon |
| DaemonLaws.TripTakesEffect | boostlock/daemon.py:886-911 | after a trip the daemon is THROTTLED and no engine runs; the recovery after it leaves it RUNNING, which gives it back iff it was RUNNING |
| DaemonLaws.RecoveryTakesEffect | boostlock/daemon.py:899-911 | a recovery resumes a THROTTLED daemon and its engine, and changes no other |
| DaemonLaws.UnlockTakesEffect | boostlock/daemon.py:406-413 | an unlock stops the engine, clears the flag, releases the latency lock, gives saved idle states back and touches no other node |
| RelockLaws.RelockStaysCaptured | boostlock/daemon.py:760-822 | while only captured nodes have drifted, a later plan for a covered governor writes captured nodes only |
| RelockLaws.RestoreReturns | boostlock/state.py:459-578 | restoring the snapshot of the first plan gives back every node as it was |
| LockLaws.SparingUndoable | boostlock/daemon.py:760-810 | a transaction that applies and spares the records leaves everything undoable |
| LockLaws.UnsparingLeavesTraces | boostlock/daemon.py:760-810 | one that applies and does not spare them cannot be undone in full |
| LockLaws.FailureUndoable | boostlock/daemon.py:760-810 | one that fails leaves everything undoable, whatever the latency lock held |
| RunLaws.FailedStartIsClean | boostlock/daemon.py:278-323 | a start that fails after the PID lock leaves nodes, latency lock, PID lock and flags as before; the state is STOPPED for sysfs errors and ERROR otherwise |
| RunLaws.WholeRunRestores | boostlock/daemon.py:261-413 | after a start, any commands, failing ones and lost engines included, in which the locks that apply spare the records, and a stop: every node holds its value from before the start and nothing is held |
| RunLaws.WholeRunExactly | boostlock/daemon.py:261-413 | the condition is exact: after any such run, a lock and a stop give every node back iff that lock, should it apply, changes captured nodes only and replaces no fallback that saved an enabled state |
| RunLaws.OrdinaryRunRestores | boostlock/daemon.py:261-413 | whole-run restoration for commands that can be judged one by one: engines that start and covered governors |
| RunLaws.SnapshotNeverReplaced | boostlock/daemon.py:282-286 | until the next start or stop, no command replaces the snapshot, whatever fails |
| RunLaws.StartDuringRun | boostlock/daemon.py:274-323 | a start while paused or throttled gives everything back, ends in ERROR and spends the snapshot |
| BoostLockDaemons.BoostLockDaemon.SelectPlannedRoute | boostlock/pm_qos.py:197-233 | the device when it exists, else the readable idle states from index one, else no route |
| BoostLockDaemons.BoostLockDaemon.DiscoverFallbackPaths | boostlock/pm_qos.py:212-233 | the loop over idle states collects the specified paths |
| BoostLockDaemons.BoostLockDaemon.ApplyStartupPolicyTransaction | boostlock/daemon.py:760-810 | appends the route's actions, executes them as one transaction, and activates the fallback only after success |
| BoostLockDaemons.BoostLockDaemon.EmergencyRollback | boostlock/daemon.py:913-940 | every cleanup runs in order, and the final state is set |
| BoostLockDaemons.BoostLockDaemon.Start | boostlock/daemon.py:261-323 | the start sequence and which failure leads to which rollback |
| BoostLockDaemons.BoostLockDaemon.Stop | boostlock/daemon.py:325-377 | engine, guard, latency lock, restore, server and PID lock, whatever fails on the way |
| BoostLockDaemons.BoostLockDaemon.Lock | boostlock/daemon.py:395-404 | one transaction, then the engine, then the flag; a failure leaves exactly what the specification says |
| BoostLockDaemons.BoostLockDaemon.Unlock | boostlock/daemon.py:406-413 | the engine stops before the latency lock is released |
| BoostLockDaemons.BoostLockDaemon.OnThermalTripwire | boostlock/daemon.py:886-897 | a trip pauses the engine and throttles the daemon, in any state |
| BoostLockDaemons.BoostLockDaemon.OnThermalRecovery | boostlock/daemon.py:899-911 | a recovery resumes a throttled daemon, and no other |
| Thermal.MajorityRulesMedian | boostlock/thermal.py:115-115 | when strictly more than half of the window lies in a range so does the median, for odd and even windows |
| Thermal.HistoryIsLastInRange | boostlock/thermal.py:103-113 | after any readings the history is the last window of in-range readings |
| Thermal.FilterIsSound | boostlock/thermal.py:103-115 | the output stays in the accepted range, and an in-range reading under a majority in some range comes out in that range |
| Thermal.MedianIsMiddle | boostlock/thermal.py:115-115 | the median is the mean of the two samples of middle rank, which are one in a window of odd length |
| Thermal.LatchIsHistory | boostlock/thermal.py:486-528 | after any temperatures with changing thresholds: tripped iff some reading reached its limit and none since released the latch; the clamp is zero iff tripped and else in (0, 1]; notices alternate, a trip first |
| Thermal.GuardIsCurrent | boostlock/thermal.py:486-528 | after any readings, by the last one: while tripped nothing is allowed; otherwise, at or above the warning, the state is WARNING and the clamp times the width of the zone, or 0.0001, is the distance from the limit; below it, and just after a recovery, the state is NORMAL and the clamp is one |
| Thermal.WarnClampIsLinear | boostlock/thermal.py:513-518 | between warning and limit the clamp is proportional to the distance from the limit, over the width of the zone or 0.0001; it never rises with the temperature, and is one at the warning iff the zone is that wide |
| Thermal.DutyClampSafe | boostlock/thermal.py:546-557 | the clamped duty is zero iff tripped or not requested, never negative, never more than requested |
| Thermal.DutyIsShared | boostlock/thermal.py:546-557 | so the duty allowed is, after any readings, the requested one in that same share |
| Thermal.SpikeFilter.AddSample | boostlock/thermal.py:103-115 | appending, dropping the oldest, rejecting impossible values |
| Thermal.ThermalGuard.UpdateState | boostlock/thermal.py:486-528 | one evaluation moves state, latch and clamp as specified and says which callback it makes |
| Thermal.ThermalGuard.CalculateDutyClamp | boostlock/thermal.py:546-557 | the clamp applied to a requested duty |
| Duty.NonInterference | boostlock/engine.py:333-382 | for any interleaving over many policies, one policy's duty, counters and outputs are those of a controller that knows only it |
| Duty.UpdateMeans | boostlock/engine.py:341-382 | one update: the average is the total shared over the samples; at the load threshold or without thermal allowance the duty is kept and zero returned; else it goes one step up to max on a shortfall of more than 20000 kHz and half a step down to min otherwise, and is returned scaled |
| Duty.UpdateObserved | boostlock/engine.py:333-382 | an update moves its own policy by that step, with the fallback target and a fresh state for a new one, and leaves every other policy, the settings and the fallback as they were |
| Duty.RetargetObserved | boostlock/engine.py:258-276 | accepted targets judge every policy from then on, which keeps its state if it had one; the legacy policy is kept if it is among them, else the first, and its target is the fallback |
| Duty.TuneObserved | boostlock/engine.py:896-916 | new duty limits and step leave every state, target and the yielding threshold alone; a reset gives every policy a fresh state and keeps its target |
| Duty.DutyStabilises | boostlock/engine.py:341-382 | the returned duty is in [0, max] for any state; each update below the load threshold with a positive clamp keeps a duty in range or brings it there or half a step closer |
| Duty.ShortfallExactly | boostlock/engine.py:354-371 | a policy falls short iff it has samples and they sum to less than 20000 kHz under target each |
| Duty.OutputScales | boostlock/engine.py:381-382 | for any duty and clamp an acting update returns the new duty scaled by the clamp, never up, inside [0, max] |
| Duty.CountersAreExact | boostlock/engine.py:351-358 | sample and compliance counts are exact over any updates, also those that yield |
| Duty.ShortfallClimbs | boostlock/engine.py:371-375 | under a lasting shortfall the duty after n updates is the smaller of max and start plus n steps |
| Duty.ComplianceDescends | boostlock/engine.py:376-380 | under steady compliance it is the larger of min and start less n half steps |
| Duty.CrowdClimbs | boostlock/engine.py:258-382 | the same among interleaved updates of other policies and target replacements that keep this policy's target: max is reached within the stated number of own updates |
| Duty.CrowdDescends | boostlock/engine.py:258-382 | and min likewise |
| DutyControllers.AdaptiveDutyController.SetPolicyTargets | boostlock/engine.py:258-276 | refusal, kept states, and the legacy policy and fallback target that follow |
| DutyControllers.AdaptiveDutyController.UpdateSamples | boostlock/engine.py:316-382 | one update of the object is one step of the specified controller, and returns its output |
| DutyControllers.AdaptiveDutyController.UpdateOne | boostlock/engine.py:300-314 | a single sample goes to the named policy or to the legacy one |
| DutyControllers.AdaptiveDutyController.Reset | boostlock/engine.py:384-390 | every known policy starts afresh |
| Engines.ResolveCovers | boostlock/engine.py:736-781 | every selected core has an owner inside the target map, which is never empty; a target configured by name is taken as it is, every other one is positive |
| Engines.OwnersListTheCore | boostlock/engine.py:749-779 | a core is owned by a discovered policy that lists it, or by one of its own exactly when there is none |
| EngineMeaning.CoreMeans | boostlock/engine.py:736-814 | the last discovered policy that lists a core and has a target owns it, held to what is configured by name, else to its own bounds, else to the request; a core without one is its own policy at the configured target or 4 GHz |
| EngineMeaning.OnlyCoresAreAimedAt | boostlock/engine.py:749-781 | every target belongs to a selected core, and without any there is only the default one |
| Engines.EngineAgreesWithPlanner | boostlock/engine.py:790-814 | planner and engine resolve the same target iff the bounds are known or nothing is requested |
| EngineLaws.RetuneAcceptedExactly | boostlock/engine.py:258-276 | a reconfiguration is accepted iff no resolved target is configured as not positive |
| EngineLaws.RetuneKeepsInv | boostlock/engine.py:896-916 | an accepted reconfiguration puts every worker's policy in the new target map, even after a refused one; a refused one keeps workers on their cores and the clamps in range |
| EngineMeaning.BuiltMeans | boostlock/engine.py:636-700 | a new engine: the resolved targets, no local clamp, yielding at a load of 25, every policy at the least duty |
| EngineMeaning.StartMeans | boostlock/engine.py:823-857 | one new worker per selected core, in order, with its owner and its target, and the turn at the first |
| EngineMeaning.ClampMeans | boostlock/engine.py:816-821 | the clamp of one known policy is set inside [0, 1], and nothing else |
| EngineMeaning.RetuneMeans | boostlock/engine.py:896-916 | an accepted reconfiguration: policies are judged by the new targets under the new settings in the state they were in, clamps stay with their policies, workers keep core and duty and follow the new owner |
| EngineMeaning.RefusedRetuneMeans | boostlock/engine.py:896-909 | a refused one has replaced configuration, owners, targets and clamps, and left controller and workers |
| EngineLaws.CommandKeepsInv | boostlock/engine.py:816-990 | starting, stopping, clamping, reconfiguring and ticking keep workers, owners, targets, clamps and controller consistent |
| EngineLaws.TrippedGuardStopsEveryBurst | boostlock/engine.py:918-990 | after any engine commands and temperatures, a tick that reads a tripped guard leaves every worker without a burst, whatever the waveform |
| EngineMeaning.TickUpdatesOnce | boostlock/engine.py:940-975 | a tick updates every policy once, in whatever order: with the readings of its own workers alone, under the stricter of the guard's clamp and its own, with the external load |
| EngineLaws.TickDealsDuty | boostlock/engine.py:976-987 | without turns every worker of a targeted policy gets its duty, inside [0, 100]; with turns the one whose turn it is gets it and the others nothing |
| EngineLaws.PeriodIsExact | boostlock/engine.py:522-558 | a worker has a period of its own iff it is not paused and has a positive duty; burst and rest fill it and the burst respects both duty limits; the burst is positive unless the minimum is zero and the waveform drawn, or the maximum is zero |
| EngineLaws.PlainPeriod | boostlock/engine.py:522-545 | without a waveform the burst is the duty's share of the period and the rest fills it |
| EngineLaws.WaveformShapes | boostlock/engine.py:117-143 | a square wave is its base, a triangular wave runs between its base and the maximum and reaches both |
| EngineLaws.TriangleRisesAndFalls | boostlock/engine.py:126-133 | the triangular wave never falls in the first half of its period and mirrors it in the second |
| EngineLaws.WaveAt | boostlock/engine.py:117-143 | a drawn wave is what was drawn, inside the duty limits; a triangular one is at every moment on the straight line between base and maximum, up in the first half of the period and down in the second |
| EngineLaws.TickGivesOneTurn | boostlock/engine.py:976-984 | with turns, a tick gives a positive duty to exactly the worker whose turn it is |
| EngineLaws.TurnMovesOn | boostlock/engine.py:976-979 | the turn moves on by one, cyclically, whatever other policies do |
| EngineLaws.EveryWorkerOncePerRound | boostlock/engine.py:976-984 | in any n consecutive ticks with positive duty each of a policy's n workers has exactly one turn |
| PulseEngines.PulseWorker.RunOnePeriod | boostlock/engine.py:522-563 | counters of pulses, burst time and rest time move exactly by the period's burst and rest |
| PulseEngines.PulseEngine.ResolvePolicyTargets | boostlock/engine.py:736-781 | the two loops over policies and cores compute the specified owners and targets |
| PulseEngines.PulseEngine.Start | boostlock/engine.py:823-857 | a running engine stays as it is; otherwise one new worker per selected core, with its owner's policy and target, and the status the threads leave |
| PulseEngines.PulseEngine.Stop | boostlock/engine.py:859-876 | workers are cleared and the engine stopped, unless its controller thread never started |
| PulseEngines.PulseEngine.Pause | boostlock/engine.py:878-885 | a running engine and all its workers pause, and no other does |
| PulseEngines.PulseEngine.Resume | boostlock/engine.py:887-894 | a paused engine and all its workers resume, and no other does |
| PulseEngines.PulseEngine.Reconfigure | boostlock/engine.py:896-916 | targets, clamps, controller and workers follow the new configuration; targets that are not all positive are refused midway |
| PulseEngines.PulseEngine.SetPolicyThermalClamp | boostlock/engine.py:816-821 | a policy-local clamp changes that policy alone; an unknown one is refused |
| PulseEngines.PulseEngine.Collect | boostlock/engine.py:940-959 | every frequency is filed under its own worker's policy and no other |
| PulseEngines.PulseEngine.ServePolicy | boostlock/engine.py:962-987 | one policy's duty is updated and handed to its workers, or to the active one alone |
| PulseEngines.PulseEngine.ControlTick | boostlock/engine.py:918-990 | one iteration of the closed loop is the specified tick, for workers, controller and turns |
| Bench.PercentileInRange | boostlock/bench.py:116-131 | every percentile lies between the smallest and the largest sample |
| Bench.PercentileBetweenNeighbours | boostlock/bench.py:124-131 | a percentile lies between the two samples next to its rank |
| Bench.PercentileAtRank | boostlock/bench.py:124-131 | at a whole rank the percentile is the sample of that rank |
| Bench.PercentileExactly | boostlock/bench.py:116-131 | for a whole percentage, in integers: the point between two samples in hundredths of the last index, its fraction dropped towards zero |
| Bench.PercentileGrows | boostlock/bench.py:116-131 | the interpolated and truncated percentile never falls when the percentage rises, also across segments |
| Bench.ResultInOrder | boostlock/bench.py:348-407 | min, p50, p90, p99 and max of a result are in order, min and max are samples and bound all of them |
| Bench.ResultReports | boostlock/bench.py:348-407 | the percentages behind p50, p90 and p99, over the result's own samples in order, and zeros without a sample |
| Bench.MeanIsExact | boostlock/bench.py:382-402 | mean and compliance, added up once per sample, give the total and the number of samples at target |
| Bench.MeanAndCompliance | boostlock/bench.py:382-402 | the mean lies between min and max, and compliance is a share, full iff every sample meets the target |
| Bench.ThreeResolveAlike | boostlock/bench.py:287-312 | planner, benchmark and engine resolve the same target wherever bounds are known; elsewhere planner and benchmark refuse |
| Bench.VerdictMeans | boostlock/bench.py:287-312 | which reason goes with which change of the request |
| Bench.ResolvedMeans | boostlock/bench.py:249-268 | the groups are exactly the policies with a target, at that target, with their own CPUs |
| Bench.OnlineMeans | boostlock/bench.py:269-285 | without any, each online CPU is a group, at the requested target or 4 GHz |
| Bench.GroupResultMeans | boostlock/bench.py:314-346 | a group is judged by its own target over the readings of its own CPUs |
| Bench.AggregateMeans | boostlock/bench.py:204-247 | the overall result is judged by the request, or by the largest target of a group |
| Bench.SamplesConserved | boostlock/bench.py:314-346 | when the policies partition the sampled CPUs, the samples of all policy results are exactly those of the overall result |
| Bench.FallbackPartitions | boostlock/bench.py:269-285 | the per-CPU fallback always partitions the online CPUs |
| Bench.BenchmarkRunner.SelectMembers | boostlock/bench.py:324-337 | the rounds restricted to a policy's members, frequencies paired with their CPUs |
| Bench.BenchmarkRunner.ResolvePolicyTargets | boostlock/bench.py:249-285 | the loop keeps the policies with a target and falls back to the online CPUs only when there is none |
| Bench.BenchmarkRunner.ComputeResult | boostlock/bench.py:348-407 | flattening, sorting and the statistics, with a zeroed result when there is no sample |
| Bench.BenchmarkRunner.PolicyResults | boostlock/bench.py:314-346 | one result per policy against its own target and members |
| Bench.BenchmarkRunner.Run | boostlock/bench.py:204-247 | the rounds taken are evaluated overall and by policy, conserving samples under a partition |
| WillingRuns.SecondLockForgets | boostlock/daemon.py:395-404 | on any machine that refuses nothing and has no latency device: after a lost engine, a second lock leaves every idle state the fallback disables disabled after the stop |
| WillingRuns.UncoveredGovernorStays | boostlock/daemon.py:395-404 | on any such machine: a lock under an uncovered governor leaves it in force after the stop |
| WillingRuns.LockLosesItsEngine | boostlock/daemon.py:395-404 | on any such machine a lock whose workers fail to start loses the agreement |
| Counterexamples.LockCanLoseTheEngine | boostlock/daemon.py:395-404 | a concrete machine on which a lock with failing worker threads loses the agreement |
| Counterexamples.SecondLockForgetsIdleStates | boostlock/daemon.py:261-413 | on a concrete machine: start, unlock, a lock whose workers fail, a lock and a stop leave an idle state disabled that was enabled before |
| Counterexamples.UncoveredGovernorEscapes | boostlock/daemon.py:261-413 | on a concrete machine: start, unlock, reconfigure to an uncovered governor, lock and stop leave that governor in force |
| Counterexamples.SuppressedSpikeReturns | boostlock/thermal.py:105-115 | a spike the median suppressed comes through on the next out-of-range reading |
| BoostCounterexample.BoostLostInSilence | boostlock/state.py:510-522 | a concrete tree: two boost files, then only the shared switch; nothing is reported and one value is lost |
| Counterexamples.StartRaisesTheFloor | boostlock/daemon.py:261-377 | on a concrete machine a start succeeds, the floor goes from 800 to 4000 MHz, and a stop brings it back |

## Left out

- RunLaws.WholeRunRestores: assumes that locks that apply spare the records, which `WholeRunExactly` shows to be exact, that no one else writes the nodes, and that undo writes are not refused.
- RunBounds.RunKeepsBoundsOrdered: a restore without a snapshot in memory, whose effect is a parameter, is excluded.
- RunLaws.StartDuringRun: what a restore without an in-memory snapshot does (a snapshot file or safe defaults, boostlock/state.py:337-348) is a parameter, so nothing is claimed about the nodes after the following stop.
- RunLaws.FailedStartIsClean: begins after the PID lock was acquired; a start that fails on the PID lock also runs a restore (boostlock/daemon.py:320-322).
- DaemonLaws.AgreementOverAnyRun: assumes that engine threads do not fail after an applied transaction; `AgreementEndsWithTheEngine` shows that this is exact.
- Kernel.Machine.Attempt: values are sequences of tokens, so spacing and newlines of sysfs text are not modelled; a write to an absent node fails; reads inside one planning step see one state.
- PmQos.PmQosController.Lock: the fallback of its own (`_lock_via_sysfs_fallback`), which the daemon disables, is not part of this model; seeking before an update is not either.
- Thermal.ThermalGuard.UpdateState: sensor reading, the 50-degree default and power readings are left out; the temperature is a parameter, and both callbacks are taken to be installed.
- Duty.DutyStabilises: duties, averages and temperatures are real numbers, so floating-point rounding is not modelled.
- DutyControllers.AdaptiveDutyController.UpdateSamples: non-integer samples are filtered before this model begins, and the fallback target of an unknown policy is a number.
- EngineLaws.PeriodIsExact: jittered and sine waveforms are an arbitrary drawn value before clamping; bursting and sleeping last exactly as planned; CPU affinity is left out.
- EngineMeaning.CoreMeans: takes policy identifiers to be distinct and the directory of a single CPU to list that CPU.
- PulseEngines.PulseEngine.Start: which threads start is a parameter; the threads themselves, and stale ones of a paused engine that is started again, are left out.
- PulseEngines.PulseEngine.ControlTick: not modelled between a refused reconfiguration and an accepted one; a tick is one atomic step; an exception inside it, the overall average duty and the displayed flags are left out.
- Bench.BenchmarkRunner.Run: timing, temperatures and the text report are left out; policy identifiers are taken to be distinct, as discovery makes them.
- Bounds.LegacySafeExactly: of the legacy per-CPU snapshot only the order of the bounds is modelled; a current bound whose reading raises ends the restore of both bounds and is left out.
- Kernel.IntegerTextRoundTrips: integer tokens are taken in canonical form; a text such as "0800000" or "+800000" parses as well and is written back in canonical form.
- Sockets, the command line, the systemd unit, PID files as files, signals, daemonizing and logging.
- Hardware and sensor discovery, and how affinity, CCX and online-CPU selection choose the target cores.
- Snapshot files and their JSON form, and `restore_fallback`.
