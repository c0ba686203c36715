/**
 Restoration over whole runs: a start that fails, or a start followed by any commands that spare the
 undo records and a stop, leaves every node as it was before the start.
 */
module RunLaws {
  import opened Common
  import opened Kernel
  import opened Planning
  import opened PmQos
  import opened Transaction
  import opened Snapshots
  import opened Daemons
  import opened DaemonLaws
  import opened RelockLaws
  import opened LockLaws

  // ---------------------------------------------------------------- the run invariant

  /**
   Between the commands of a run that started in pre with configuration first: the snapshot of
   that start is still held, and the machine can be undone.
   */
  ghost predicate RunInv(env: Env, pre: Nodes, first: Config, actions: seq<Action>, d: Daemon) {
    && Undoable(env, pre, RequestOf(first), actions, d.world)
    && (d.state.Running? || d.state.Paused? || d.state.Throttled?)
    && d.pid
    && d.snapshot == Some(CreateSnapshot(pre, env.candidates, actions))
  }

  /** The lock gets as far as a transaction, which applies. */
  predicate LockApplies(env: Env, d: Daemon, f: LockFaults) {
    LockTries(env, d, f) &&
    StartupTransaction(env, d.world, d.config,
      BuildPlan(d.world.sys.nodes, env.candidates, RequestOf(d.config), []).value, f.deviceExists).ok
  }

  /** Any command of a run but a start or stop, where a lock that applies spares the records. */
  ghost predicate Sparing(env: Env, actions: seq<Action>, d: Daemon, c: Command) {
    match c
    case StartCommand(_) => false
    case StopCommand(_) => false
    case LockCommand(f) => LockApplies(env, d, f) ==> Spares(env, actions, d.world, d.config, f.deviceExists)
    case _ => true
  }

  ghost predicate SparingThroughout(env: Env, actions: seq<Action>, d: Daemon, cs: seq<Command>)
    decreases cs
  {
    cs == [] || (Sparing(env, actions, d, cs[0]) && SparingThroughout(env, actions, Do(env, d, cs[0]), cs[1..]))
  }

  /** The lock gets as far as a transaction. */
  predicate LockTries(env: Env, d: Daemon, f: LockFaults) {
    !d.locked && f.planReads && f.routeReads
    && BuildPlan(d.world.sys.nodes, env.candidates, RequestOf(d.config), []).Success?
  }

  /** A lock that tries ends in the world its transaction leaves, and any other changes nothing. */
  lemma LockOutcome(env: Env, d: Daemon, f: LockFaults)
    ensures var after := Lock(env, d, f);
      if LockTries(env, d, f) then
        var plan := BuildPlan(d.world.sys.nodes, env.candidates, RequestOf(d.config), []).value;
        && after.world == StartupTransaction(env, d.world, d.config, plan, f.deviceExists).world
        && after.snapshot == d.snapshot && after.pid == d.pid && after.config == d.config
        && after.guard == d.guard && after.serving == d.serving
        && (after.state == d.state || after.state.Running? || after.state.Throttled?)
      else after == d
  {
    var plan := BuildPlan(d.world.sys.nodes, env.candidates, RequestOf(d.config), []);
    if LockTries(env, d, f) { LockPlannedOutcome(env, d, plan.value, f); }
  }

  lemma LockPlannedOutcome(env: Env, d: Daemon, plan: Plan, f: LockFaults)
    ensures var after := LockPlanned(env, d, plan, f);
      && after.world == StartupTransaction(env, d.world, d.config, plan, f.deviceExists).world
      && after.snapshot == d.snapshot && after.pid == d.pid && after.config == d.config
      && after.guard == d.guard && after.serving == d.serving
      && (after.state == d.state || after.state.Running? || after.state.Throttled?)
  {
  }

  lemma LockKeepsRun(env: Env, pre: Nodes, first: Config, actions: seq<Action>, d: Daemon, f: LockFaults)
    requires ValidEnv(env) && env.oracle.UndoWorks() && DmaDevice !in pre
    requires RunInv(env, pre, first, actions, d) && Sparing(env, actions, d, LockCommand(f))
    ensures RunInv(env, pre, first, actions, Lock(env, d, f))
  {
    LockOutcome(env, d, f);
    if LockTries(env, d, f) {
      FailureUndoable(env, pre, RequestOf(first), actions, d.world, d.config, f.deviceExists);
      if LockApplies(env, d, f) {
        SparingUndoable(env, pre, RequestOf(first), actions, d.world, d.config, f.deviceExists);
      }
    }
  }

  lemma UnlockKeepsRun(env: Env, pre: Nodes, first: Config, actions: seq<Action>, d: Daemon)
    requires env.oracle.UndoWorks() && RunInv(env, pre, first, actions, d)
    ensures RunInv(env, pre, first, actions, Unlock(env, d))
  {
    ReleaseKeepsUndoable(env, pre, RequestOf(first), actions, d.world);
  }

  lemma QuietOutcome(env: Env, d: Daemon, c: Command)
    requires c.PauseCommand? || c.ResumeCommand? || c.Reconfigure? || c.Trip? || c.Recover?
    ensures var after := Do(env, d, c);
      && after.world == d.world && after.snapshot == d.snapshot && after.pid == d.pid
      && (after.state == d.state || after.state.Running? || after.state.Paused? || after.state.Throttled?)
  {
  }

  /** Pausing, resuming, tripping, recovering and reconfiguring touch no node and no record. */
  lemma QuietKeepsRun(env: Env, pre: Nodes, first: Config, actions: seq<Action>, d: Daemon, c: Command)
    requires c.PauseCommand? || c.ResumeCommand? || c.Reconfigure? || c.Trip? || c.Recover?
    requires RunInv(env, pre, first, actions, d)
    ensures RunInv(env, pre, first, actions, Do(env, d, c))
  {
    QuietOutcome(env, d, c);
  }

  lemma CommandKeepsRun(env: Env, pre: Nodes, first: Config, actions: seq<Action>, d: Daemon, c: Command)
    requires ValidEnv(env) && env.oracle.UndoWorks() && DmaDevice !in pre
    requires RunInv(env, pre, first, actions, d) && Sparing(env, actions, d, c)
    ensures RunInv(env, pre, first, actions, Do(env, d, c))
  {
    if c.LockCommand? {
      LockKeepsRun(env, pre, first, actions, d, c.lock);
    } else if c.UnlockCommand? {
      UnlockKeepsRun(env, pre, first, actions, d);
    } else {
      QuietKeepsRun(env, pre, first, actions, d, c);
    }
  }

  lemma {:induction false} RunKeepsInv(
    env: Env, pre: Nodes, first: Config, actions: seq<Action>, d: Daemon, cs: seq<Command>)
    requires ValidEnv(env) && env.oracle.UndoWorks() && DmaDevice !in pre
    requires RunInv(env, pre, first, actions, d) && SparingThroughout(env, actions, d, cs)
    ensures RunInv(env, pre, first, actions, Run(env, d, cs))
    decreases cs
  {
    if cs != [] {
      CommandKeepsRun(env, pre, first, actions, d, cs[0]);
      RunKeepsInv(env, pre, first, actions, Do(env, d, cs[0]), cs[1..]);
    }
  }

  /** A stop undoes the machine and lets everything go. */
  lemma StopUndoes(env: Env, d: Daemon, snap: Snapshot)
    requires !d.state.Stopped? && d.snapshot == Some(snap)
    ensures var final := Stop(env, d, true);
      && final.world.sys == Unwound(env, d.world, snap)
      && Idle(final.world.qos)
      && final.state.Stopped? && !final.pid && !final.locked && !final.guard && !final.serving
      && final.snapshot.None? && final.config == d.config
      && (!d.engine.EngineStuck? ==> final.engine.EngineStopped?)
  {
  }

  /** A second stop does nothing, whatever the daemon was doing before the first. */
  lemma StopOnce(env: Env, d: Daemon, readable: bool, again: bool)
    ensures Stop(env, Stop(env, d, readable), again) == Stop(env, d, readable)
  {
    assert Stop(env, d, readable).state.Stopped?;
  }

  // ---------------------------------------------------------------- starting

  /** A daemon at rest: nothing held, nothing planned. */
  ghost predicate AtRest(d: Daemon) {
    && AgreeInv(d) && Sound(d.world.qos) && !d.locked && !d.pid && !d.state.Running?
    && DmaDevice !in d.world.sys.nodes
  }

  /** The start gets past the PID lock, planning, the snapshot and the route. */
  predicate Applies(env: Env, d: Daemon, f: StartFaults) {
    f.pidFree && f.planReads && f.snapshotReads && f.routeReads
    && BuildPlan(d.world.sys.nodes, env.candidates, RequestOf(d.config), []).Success?
  }

  /** The failure of a start is a sysfs error: it comes from planning up to the transaction. */
  predicate FailsInSysfs(env: Env, d: Daemon, f: StartFaults) {
    !Applies(env, d, f) ||
    !StartupTransaction(env, d.world, d.config,
       BuildPlan(d.world.sys.nodes, env.candidates, RequestOf(d.config), []).value, f.deviceExists).ok
  }

  /**
   A start that fails after the PID lock was acquired leaves every node as it was, the PM QoS lock
   released, the PID lock free and the boost flag off, whichever step failed; the state is
   STOPPED after a sysfs error and ERROR otherwise.
   */
  lemma FailedStartIsClean(env: Env, d: Daemon, f: StartFaults)
    requires ValidEnv(env) && env.oracle.UndoWorks() && AtRest(d) && f.pidFree && f.restoreReads
    ensures var after := Start(env, d, f);
      !after.state.Running? ==>
        && after.world.sys.nodes == d.world.sys.nodes
        && Idle(after.world.qos)
        && !after.pid && !after.locked && !after.guard && !after.serving && after.config == d.config
        && (after.engine.EngineStopped? || (after.engine.EngineStuck? && f.engine.ControllerFails?))
        && after.state == (if FailsInSysfs(env, d, f) then Stopped else Error)
  {
    var pre := d.world.sys.nodes;
    var held := d.(pid := true, state := Initializing);
    var plan := BuildPlan(pre, env.candidates, RequestOf(d.config), []);
    if Applies(env, d, f) {
      TransactionOutcome(env, d.world, d.config, f.deviceExists);
      StartUndoable(env, d, f);
      var tx := StartupTransaction(env, d.world, d.config, plan.value, f.deviceExists);
      if tx.ok {
        var recorded := held.(snapshot := Some(CreateSnapshot(pre, env.candidates, plan.value.actions)));
        FailedServicesUndone(env, pre, d.config, plan.value.actions, recorded.(world := tx.world), f);
      }
    }
  }

  /** The transaction of the start itself is undoable: its plan is the one that was captured. */
  lemma StartUndoable(env: Env, d: Daemon, f: StartFaults)
    requires ValidEnv(env) && env.oracle.UndoWorks() && AtRest(d)
    requires BuildPlan(d.world.sys.nodes, env.candidates, RequestOf(d.config), []).Success?
    ensures var plan := BuildPlan(d.world.sys.nodes, env.candidates, RequestOf(d.config), []).value;
      var tx := StartupTransaction(env, d.world, d.config, plan, f.deviceExists);
      tx.ok ==> Undoable(env, d.world.sys.nodes, RequestOf(d.config), plan.actions, tx.world)
  {
    var pre := d.world.sys.nodes;
    var plan := BuildPlan(pre, env.candidates, RequestOf(d.config), []).value;
    assert Undoable(env, pre, RequestOf(d.config), plan.actions, d.world);
    assert Spares(env, plan.actions, d.world, d.config, f.deviceExists);
    if StartupTransaction(env, d.world, d.config, plan, f.deviceExists).ok {
      SparingUndoable(env, pre, RequestOf(d.config), plan.actions, d.world, d.config, f.deviceExists);
    }
  }

  /** The emergency rollback after an applied transaction. */
  lemma RollbackUndone(env: Env, pre: Nodes, c: Config, actions: seq<Action>, d: Daemon)
    requires env.oracle.UndoWorks() && Undoable(env, pre, RequestOf(c), actions, d.world)
    requires d.snapshot == Some(CreateSnapshot(pre, env.candidates, actions))
    ensures var after := EmergencyRollback(env, d, Error, true, true);
      && after.world.sys.nodes == pre && Idle(after.world.qos) && after.config == d.config
      && after.engine == StopEngine(d.engine).status
      && !after.pid && !after.locked && !after.guard && !after.serving && after.state == Error
  {
    UndoReturns(env, pre, RequestOf(c), actions, d.world);
  }

  lemma FailedServicesUndone(
    env: Env, pre: Nodes, c: Config, actions: seq<Action>, d: Daemon, f: StartFaults)
    requires env.oracle.UndoWorks() && Undoable(env, pre, RequestOf(c), actions, d.world)
    requires d.engine.EngineStopped?
    requires d.snapshot == Some(CreateSnapshot(pre, env.candidates, actions)) && f.restoreReads
    ensures var after := StartServices(env, d, f);
      !after.state.Running? ==>
        && after.world.sys.nodes == pre && Idle(after.world.qos) && after.config == d.config
        && (after.engine.EngineStopped? || (after.engine.EngineStuck? && f.engine.ControllerFails?))
        && !after.pid && !after.locked && !after.guard && !after.serving && after.state == Error
  {
    RollbackUndone(env, pre, c, actions, d);
    RollbackUndone(env, pre, c, actions, d.(guard := true, engine := StartEngine(d.engine, f.engine).status));
  }

  lemma RollbackState(env: Env, d: Daemon, final: DaemonState, restore: bool, readable: bool)
    ensures EmergencyRollback(env, d, final, restore, readable).state == final
  {
  }

  lemma StartedServices(env: Env, d: Daemon, f: StartFaults)
    requires StartServices(env, d, f).state.Running?
    ensures StartServices(env, d, f)
         == d.(guard := true, engine := EngineRunning, serving := true, state := Running, locked := true)
  {
    RollbackState(env, d, Error, true, f.restoreReads);
    var pulsing := d.(guard := true, engine := StartEngine(d.engine, f.engine).status);
    RollbackState(env, pulsing, Error, true, f.restoreReads);
  }

  lemma StartedPlan(env: Env, d: Daemon, plan: Plan, f: StartFaults)
    requires StartPlanned(env, d, plan, f).state.Running?
    ensures var tx := StartupTransaction(env, d.world, d.config, plan, f.deviceExists);
      && f.routeReads && tx.ok
      && StartPlanned(env, d, plan, f) == d.(
           guard := true, engine := EngineRunning, serving := true, state := Running, locked := true,
           snapshot := Some(CreateSnapshot(d.world.sys.nodes, env.candidates, plan.actions)), world := tx.world)
  {
    var recorded := d.(snapshot := Some(CreateSnapshot(d.world.sys.nodes, env.candidates, plan.actions)));
    var applied := recorded.(world := StartupTransaction(env, d.world, d.config, plan, f.deviceExists).world);
    RollbackState(env, recorded, Stopped, false, f.restoreReads);
    RollbackState(env, applied, Stopped, false, f.restoreReads);
    if StartPlanned(env, d, plan, f) == StartServices(env, applied, f) { StartedServices(env, applied, f); }
  }

  /** What a daemon at rest looks like after a start that succeeds. */
  lemma StartedDaemon(env: Env, d: Daemon, f: StartFaults)
    requires AtRest(d) && Start(env, d, f).state.Running?
    ensures Applies(env, d, f)
    ensures var plan := BuildPlan(d.world.sys.nodes, env.candidates, RequestOf(d.config), []).value;
      var tx := StartupTransaction(env, d.world, d.config, plan, f.deviceExists);
      && tx.ok
      && Start(env, d, f) == Daemon(
           Running, true, EngineRunning, true, true, true,
           Some(CreateSnapshot(d.world.sys.nodes, env.candidates, plan.actions)), d.config, tx.world)
  {
    var held := d.(pid := true, state := Initializing);
    RollbackState(env, d, Error, true, f.restoreReads);
    RollbackState(env, held, Stopped, false, f.restoreReads);
    var plan := BuildPlan(d.world.sys.nodes, env.candidates, RequestOf(d.config), []);
    if f.pidFree && f.planReads && plan.Success? && f.snapshotReads { StartedPlan(env, held, plan.value, f); }
  }

  /** A start that succeeds opens a run. */
  lemma StartOpensRun(env: Env, d: Daemon, f: StartFaults)
    requires ValidEnv(env) && env.oracle.UndoWorks() && AtRest(d) && Start(env, d, f).state.Running?
    ensures var plan := BuildPlan(d.world.sys.nodes, env.candidates, RequestOf(d.config), []);
      plan.Success? && RunInv(env, d.world.sys.nodes, d.config, plan.value.actions, Start(env, d, f))
  {
    StartedDaemon(env, d, f);
    StartUndoable(env, d, f);
  }

  // ---------------------------------------------------------------- the whole run

  /** The actions the start of a daemon captures. */
  ghost function FirstActions(env: Env, d: Daemon): seq<Action> {
    var plan := BuildPlan(d.world.sys.nodes, env.candidates, RequestOf(d.config), []);
    if plan.Success? then plan.value.actions else []
  }

  /**
   Whole-run restoration. After a successful start, any sequence of locks (also failing ones, and
   ones whose engine does not start), unlocks, pauses, resumes, reconfigurations, trips and
   recoveries in which the locks that apply spare the records, and then a stop: every node holds
   what it held before the start, and no descriptor, fallback or PID lock is held. No compensating
   or restoring write may be refused.
   */
  lemma WholeRunRestores(env: Env, d: Daemon, f: StartFaults, cs: seq<Command>)
    requires ValidEnv(env) && env.oracle.UndoWorks() && AtRest(d)
    requires Start(env, d, f).state.Running?
    requires SparingThroughout(env, FirstActions(env, d), Start(env, d, f), cs)
    ensures var last := Run(env, Start(env, d, f), cs); var final := Stop(env, last, true);
      && final.world.sys.nodes == d.world.sys.nodes
      && Idle(final.world.qos)
      && final.state.Stopped? && !final.pid && !final.locked && !final.guard && !final.serving
      && (!last.engine.EngineStuck? ==> final.engine.EngineStopped?)
  {
    var pre, actions := d.world.sys.nodes, FirstActions(env, d);
    StartOpensRun(env, d, f);
    RunKeepsInv(env, pre, d.config, actions, Start(env, d, f), cs);
    var last := Run(env, Start(env, d, f), cs);
    StopUndoes(env, last, CreateSnapshot(pre, env.candidates, actions));
    UndoReturns(env, pre, RequestOf(d.config), actions, last.world);
  }

  /**
   The condition is exact. After any sparing run, a lock followed by a stop gives every node back if
   and only if that lock, should it apply, spares the records: it writes no new value to a node the
   start did not capture, and it does not replace a fallback still held that saved an enabled state.
   */
  lemma WholeRunExactly(env: Env, d: Daemon, f: StartFaults, cs: seq<Command>, lock: LockFaults)
    requires ValidEnv(env) && env.oracle.UndoWorks() && AtRest(d)
    requires Start(env, d, f).state.Running?
    requires SparingThroughout(env, FirstActions(env, d), Start(env, d, f), cs)
    ensures var last := Run(env, Start(env, d, f), cs);
      Stop(env, Lock(env, last, lock), true).world.sys.nodes == d.world.sys.nodes
      <==> Sparing(env, FirstActions(env, d), last, LockCommand(lock))
  {
    var pre, actions := d.world.sys.nodes, FirstActions(env, d);
    StartOpensRun(env, d, f);
    RunKeepsInv(env, pre, d.config, actions, Start(env, d, f), cs);
    LockThenStopExactly(env, pre, d.config, actions, Run(env, Start(env, d, f), cs), lock);
  }

  lemma LockThenStopExactly(
    env: Env, pre: Nodes, first: Config, actions: seq<Action>, d: Daemon, f: LockFaults)
    requires ValidEnv(env) && env.oracle.UndoWorks() && DmaDevice !in pre && RunInv(env, pre, first, actions, d)
    ensures Stop(env, Lock(env, d, f), true).world.sys.nodes == pre <==> Sparing(env, actions, d, LockCommand(f))
  {
    var snap, after := CreateSnapshot(pre, env.candidates, actions), Lock(env, d, f);
    if Sparing(env, actions, d, LockCommand(f)) {
      LockKeepsRun(env, pre, first, actions, d, f);
      StopUndoes(env, after, snap);
      UndoReturns(env, pre, RequestOf(first), actions, after.world);
    } else {
      LockOutcome(env, d, f);
      StopUndoes(env, after, snap);
      UnsparingLeavesTraces(env, pre, RequestOf(first), actions, d.world, d.config, f.deviceExists);
    }
  }

  /** What such a lock writes to a node the start did not capture is still there after the stop. */
  lemma StrayWriteSurvives(
    env: Env, pre: Nodes, first: Config, actions: seq<Action>, d: Daemon, f: LockFaults, a: Action)
    requires ValidEnv(env) && env.oracle.UndoWorks() && DmaDevice !in pre && RunInv(env, pre, first, actions, d)
    requires LockApplies(env, d, f)
    requires a in BuildPlan(d.world.sys.nodes, env.candidates, RequestOf(d.config), []).value.actions
    requires !PlannedNode(actions, a.node) && a.value != a.original
    ensures var final := Stop(env, Lock(env, d, f), true);
      && Holds(final.world.sys.nodes, a.node, a.value)
      && final.state.Stopped? && final.snapshot.None? && Idle(final.world.qos)
  {
    LockOutcome(env, d, f);
    StopUndoes(env, Lock(env, d, f), CreateSnapshot(pre, env.candidates, actions));
    StrayWriteStays(env, pre, RequestOf(first), actions, d.world, d.config, f.deviceExists, a);
  }

  /** And an idle state that a fallback still held had disabled is still disabled after the stop. */
  lemma ForgottenStateSurvives(
    env: Env, pre: Nodes, first: Config, actions: seq<Action>, d: Daemon, f: LockFaults, n: Node)
    requires ValidEnv(env) && env.oracle.UndoWorks() && DmaDevice !in pre && RunInv(env, pre, first, actions, d)
    requires LockApplies(env, d, f) && !f.deviceExists && SavedNode(d.world.qos.saved, n)
    ensures var final := Stop(env, Lock(env, d, f), true);
      && Holds(final.world.sys.nodes, n, Number(1))
      && final.state.Stopped? && final.snapshot.None? && Idle(final.world.qos)
  {
    LockOutcome(env, d, f);
    StopUndoes(env, Lock(env, d, f), CreateSnapshot(pre, env.candidates, actions));
    HeldMeansIdleRoute(env, d.world, n);
    ForgottenStateStays(env, pre, RequestOf(first), actions, d.world, d.config, n);
  }

  // ---------------------------------------------------------------- an easy case

  /** Commands a caller can judge by themselves: threads that start, and covered governors. */
  ghost predicate Ordinary(env: Env, pre: Nodes, first: Config, c: Command) {
    match c
    case StartCommand(_) => false
    case StopCommand(_) => false
    case LockCommand(f) => f.engine.Starts?
    case Reconfigure(config) => GovernorCovered(pre, env.candidates, RequestOf(first), RequestOf(config))
    case _ => true
  }

  /** Keeping the governor is always covered, so target and preference may be reconfigured freely. */
  lemma SameGovernorCovered(env: Env, pre: Nodes, first: Config, config: Config)
    requires config.governor == first.governor
    ensures GovernorCovered(pre, env.candidates, RequestOf(first), RequestOf(config))
  {
  }

  /** The request of a daemon configuration; only its governor and target matter to a relock. */
  lemma DaemonSwitches(a: Config, b: Config)
    ensures SameSwitches(RequestOf(a), RequestOf(b))
  {
  }

  /** Such commands always spare the records: while the engine holds, an unlocked daemon holds no fallback. */
  lemma {:induction false} OrdinarySpares(
    env: Env, pre: Nodes, first: Config, actions: seq<Action>, d: Daemon, cs: seq<Command>)
    requires ValidEnv(env) && env.oracle.UndoWorks() && DmaDevice !in pre
    requires RunInv(env, pre, first, actions, d) && AgreeInv(d)
    requires GovernorCovered(pre, env.candidates, RequestOf(first), RequestOf(d.config))
    requires forall c :: c in cs ==> Ordinary(env, pre, first, c)
    ensures SparingThroughout(env, actions, d, cs)
    decreases cs
  {
    if cs != [] {
      assert cs[0] in cs && forall c :: c in cs[1..] ==> c in cs;
      if cs[0].LockCommand? && LockApplies(env, d, cs[0].lock) {
        DaemonSwitches(first, d.config);
        CoveredSpares(env, pre, RequestOf(first), actions, d.world, d.config, cs[0].lock.deviceExists);
      }
      CommandKeepsRun(env, pre, first, actions, d, cs[0]);
      CommandAgrees(env, d, cs[0]);
      KeepsConfig(env, d, cs[0]);
      OrdinarySpares(env, pre, first, actions, Do(env, d, cs[0]), cs[1..]);
    }
  }

  lemma KeepsConfig(env: Env, d: Daemon, c: Command)
    requires !c.StartCommand? && !c.StopCommand?
    ensures Do(env, d, c).config == if c.Reconfigure? then c.config else d.config
    ensures Do(env, d, c).snapshot == d.snapshot
    ensures c.Reconfigure? ==> Do(env, d, c) == d.(config := c.config)
  {
    if c.LockCommand? { LockOutcome(env, d, c.lock); }
  }

  /** Whole-run restoration for commands that can be judged one by one. */
  lemma OrdinaryRunRestores(env: Env, d: Daemon, f: StartFaults, cs: seq<Command>)
    requires ValidEnv(env) && env.oracle.UndoWorks() && AtRest(d)
    requires Start(env, d, f).state.Running?
    requires forall c :: c in cs ==> Ordinary(env, d.world.sys.nodes, d.config, c)
    ensures SparingThroughout(env, FirstActions(env, d), Start(env, d, f), cs)
    ensures Stop(env, Run(env, Start(env, d, f), cs), true).world.sys.nodes == d.world.sys.nodes
  {
    var pre := d.world.sys.nodes;
    StartOpensRun(env, d, f);
    StartAgrees(env, d, f);
    StartedDaemon(env, d, f);
    SameGovernorCovered(env, pre, d.config, d.config);
    OrdinarySpares(env, pre, d.config, FirstActions(env, d), Start(env, d, f), cs);
    WholeRunRestores(env, d, f, cs);
  }

  // ---------------------------------------------------------------- the snapshot

  /**
   The snapshot is taken only in start: until a start or a stop, no command replaces it, whatever
   fails; and the one a successful start takes holds the tree as it was before.
   */
  lemma {:induction false} SnapshotNeverReplaced(env: Env, d: Daemon, cs: seq<Command>)
    requires forall c :: c in cs ==> !c.StartCommand? && !c.StopCommand?
    ensures Run(env, d, cs).snapshot == d.snapshot
    decreases cs
  {
    if cs != [] {
      assert cs[0] in cs && forall c :: c in cs[1..] ==> c in cs;
      KeepsConfig(env, d, cs[0]);
      SnapshotNeverReplaced(env, Do(env, d, cs[0]), cs[1..]);
    }
  }

  /**
   A start issued while the daemon is paused or throttled fails on its own PID lock. It gives every
   node back and ends in ERROR with nothing held; but the snapshot is spent, so a stop after it
   restores from whatever a restore without an in-memory snapshot finds.
   */
  lemma StartDuringRun(env: Env, d: Daemon, f: StartFaults, cs: seq<Command>, again: StartFaults)
    requires ValidEnv(env) && env.oracle.UndoWorks() && AtRest(d) && again.restoreReads
    requires Start(env, d, f).state.Running?
    requires SparingThroughout(env, FirstActions(env, d), Start(env, d, f), cs)
    requires !Run(env, Start(env, d, f), cs).state.Running?
    ensures var last := Run(env, Start(env, d, f), cs); var failed := Start(env, last, again);
      && failed.world.sys.nodes == d.world.sys.nodes
      && failed.state.Error? && Idle(failed.world.qos)
      && !failed.pid && !failed.locked && failed.snapshot.None?
      && (!last.engine.EngineStuck? ==> failed.engine.EngineStopped?)
      && Stop(env, failed, true).world.sys.nodes == env.unrecorded(d.world.sys.nodes)
  {
    StartOpensRun(env, d, f);
    RunKeepsInv(env, d.world.sys.nodes, d.config, FirstActions(env, d), Start(env, d, f), cs);
    StartFromRun(env, d.world.sys.nodes, d.config, FirstActions(env, d), Run(env, Start(env, d, f), cs), again);
  }

  lemma StartFromRun(env: Env, pre: Nodes, first: Config, actions: seq<Action>, d: Daemon, again: StartFaults)
    requires env.oracle.UndoWorks() && RunInv(env, pre, first, actions, d) && !d.state.Running? && again.restoreReads
    ensures var failed := Start(env, d, again);
      && failed.world.sys.nodes == pre
      && failed.state.Error? && Idle(failed.world.qos)
      && !failed.pid && !failed.locked && failed.snapshot.None?
      && (!d.engine.EngineStuck? ==> failed.engine.EngineStopped?)
      && Stop(env, failed, true).world.sys.nodes == env.unrecorded(pre)
  {
    UndoReturns(env, pre, RequestOf(first), actions, d.world);
    StopUnrecorded(env, Start(env, d, again));
  }

  /** A stop with nothing held and no snapshot leaves what a restore without one finds. */
  lemma StopUnrecorded(env: Env, d: Daemon)
    requires d.snapshot.None? && Idle(d.world.qos) && !d.state.Stopped?
    ensures Stop(env, d, true).world.sys.nodes == env.unrecorded(d.world.sys.nodes)
  {
  }
}
