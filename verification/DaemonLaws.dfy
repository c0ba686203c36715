/**
 What every reachable daemon state guarantees: the boost flag, the engine and the PM QoS lock
 agree, and a start that fails leaves nothing behind.
 */
module DaemonLaws {
  import opened Common
  import opened Kernel
  import opened Policies
  import opened Planning
  import opened PlanLaws
  import opened PmQos
  import opened Transaction
  import opened Snapshots
  import opened Daemons

  // ---------------------------------------------------------------- the transaction of the daemon

  lemma SaveAllReads(nodes: Nodes, paths: seq<Node>)
    requires forall n :: n in paths ==> n in nodes
    requires Distinct(paths)
    ensures DistinctSaved(SaveAll(nodes, paths))
    ensures forall s :: s in SaveAll(nodes, paths) ==> s.node in paths && s.value == nodes[s.node]
  {
  }

  /** The saved idle states are distinct, readable cpuidle nodes with their current values. */
  lemma RouteSaves(env: Env, nodes: Nodes, deviceExists: bool)
    requires ValidEnv(env)
    ensures var r := SelectRoute(env, nodes, deviceExists);
      && DistinctSaved(r.saved)
      && (forall s :: s in r.saved ==> s.node in nodes && s.node.CpuIdleDisable? && s.value == nodes[s.node])
      && (r.route.DeviceRoute? <==> deviceExists)
      && (r.route.IdleRoute? ==> r.saved != [])
      && (!r.route.IdleRoute? ==> r.saved == [])
  {
    FallbackPathsRead(nodes, env.idleNodes);
    SaveAllReads(nodes, FallbackPaths(nodes, env.idleNodes));
  }

  lemma QosActionsOf(r: Routed, c: Config, a: Action)
    requires a in QosActions(r, c)
    ensures r.route.DeviceRoute? ==> a == Action(QosDevice, DmaDevice, Number(c.latencyUs), RELEASE)
    ensures r.route.IdleRoute? ==>
              exists s :: s in r.saved && a == Action(QosIdle, s.node, Number(1), s.value)
    ensures !r.route.NoRoute?
  {
    if r.route.IdleRoute? {
      var i :| 0 <= i < |r.saved| && IdleActions(r.saved)[i] == a;
      assert r.saved[i] in r.saved;
    }
  }

  /** A plan built from the current nodes, with the route's actions, is ready to execute. */
  lemma TransactionReady(env: Env, w: World, c: Config, deviceExists: bool)
    requires ValidEnv(env) && DmaDevice !in w.sys.nodes
    requires BuildPlan(w.sys.nodes, env.candidates, RequestOf(c), []).Success?
    ensures var r := SelectRoute(env, w.sys.nodes, deviceExists);
      var plan := BuildPlan(w.sys.nodes, env.candidates, RequestOf(c), []).value;
      Ready(w.sys.nodes, r.route, FullPlan(r, c, plan).actions)
  {
    var r := SelectRoute(env, w.sys.nodes, deviceExists);
    var plan := BuildPlan(w.sys.nodes, env.candidates, RequestOf(c), []).value;
    PlanIsWellFormed(w.sys.nodes, env.candidates, RequestOf(c), []);
    RouteSaves(env, w.sys.nodes, deviceExists);
    forall a | a in FullPlan(r, c, plan).actions
      ensures !IsDevice(r.route, a.node) ==> a.node in w.sys.nodes && a.original == w.sys.nodes[a.node]
      ensures IsDevice(r.route, a.node) ==> a.original == RELEASE && a.value != RELEASE
    {
      if a in plan.actions {
      } else {
        QosActionsOf(r, c, a);
      }
    }
  }

  lemma {:induction false} ApplySound(o: Oracle, route: Route, w: World, actions: seq<Action>)
    requires Sound(w.qos) && !w.qos.fallback
    ensures Sound(ApplyActions(o, route, w, actions).world.qos)
    decreases actions
  {
    if actions != [] {
      WriteActionEffect(o, Forward, route, w, actions[0].node, actions[0].value);
      var step := WriteAction(o, Forward, route, w, actions[0].node, actions[0].value);
      assert Sound(step.world.qos);
      ApplySound(o, route, step.world, actions[1..]);
    }
  }

  lemma {:induction false} RollbackSound(o: Oracle, route: Route, w: World, completed: seq<Action>)
    requires Sound(w.qos) && !w.qos.fallback
    ensures Sound(Rollback(o, route, w, completed).world.qos)
    decreases completed
  {
    if completed != [] {
      var a := completed[|completed| - 1];
      WriteActionEffect(o, Undo, route, w, a.node, a.original);
      var step := WriteAction(o, Undo, route, w, a.node, a.original);
      assert Sound(step.world.qos);
      RollbackSound(o, route, step.world, completed[..|completed| - 1]);
    }
  }

  lemma ExecuteSound(o: Oracle, route: Route, w: World, plan: Plan)
    requires Sound(w.qos) && !w.qos.fallback
    ensures Sound(Execute(o, route, w, plan).world.qos)
    ensures !Execute(o, route, w, plan).world.qos.fallback
  {
    var check := PreflightAll(o, w.sys, plan.preflight);
    var start := w.(sys := check.sys);
    PreflightWritesNothing(o, w.sys, plan.preflight);
    ApplyEffect(o, route, start, plan.actions);
    ApplySound(o, route, start, plan.actions);
    var forward := ApplyActions(o, route, start, plan.actions);
    var done := plan.actions[..forward.count];
    RollbackErrorless(o, route, forward.world, done);
    RollbackSound(o, route, forward.world, done);
  }

  lemma {:induction false} RollbackErrorless(o: Oracle, route: Route, w: World, completed: seq<Action>)
    requires !w.qos.fallback
    ensures !Rollback(o, route, w, completed).world.qos.fallback
    decreases completed
  {
    if completed != [] {
      var a := completed[|completed| - 1];
      WriteActionEffect(o, Undo, route, w, a.node, a.original);
      RollbackErrorless(o, route, WriteAction(o, Undo, route, w, a.node, a.original).world, completed[..|completed| - 1]);
    }
  }

  /** after differs from before only on planned nodes and saved idle states. */
  ghost predicate Confined(before: Nodes, after: Nodes, actions: seq<Action>, saved: seq<Saved>) {
    && after.Keys == before.Keys
    && forall n :: n in before && !PlannedNode(actions, n) && !SavedNode(saved, n) ==> after[n] == before[n]
  }

  /** A planned action together with the route's: still one action for each node. */
  lemma FullPlanDistinct(env: Env, nodes: Nodes, c: Config, deviceExists: bool)
    requires ValidEnv(env) && BuildPlan(nodes, env.candidates, RequestOf(c), []).Success?
    ensures var plan := BuildPlan(nodes, env.candidates, RequestOf(c), []).value;
      var r := SelectRoute(env, nodes, deviceExists);
      DistinctNodes(FullPlan(r, c, plan).actions)
  {
    var plan := BuildPlan(nodes, env.candidates, RequestOf(c), []).value;
    var r := SelectRoute(env, nodes, deviceExists);
    PlanIsWellFormed(nodes, env.candidates, RequestOf(c), []);
    RouteSaves(env, nodes, deviceExists);
    var actions, extra := FullPlan(r, c, plan).actions, QosActions(r, c);
    forall i, j | 0 <= i < j < |actions| ensures actions[i].node != actions[j].node {
      if j >= |plan.actions| {
        QosActionsOf(r, c, actions[j]);
        if i < |plan.actions| {
          PlanAvoidsDevice(nodes, env.candidates, RequestOf(c), [], actions[i]);
        } else if r.route.IdleRoute? {
          assert actions[i] == extra[i - |plan.actions|] && actions[j] == extra[j - |plan.actions|];
          assert r.saved[i - |plan.actions|].node != r.saved[j - |plan.actions|].node;
        }
      }
    }
  }

  /**
   The startup transaction from an idle lock: it changes only planned policy nodes and the idle
   states it saved, a failure holds no lock, and with working undo writes a failure changes nothing.
   */
  lemma TransactionOutcome(env: Env, w: World, c: Config, deviceExists: bool)
    requires ValidEnv(env) && DmaDevice !in w.sys.nodes && Idle(w.qos) && Sound(w.qos)
    requires BuildPlan(w.sys.nodes, env.candidates, RequestOf(c), []).Success?
    ensures var plan := BuildPlan(w.sys.nodes, env.candidates, RequestOf(c), []).value;
      var t := StartupTransaction(env, w, c, plan, deviceExists);
      && t.world.sys.nodes.Keys == w.sys.nodes.Keys
      && Sound(t.world.qos)
      && (!t.ok ==> Idle(t.world.qos))
      && (!t.ok && env.oracle.UndoWorks() ==> t.world.sys.nodes == w.sys.nodes)
      && (forall s :: s in t.world.qos.saved ==>
            s.node in w.sys.nodes && s.node.CpuIdleDisable? && s.value == w.sys.nodes[s.node])
      && (t.ok ==> Confined(w.sys.nodes, t.world.sys.nodes, plan.actions, t.world.qos.saved))
  {
    var plan := BuildPlan(w.sys.nodes, env.candidates, RequestOf(c), []).value;
    var r := SelectRoute(env, w.sys.nodes, deviceExists);
    var full := FullPlan(r, c, plan);
    var t := StartupTransaction(env, w, c, plan, deviceExists);
    TransactionReady(env, w, c, deviceExists);
    RouteSaves(env, w.sys.nodes, deviceExists);
    ExecuteIsAtomic(env.oracle, r.route, w, full);
    ExecuteSound(env.oracle, r.route, w, full);
    NoFallbackFromIdle(env.oracle, r.route, w, full);
    if env.oracle.UndoWorks() { AllOrNothing(env.oracle, r.route, w, full); }
    if t.ok {
      forall n | n in w.sys.nodes && !PlannedNode(plan.actions, n) && !SavedNode(t.world.qos.saved, n)
        ensures t.world.sys.nodes[n] == w.sys.nodes[n]
      {
        forall a | a in full.actions ensures a.node != n {
          if a !in plan.actions { QosActionsOf(r, c, a); }
        }
      }
    }
  }

  /** Away from the idle route, only a released or held descriptor comes out of an execution. */
  lemma NoFallbackFromIdle(o: Oracle, route: Route, w: World, plan: Plan)
    requires Idle(w.qos) && Sound(w.qos)
    ensures Execute(o, route, w, plan).world.qos.saved == []
    ensures !route.DeviceRoute? ==> Idle(Execute(o, route, w, plan).world.qos)
  {
    ExecuteSound(o, route, w, plan);
    var start := w.(sys := PreflightAll(o, w.sys, plan.preflight).sys);
    if !route.DeviceRoute? {
      ApplyEffect(o, route, start, plan.actions);
      var forward := ApplyActions(o, route, start, plan.actions);
      RollbackIdles(o, route, forward.world, plan.actions[..forward.count]);
    }
  }

  // ---------------------------------------------------------------- agreement

  /**
   Between commands: without the boost flag the engine is stopped and no PM QoS lock is held;
   with it, a running daemon has a running engine and a paused daemon a paused one.
   */
  ghost predicate Agrees(d: Daemon) {
    && (!d.locked ==> d.engine.EngineStopped? && Idle(d.world.qos))
    && (d.locked && d.state.Running? ==> d.engine.EngineRunning?)
    && (d.locked && d.state.Paused? ==> d.engine.EnginePaused?)
  }

  /** Agreement, with what it needs of a locked daemon. */
  ghost predicate AgreeInv(d: Daemon) {
    && Agrees(d)
    && (d.locked ==> d.state.Running? || d.state.Paused? || d.state.Throttled?)
    && (d.locked ==> d.engine.EngineRunning? || d.engine.EnginePaused?)
  }

  /** A plan never names the latency device among its policy nodes. */
  lemma PlanAvoidsDevice(nodes: Nodes, cs: seq<Candidate>, req: Request, extra: seq<Node>, a: Action)
    requires Coherent(cs) && BuildPlan(nodes, cs, req, extra).Success?
    requires a in BuildPlan(nodes, cs, req, extra).value.actions
    ensures a.node != DmaDevice && !a.node.CpuIdleDisable?
  {
    var p := ServedPolicy(nodes, cs, req, extra, a);
    assert WellFormed(nodes, p) by { PoliciesWellFormed(nodes, cs); }
    assert ControlOk(nodes, p, a.owner.control);
  }

  /** A transaction that fails from an idle lock leaves the lock idle, whatever else fails. */
  lemma FailedTransactionIdles(env: Env, w: World, c: Config, deviceExists: bool)
    requires ValidEnv(env) && Idle(w.qos)
    requires BuildPlan(w.sys.nodes, env.candidates, RequestOf(c), []).Success?
    ensures var plan := BuildPlan(w.sys.nodes, env.candidates, RequestOf(c), []).value;
      var t := StartupTransaction(env, w, c, plan, deviceExists);
      !t.ok ==> Idle(t.world.qos)
  {
    var plan := BuildPlan(w.sys.nodes, env.candidates, RequestOf(c), []).value;
    var r := SelectRoute(env, w.sys.nodes, deviceExists);
    var full := FullPlan(r, c, plan);
    RouteSaves(env, w.sys.nodes, deviceExists);
    forall a | a in full.actions && IsDevice(r.route, a.node) ensures a.original == RELEASE && a.value != RELEASE {
      if a in plan.actions { PlanAvoidsDevice(w.sys.nodes, env.candidates, RequestOf(c), [], a); }
      else { QosActionsOf(r, c, a); }
    }
    FailedExecutionIdles(env.oracle, r.route, w, full);
  }

  lemma FailedExecutionIdles(o: Oracle, route: Route, w: World, plan: Plan)
    requires Idle(w.qos) && DeviceReleases(route, plan.actions)
    ensures var r := Execute(o, route, w, plan); !r.result.Applied? ==> Idle(r.world.qos)
  {
    var start := w.(sys := PreflightAll(o, w.sys, plan.preflight).sys);
    ApplyEffect(o, route, start, plan.actions);
    var forward := ApplyActions(o, route, start, plan.actions);
    var done := plan.actions[..forward.count];
    assert forall a :: a in done ==> a in plan.actions;
    RollbackIdles(o, route, forward.world, done);
  }

  lemma RollbackAgrees(env: Env, d: Daemon, final: DaemonState, restore: bool, readable: bool)
    ensures var after := EmergencyRollback(env, d, final, restore, readable);
      && Idle(after.world.qos)
      && !after.locked && !after.pid && !after.guard && !after.serving && after.state == final
      && (AgreeInv(after) <==> !d.engine.EngineStuck?)
      && (Agrees(after) <==> !d.engine.EngineStuck?)
  {
  }

  /** The relock transaction is applied and then the pulse engine refuses to start. */
  predicate LockLosesEngine(env: Env, d: Daemon, f: LockFaults) {
    var plan := BuildPlan(d.world.sys.nodes, env.candidates, RequestOf(d.config), []);
    && !d.locked && f.planReads && plan.Success? && f.routeReads
    && StartupTransaction(env, d.world, d.config, plan.value, f.deviceExists).ok
    && !f.engine.Starts?
  }

  /** A start reaches the pulse engine, whose controller thread then refuses to start. */
  predicate StartLosesEngine(env: Env, d: Daemon, f: StartFaults) {
    var plan := BuildPlan(d.world.sys.nodes, env.candidates, RequestOf(d.config), []);
    && !d.state.Running? && !d.pid && f.pidFree
    && f.planReads && plan.Success? && f.snapshotReads && f.routeReads
    && StartupTransaction(env, d.world, d.config, plan.value, f.deviceExists).ok
    && f.guardStarts && f.engine.ControllerFails? && !d.engine.EngineRunning?
  }

  /** A lock keeps the agreement exactly when it does not lose the engine after applying. */
  lemma LockAgrees(env: Env, d: Daemon, f: LockFaults)
    requires ValidEnv(env) && AgreeInv(d)
    ensures Agrees(Lock(env, d, f)) <==> !LockLosesEngine(env, d, f)
    ensures !LockLosesEngine(env, d, f) ==> AgreeInv(Lock(env, d, f))
  {
    if !d.locked && BuildPlan(d.world.sys.nodes, env.candidates, RequestOf(d.config), []).Success? {
      FailedTransactionIdles(env, d.world, d.config, f.deviceExists);
    }
  }

  lemma ServicesAgree(env: Env, d: Daemon, f: StartFaults)
    requires d.engine.EngineStopped? || d.engine.EngineRunning? || d.engine.EnginePaused?
    ensures Agrees(StartServices(env, d, f)) && AgreeInv(StartServices(env, d, f))
            <==> !(f.guardStarts && f.engine.ControllerFails? && !d.engine.EngineRunning?)
    ensures Agrees(StartServices(env, d, f)) <==> AgreeInv(StartServices(env, d, f))
  {
    RollbackAgrees(env, d, Error, true, f.restoreReads);
    var pulsing := d.(guard := true, engine := StartEngine(d.engine, f.engine).status);
    RollbackAgrees(env, pulsing, Error, true, f.restoreReads);
  }

  /**
   A start keeps the agreement exactly when no controller thread fails: a failed start in any
   state, one while paused included, stops the engine and releases the lock.
   */
  lemma StartAgrees(env: Env, d: Daemon, f: StartFaults)
    requires ValidEnv(env) && AgreeInv(d)
    ensures Agrees(Start(env, d, f)) <==> !StartLosesEngine(env, d, f)
    ensures !StartLosesEngine(env, d, f) ==> AgreeInv(Start(env, d, f))
  {
    var held := d.(pid := true, state := Initializing);
    var plan := BuildPlan(d.world.sys.nodes, env.candidates, RequestOf(d.config), []);
    if d.state.Running? {
    } else if d.pid || !f.pidFree {
      RollbackAgrees(env, d, Error, true, f.restoreReads);
    } else if !f.planReads || plan.Failure? || !f.snapshotReads {
      RollbackAgrees(env, held, Stopped, false, f.restoreReads);
    } else {
      PlannedStartAgrees(env, held, plan.value, f);
    }
  }

  lemma PlannedStartAgrees(env: Env, d: Daemon, plan: Plan, f: StartFaults)
    requires d.engine.EngineStopped? || d.engine.EngineRunning? || d.engine.EnginePaused?
    ensures var tx := StartupTransaction(env, d.world, d.config, plan, f.deviceExists);
      var lost := f.routeReads && tx.ok && f.guardStarts && f.engine.ControllerFails? && !d.engine.EngineRunning?;
      (Agrees(StartPlanned(env, d, plan, f)) <==> !lost) && (!lost ==> AgreeInv(StartPlanned(env, d, plan, f)))
  {
    var recorded := d.(snapshot := Some(CreateSnapshot(d.world.sys.nodes, env.candidates, plan.actions)));
    if !f.routeReads {
      RollbackAgrees(env, recorded, Stopped, false, f.restoreReads);
    } else {
      var tx := StartupTransaction(env, d.world, d.config, plan, f.deviceExists);
      var applied := recorded.(world := tx.world);
      RollbackAgrees(env, applied, Stopped, false, f.restoreReads);
      ServicesAgree(env, applied, f);
    }
  }

  lemma StopAgrees(env: Env, d: Daemon, readable: bool)
    requires AgreeInv(d)
    ensures AgreeInv(Stop(env, d, readable))
  {
  }

  /** Threads of the engine may refuse to start only where the start is undone cleanly. */
  predicate EngineHolds(env: Env, d: Daemon, c: Command) {
    match c
    case LockCommand(f) => !LockLosesEngine(env, d, f)
    case StartCommand(f) => !StartLosesEngine(env, d, f)
    case _ => true
  }

  predicate EngineHoldsThroughout(env: Env, d: Daemon, cs: seq<Command>)
    decreases cs
  {
    cs == [] || (EngineHolds(env, d, cs[0]) && EngineHoldsThroughout(env, Do(env, d, cs[0]), cs[1..]))
  }

  lemma CommandAgrees(env: Env, d: Daemon, c: Command)
    requires ValidEnv(env) && AgreeInv(d)
    ensures Agrees(Do(env, d, c)) <==> EngineHolds(env, d, c)
    ensures EngineHolds(env, d, c) ==> AgreeInv(Do(env, d, c))
  {
    match c {
      case LockCommand(f) => LockAgrees(env, d, f);
      case StartCommand(f) => StartAgrees(env, d, f);
      case StopCommand(readable) => StopAgrees(env, d, readable);
      case _ =>
    }
  }

  /**
   Agreement in every reachable state between commands, over any sequence of starts, stops,
   pauses, resumes, locks that succeed or fail, unlocks, reconfigurations, trips and recoveries,
   as long as the engine's threads start where their failure is not undone.
   */
  lemma {:induction false} AgreementOverAnyRun(env: Env, d: Daemon, cs: seq<Command>)
    requires ValidEnv(env) && AgreeInv(d) && EngineHoldsThroughout(env, d, cs)
    ensures Agrees(Run(env, d, cs)) && AgreeInv(Run(env, d, cs))
    decreases cs
  {
    if cs != [] {
      CommandAgrees(env, d, cs[0]);
      AgreementOverAnyRun(env, Do(env, d, cs[0]), cs[1..]);
    }
  }

  /** The first engine failure outside those bounds is also the first loss of agreement. */
  lemma {:induction false} AgreementEndsWithTheEngine(env: Env, d: Daemon, cs: seq<Command>, c: Command)
    requires ValidEnv(env) && AgreeInv(d) && EngineHoldsThroughout(env, d, cs)
    ensures Agrees(Run(env, d, cs + [c])) <==> EngineHolds(env, Run(env, d, cs), c)
    decreases cs
  {
    if cs == [] {
      assert cs + [c] == [c] && [c][1..] == [];
      CommandAgrees(env, d, c);
    } else {
      assert (cs + [c])[0] == cs[0] && (cs + [c])[1..] == cs[1..] + [c];
      CommandAgrees(env, d, cs[0]);
      AgreementEndsWithTheEngine(env, Do(env, d, cs[0]), cs[1..], c);
    }
  }

  /** A daemon that has not been started holds nothing, and has the configured latency to ask for. */
  lemma InitialAgrees(config: Config, nodes: Nodes)
    ensures var d := Initial(config, nodes);
      && AgreeInv(d) && Sound(d.world.qos) && d.state.Stopped? && d.snapshot.None? && d.config == config
      && d.world.sys == Sys(nodes, []) && d.world.qos.latency == config.latencyUs
      && !(d.locked || d.guard || d.serving || d.pid)
  {
  }

  // ---------------------------------------------------------------- what each command does

  /** The engine of a daemon that agrees, once it has been told to pulse, or to hold. */
  function Pulsing(d: Daemon): EngineStatus { if d.locked then EngineRunning else EngineStopped }

  function Resting(d: Daemon): EngineStatus { if d.locked then EnginePaused else EngineStopped }

  /**
   A pause of a RUNNING daemon ends PAUSED with its engine paused, should it be locked, and changes
   nothing else; a resume gives the very daemon back. In any other state a pause changes nothing.
   */
  lemma PauseTakesEffect(env: Env, d: Daemon)
    requires AgreeInv(d)
    ensures var paused := Do(env, d, PauseCommand);
      if d.state.Running? then
        paused == d.(state := Paused, engine := Resting(d)) && Do(env, paused, ResumeCommand) == d
      else paused == d
  {
  }

  /** And the same for a resume of a PAUSED daemon. */
  lemma ResumeTakesEffect(env: Env, d: Daemon)
    requires AgreeInv(d)
    ensures var resumed := Do(env, d, ResumeCommand);
      if d.state.Paused? then
        resumed == d.(state := Running, engine := Pulsing(d)) && Do(env, resumed, PauseCommand) == d
      else resumed == d
  {
  }

  /**
   A trip leaves the daemon THROTTLED with no engine running, whatever it was doing. The recovery
   after it leaves it RUNNING and pulsing, if it is locked: that is what it was before exactly when
   it was RUNNING, so a trip loses a pause.
   */
  lemma TripTakesEffect(env: Env, d: Daemon)
    requires AgreeInv(d)
    ensures var tripped := Do(env, d, Trip); var back := Do(env, tripped, Recover);
      if d.guard then
        && tripped == d.(state := Throttled, engine := Resting(d))
        && back == d.(state := Running, engine := Pulsing(d))
        && (back == d <==> d.state.Running?)
      else tripped == d && back == d
  {
  }

  /** A recovery resumes a THROTTLED daemon, and changes no other. */
  lemma RecoveryTakesEffect(env: Env, d: Daemon)
    requires AgreeInv(d)
    ensures Do(env, d, Recover) ==
            if d.guard && d.state.Throttled? then d.(state := Running, engine := Pulsing(d)) else d
  {
  }

  /**
   An unlock of a locked daemon stops its engine, clears the flag and releases the latency lock,
   giving the idle states on record back; everything else it leaves, and an unlocked daemon altogether.
   */
  lemma UnlockTakesEffect(env: Env, d: Daemon)
    requires AgreeInv(d) && Sound(d.world.qos)
    ensures var after := Do(env, d, UnlockCommand);
      if d.locked then
        && after == d.(locked := false, engine := EngineStopped, world := after.world)
        && Idle(after.world.qos) && after.world.qos.latency == d.world.qos.latency
        && (forall n :: n in d.world.sys.nodes && !SavedNode(d.world.qos.saved, n) ==>
              Holds(after.world.sys.nodes, n, d.world.sys.nodes[n]))
        && (env.oracle.UndoWorks() ==> forall s :: s in d.world.qos.saved && s.node in d.world.sys.nodes ==>
              Holds(after.world.sys.nodes, s.node, s.value))
      else after == d
  {
    var w := d.world;
    var sys := if w.qos.fd.Some? then Kernel.Perform(env.oracle, Undo, w.sys, CloseDevice).sys else w.sys;
    WriteBackEverySaved(env.oracle, sys, w.qos.saved);
    WriteBackFrame(env.oracle, sys, w.qos.saved);
    SameKeys(w.sys.nodes, WriteBack(env.oracle, sys, w.qos.saved).nodes);
    UnlockedBy(env, d);
  }

  /** An engine that cannot be stopped refuses the unlock, which then changes nothing. */
  lemma UnlockedBy(env: Env, d: Daemon)
    ensures Do(env, d, UnlockCommand) ==
            if d.locked && !d.engine.EngineStuck? then d.(locked := false, engine := EngineStopped, world := ReleaseLock(env.oracle, d.world, false).world)
            else d
  {
  }
}
