/**
 The daemon's life cycle as a state machine (boostlock/daemon.py): every command is one step over
 the daemon's own state, the engine's status, the PM QoS lock, the snapshot and the machine.
 */
module Daemons {
  import opened Common
  import opened Kernel
  import opened Policies
  import opened Planning
  import opened PmQos
  import opened Transaction
  import opened Snapshots

  datatype DaemonState = Stopped | Initializing | Running | Paused | Throttled | Error

  /**
   HalfStarted: a worker thread refused to start. Stuck: the controller thread refused, and
   stopping then raises because a thread that never started cannot be joined.
   */
  datatype EngineStatus = EngineStopped | EngineHalfStarted | EngineStuck | EngineRunning | EnginePaused

  datatype EngineOutcome = Starts | WorkersFail | ControllerFails

  datatype Config = Config(target: Option<int>, governor: Token, epp: seq<Token>, latencyUs: int)

  datatype Daemon = Daemon(
    state: DaemonState, locked: bool, engine: EngineStatus, guard: bool, serving: bool, pid: bool,
    snapshot: Option<Snapshot>, config: Config, world: World)

  /**
   The surroundings: attempt outcomes, directory entries, cpuidle nodes of the online CPUs, and
   what a restore without an in-memory snapshot does to the nodes.
   */
  datatype Env = Env(
    oracle: Oracle, candidates: seq<Candidate>, idleNodes: seq<Node>, unrecorded: Nodes -> Nodes)

  ghost predicate ValidEnv(env: Env) {
    && Coherent(env.candidates)
    && Distinct(env.idleNodes)
    && (forall n :: n in env.idleNodes ==> n.CpuIdleDisable?)
    && (forall nodes: Nodes {:trigger env.unrecorded(nodes)} :: env.unrecorded(nodes).Keys == nodes.Keys)
  }

  // ---------------------------------------------------------------- engine status

  datatype EngineStep = EngineStep(status: EngineStatus, ok: bool)

  function StartEngine(e: EngineStatus, outcome: EngineOutcome): EngineStep {
    if e.EngineRunning? then EngineStep(e, true)
    else match outcome
      case Starts => EngineStep(EngineRunning, true)
      case WorkersFail => EngineStep(if e.EngineStuck? then EngineStuck else EngineHalfStarted, false)
      case ControllerFails => EngineStep(EngineStuck, false)
  }

  function StopEngine(e: EngineStatus): EngineStep {
    if e.EngineStuck? then EngineStep(e, false) else EngineStep(EngineStopped, true)
  }

  function PauseEngine(e: EngineStatus): EngineStatus { if e.EngineRunning? then EnginePaused else e }

  function ResumeEngine(e: EngineStatus): EngineStatus { if e.EnginePaused? then EngineRunning else e }

  // ---------------------------------------------------------------- the policy transaction

  function RequestOf(c: Config): Request {
    Request(c.target, Some(c.governor), Some(true), Some(true), Some(c.epp))
  }

  /** Idle states of index one and deeper whose disable node can be read. */
  function FallbackPaths(nodes: Nodes, idle: seq<Node>): seq<Node> {
    if idle == [] then []
    else
      (if idle[0].CpuIdleDisable? && idle[0].idleState >= 1 && Read(nodes, idle[0]).Some? then [idle[0]] else [])
      + FallbackPaths(nodes, idle[1..])
  }

  function SaveAll(nodes: Nodes, paths: seq<Node>): seq<Saved>
    requires forall n :: n in paths ==> n in nodes
  {
    seq(|paths|, i requires 0 <= i < |paths| => assert paths[i] in paths; Saved(paths[i], nodes[paths[i]]))
  }

  function IdleActions(saved: seq<Saved>): seq<Action> {
    seq(|saved|, i requires 0 <= i < |saved| => Action(QosIdle, saved[i].node, Number(1), saved[i].value))
  }

  /** A planned fallback covers exactly the readable idle states of index one and deeper. */
  lemma {:induction false} FallbackPathsRead(nodes: Nodes, idle: seq<Node>)
    ensures forall n :: n in FallbackPaths(nodes, idle) <==>
              n in idle && n.CpuIdleDisable? && n.idleState >= 1 && n in nodes && nodes[n].Text?
    ensures Distinct(idle) ==> Distinct(FallbackPaths(nodes, idle))
  {
    if idle != [] {
      FallbackPathsRead(nodes, idle[1..]);
      assert forall n :: n in idle <==> n == idle[0] || n in idle[1..];
      if Distinct(idle) {
        assert Distinct(idle[1..]);
        assert idle[0] !in idle[1..];
      }
    }
  }

  /** And in the order in which the states were found. */
  lemma {:induction false} FallbackInOrder(nodes: Nodes, a: seq<Node>, b: seq<Node>)
    ensures FallbackPaths(nodes, a + b) == FallbackPaths(nodes, a) + FallbackPaths(nodes, b)
    decreases a
  {
    if a == [] {
      assert a + b == b;
    } else {
      assert (a + b)[0] == a[0] && (a + b)[1..] == a[1..] + b;
      FallbackInOrder(nodes, a[1..], b);
    }
  }

  datatype Routed = Routed(route: Route, saved: seq<Saved>)

  /** The device when it exists, else the readable idle states, else nothing. */
  function SelectRoute(env: Env, nodes: Nodes, deviceExists: bool): Routed {
    if deviceExists then Routed(DeviceRoute, [])
    else
      FallbackPathsRead(nodes, env.idleNodes);
      var saved := SaveAll(nodes, FallbackPaths(nodes, env.idleNodes));
      Routed(if saved == [] then NoRoute else IdleRoute, saved)
  }

  function QosActions(r: Routed, c: Config): seq<Action> {
    match r.route
    case NoRoute => []
    case DeviceRoute => [Action(QosDevice, DmaDevice, Number(c.latencyUs), RELEASE)]
    case IdleRoute => IdleActions(r.saved)
  }

  function FullPlan(r: Routed, c: Config, plan: Plan): Plan {
    var actions := plan.actions + QosActions(r, c);
    plan.(actions := actions, preflight := UniqueNodes(ActionNodes(actions), {}))
  }

  /** Apply the policy plan and one PM QoS route as one transaction. */
  function StartupTransaction(env: Env, w: World, c: Config, plan: Plan, deviceExists: bool): Step {
    var r := SelectRoute(env, w.sys.nodes, deviceExists);
    var done := Execute(env.oracle, r.route, w, FullPlan(r, c, plan));
    if !done.result.Applied? then Step(done.world, false)
    else if r.route.IdleRoute? then Step(ActivateFallback(done.world, r.saved), true)
    else Step(done.world, true)
  }

  // ---------------------------------------------------------------- commands

  /** What may go wrong outside the oracle: readable refused, threads and sockets that do not start. */
  datatype StartFaults = StartFaults(
    pidFree: bool, planReads: bool, snapshotReads: bool, routeReads: bool, deviceExists: bool,
    guardStarts: bool, engine: EngineOutcome, serverStarts: bool, restoreReads: bool)

  datatype LockFaults = LockFaults(
    planReads: bool, routeReads: bool, deviceExists: bool, engine: EngineOutcome)

  datatype Command =
    | StartCommand(start: StartFaults)
    | StopCommand(restoreReads: bool)
    | PauseCommand
    | ResumeCommand
    | LockCommand(lock: LockFaults)
    | UnlockCommand
    | Reconfigure(config: Config)
    | Trip
    | Recover

  /** Restore the snapshot and forget it; without one the nodes become what the surroundings say. */
  function RestoreState(env: Env, d: Daemon, readable: bool): Daemon {
    var sys := d.world.sys;
    var sys' := match d.snapshot
      case Some(snap) =>
        RestoreSnapshot(env.oracle, sys, if readable then Some(env.candidates) else None, snap).sys
      case None => sys.(nodes := env.unrecorded(sys.nodes));
    d.(snapshot := None, world := d.world.(sys := sys'))
  }

  function Unlocked(env: Env, d: Daemon): Daemon {
    d.(world := ReleaseLock(env.oracle, d.world, false).world)
  }

  function EmergencyRollback(env: Env, d: Daemon, final: DaemonState, restore: bool, readable: bool): Daemon {
    var released := Unlocked(env, d.(engine := StopEngine(d.engine).status, guard := false));
    var restored := if restore then RestoreState(env, released, readable) else released;
    restored.(serving := false, pid := false, state := final, locked := false)
  }

  function Start(env: Env, d: Daemon, f: StartFaults): Daemon {
    if d.state.Running? then d
    else if d.pid || !f.pidFree then EmergencyRollback(env, d, Error, true, f.restoreReads)
    else
      var held := d.(pid := true, state := Initializing);
      var plan := BuildPlan(d.world.sys.nodes, env.candidates, RequestOf(d.config), []);
      if !f.planReads || plan.Failure? || !f.snapshotReads then
        EmergencyRollback(env, held, Stopped, false, f.restoreReads)
      else StartPlanned(env, held, plan.value, f)
  }

  /** Record the plan's originals, then run the transaction and the services. */
  function StartPlanned(env: Env, d: Daemon, plan: Plan, f: StartFaults): Daemon {
    var recorded := d.(snapshot := Some(CreateSnapshot(d.world.sys.nodes, env.candidates, plan.actions)));
    if !f.routeReads then EmergencyRollback(env, recorded, Stopped, false, f.restoreReads)
    else
      var tx := StartupTransaction(env, d.world, d.config, plan, f.deviceExists);
      var applied := recorded.(world := tx.world);
      if !tx.ok then EmergencyRollback(env, applied, Stopped, false, f.restoreReads)
      else StartServices(env, applied, f)
  }

  /** Thermal guard, pulse engine and server, after the transaction has been applied. */
  function StartServices(env: Env, d: Daemon, f: StartFaults): Daemon {
    if !f.guardStarts then EmergencyRollback(env, d, Error, true, f.restoreReads)
    else
      var engine := StartEngine(d.engine, f.engine);
      var pulsing := d.(guard := true, engine := engine.status);
      if !engine.ok || !f.serverStarts then EmergencyRollback(env, pulsing, Error, true, f.restoreReads)
      else pulsing.(serving := true, state := Running, locked := true)
  }

  function Stop(env: Env, d: Daemon, readable: bool): Daemon {
    if d.state.Stopped? then d
    else
      var quiet := d.(state := Stopped, locked := false, engine := StopEngine(d.engine).status, guard := false);
      RestoreState(env, Unlocked(env, quiet), readable).(serving := false, pid := false)
  }

  function Lock(env: Env, d: Daemon, f: LockFaults): Daemon {
    var plan := BuildPlan(d.world.sys.nodes, env.candidates, RequestOf(d.config), []);
    if d.locked || !f.planReads || plan.Failure? || !f.routeReads then d
    else LockPlanned(env, d, plan.value, f)
  }

  /** Run the transaction of a lock, then start the engine. */
  function LockPlanned(env: Env, d: Daemon, plan: Plan, f: LockFaults): Daemon {
    var tx := StartupTransaction(env, d.world, d.config, plan, f.deviceExists);
    var engine := StartEngine(d.engine, f.engine);
    if !tx.ok then d.(world := tx.world)
    else if !engine.ok then d.(world := tx.world, engine := engine.status)
    else d.(world := tx.world, engine := engine.status, locked := true,
            state := if d.state.Throttled? then Throttled else Running)
  }

  function Unlock(env: Env, d: Daemon): Daemon {
    if !d.locked || !StopEngine(d.engine).ok then d
    else Unlocked(env, d.(engine := StopEngine(d.engine).status)).(locked := false)
  }

  /** The tripwire callback of the guard, in any state. */
  function Tripped(d: Daemon): Daemon { d.(state := Throttled, engine := PauseEngine(d.engine)) }

  /** Its recovery callback, which resumes a throttled daemon only. */
  function Recovered(d: Daemon): Daemon {
    if d.state.Throttled? then d.(state := Running, engine := ResumeEngine(d.engine)) else d
  }

  /** One command; the guard calls back only while it runs. */
  function Do(env: Env, d: Daemon, c: Command): Daemon {
    match c
    case StartCommand(f) => Start(env, d, f)
    case StopCommand(readable) => Stop(env, d, readable)
    case PauseCommand =>
      if d.state.Running? then d.(engine := PauseEngine(d.engine), state := Paused) else d
    case ResumeCommand =>
      if d.state.Paused? then d.(engine := ResumeEngine(d.engine), state := Running) else d
    case LockCommand(f) => Lock(env, d, f)
    case UnlockCommand => Unlock(env, d)
    case Reconfigure(config) => d.(config := config)
    case Trip => if d.guard then Tripped(d) else d
    case Recover => if d.guard then Recovered(d) else d
  }

  function Run(env: Env, d: Daemon, cs: seq<Command>): Daemon
    decreases cs
  {
    if cs == [] then d else Run(env, Do(env, d, cs[0]), cs[1..])
  }

  /** A daemon that has not been started yet. */
  function Initial(config: Config, nodes: Nodes): Daemon {
    Daemon(Stopped, false, EngineStopped, false, false, false, None, config,
           World(Sys(nodes, []), Qos(None, false, false, [], config.latencyUs)))
  }
}
