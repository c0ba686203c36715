/**
 The order of the two frequency bounds over everything the daemon does: its transaction, the
 restore of the snapshots it takes, and any run of commands.
 */
module RunBounds {
  import opened Common
  import opened Kernel
  import opened Policies
  import opened Planning
  import opened PmQos
  import opened Snapshots
  import opened CaptureLaws
  import opened Bounds
  import opened Daemons
  import opened DaemonLaws
  import opened RelockLaws
  import opened HonestyLaws
  import opened RunLaws

  // ---------------------------------------------------------------- the transaction

  /** The daemon's own transaction keeps an ordered policy ordered at every attempt, on every route. */
  lemma TransactionKeepsBoundsOrdered(env: Env, w: World, c: Config, deviceExists: bool, dir: Dir, hi: int)
    requires ValidEnv(env) && OrderedBelow(w.sys.nodes, dir, hi) && IdleOnly(w.qos.saved)
    requires BuildPlan(w.sys.nodes, env.candidates, RequestOf(c), []).Success?
    ensures var plan := BuildPlan(w.sys.nodes, env.candidates, RequestOf(c), []).value;
      SafeStep(w, StartupTransaction(env, w, c, plan, deviceExists).world, dir, hi)
  {
    var plan := BuildPlan(w.sys.nodes, env.candidates, RequestOf(c), []).value;
    var r := SelectRoute(env, w.sys.nodes, deviceExists);
    FullPlanKeepsOrder(env, w.sys.nodes, c, deviceExists, dir, hi);
    ExecuteKeepsBoundsOrdered(env.oracle, r.route, w, FullPlan(r, c, plan), dir, hi);
    RouteSaves(env, w.sys.nodes, deviceExists);
  }

  lemma FullPlanKeepsOrder(env: Env, nodes: Nodes, c: Config, deviceExists: bool, dir: Dir, hi: int)
    requires ValidEnv(env) && OrderedBelow(nodes, dir, hi)
    requires BuildPlan(nodes, env.candidates, RequestOf(c), []).Success?
    ensures var plan := BuildPlan(nodes, env.candidates, RequestOf(c), []).value;
      KeepsOrder(FullPlan(SelectRoute(env, nodes, deviceExists), c, plan).actions, dir, hi)
  {
    var plan := BuildPlan(nodes, env.candidates, RequestOf(c), []).value;
    var r := SelectRoute(env, nodes, deviceExists);
    PlanKeepsOrder(nodes, env.candidates, RequestOf(c), [], dir);
    RouteSaves(env, nodes, deviceExists);
    forall a | a in FullPlan(r, c, plan).actions && a !in plan.actions ensures !a.node.PolicyFile? {
      QosActionsOf(r, c, a);
    }
  }

  // ---------------------------------------------------------------- snapshots

  /**
   No maximum is saved, and the floor saved for the policy at dir is positive and at most hi. A
   policy's identifier depends on its directory entry alone.
   */
  ghost predicate FloorsSaved(cs: seq<Candidate>, snap: Snapshot, dir: Dir, hi: int) {
    && DistinctSnapIds(snap)
    && (forall s :: s in snap ==> ActiveMax !in s.saved)
    && (forall s, c | s in snap && c in cs && ActiveMin in s.saved && c.dir == dir && Inventory(map[], c).id == s.id ::
          FloorBelow(s.saved[ActiveMin], hi))
  }

  /** Every snapshot the daemon takes is of that kind. */
  lemma PlanSnapshotSavesFloors(pre: Nodes, cs: seq<Candidate>, req: Request, actions: seq<Action>, dir: Dir, hi: int)
    requires FirstPlan(pre, cs, req, actions) && OrderedBelow(pre, dir, hi)
    ensures FloorsSaved(cs, CreateSnapshot(pre, cs, actions), dir, hi)
  {
    var snap := CreateSnapshot(pre, cs, actions);
    SnapshotHoldsPlan(pre, cs, req, []);
    forall s | s in snap ensures ActiveMax !in s.saved {
      if ActiveMax in s.saved {
        var a :| a in actions && a.owner == Cpufreq(s.id, ActiveMax) && a.original == s.saved[ActiveMax];
        var d := ServesWhere(pre, cs, req, a);
        assert false;
      }
    }
    forall s, c | s in snap && c in cs && ActiveMin in s.saved && c.dir == dir && Inventory(map[], c).id == s.id
      ensures FloorBelow(s.saved[ActiveMin], hi)
    {
      var a :| a in actions && a.owner == Cpufreq(s.id, ActiveMin) && a.original == s.saved[ActiveMin];
      SavedFloorBelow(pre, cs, req, actions, c, a, hi);
    }
  }

  lemma SavedFloorBelow(
    pre: Nodes, cs: seq<Candidate>, req: Request, actions: seq<Action>, c: Candidate, a: Action, hi: int)
    requires FirstPlan(pre, cs, req, actions) && OrderedBelow(pre, c.dir, hi)
    requires c in cs && a in actions && a.owner == Cpufreq(Inventory(pre, c).id, ActiveMin)
    ensures FloorBelow(a.original, hi)
  {
    var d := ServesWhere(pre, cs, req, a);
    KeptOnce(cs, {});
    if d.dir != c.dir { DistinctIds(pre, cs, c, d); }
    PlanKeepsOrder(pre, cs, req, [], c.dir);
  }

  /** Restoring such a snapshot is safe in any ordered tree with the same maximum, however it ends. */
  lemma RestoreFloors(o: Oracle, sys: Sys, cs: seq<Candidate>, readable: bool, snap: Snapshot, dir: Dir, hi: int)
    requires OrderedBelow(sys.nodes, dir, hi) && FloorsSaved(cs, snap, dir, hi)
    ensures var after := RestoreSnapshot(o, sys, if readable then Some(cs) else None, snap).sys;
      SafeBetween(sys, after, dir) && OrderedBelow(after.nodes, dir, hi)
  {
    if readable {
      forall s, p | s in snap && p in DiscoverPolicies(sys.nodes, cs) && p.id == s.id && p.dir == dir
        ensures BoundsFit(sys.nodes, dir, s)
      {
        DiscoveryIsUnique(sys.nodes, cs);
        var c :| c in cs && p == Inventory(sys.nodes, c);
        assert Inventory(map[], c).id == s.id;
      }
      RestoreKeepsBoundsOrdered(o, sys, cs, snap, dir);
      var after := RestoreSnapshot(o, sys, Some(cs), snap).sys;
      SafeTraceEnds(sys.nodes, after.log[|sys.log|..], dir);
    } else {
      FailedDiscoveryReportsAll(o, sys, snap);
      SafeNothing(sys, dir);
    }
  }

  /**
   Restoring the snapshot of a plan, wherever only captured nodes and idle states have drifted:
   every attempt keeps every ordered policy ordered, whatever is refused.
   */
  lemma PlanSnapshotKeepsBoundsOrdered(
    o: Oracle, pre: Nodes, sys: Sys, cs: seq<Candidate>, req: Request, actions: seq<Action>, dir: Dir)
    requires FirstPlan(pre, cs, req, actions) && Drifted(pre, sys.nodes, actions)
    requires Ordered(pre, dir) && Ordered(sys.nodes, dir)
    ensures SafeBetween(sys, RestoreSnapshot(o, sys, Some(cs), CreateSnapshot(pre, cs, actions)).sys, dir)
  {
    var hi := ReadInt(pre, PolicyFile(dir, ScalingMaxFreq)).value;
    MaximumUnplanned(pre, cs, req, actions, dir);
    PlanSnapshotSavesFloors(pre, cs, req, actions, dir, hi);
    assert PolicyFile(dir, ScalingMaxFreq) in pre.Keys;
    RestoreFloors(o, sys, cs, true, CreateSnapshot(pre, cs, actions), dir, hi);
  }

  lemma MaximumUnplanned(pre: Nodes, cs: seq<Candidate>, req: Request, actions: seq<Action>, dir: Dir)
    requires FirstPlan(pre, cs, req, actions) && Ordered(pre, dir)
    ensures !PlannedNode(actions, PolicyFile(dir, ScalingMaxFreq))
  {
    PlanKeepsOrder(pre, cs, req, [], dir);
  }

  // ---------------------------------------------------------------- the daemon

  /** Between commands: ordered with a maximum of hi, and nothing on record that restores otherwise. */
  ghost predicate BoundsInv(env: Env, d: Daemon, dir: Dir, hi: int) {
    && OrderedBelow(d.world.sys.nodes, dir, hi)
    && IdleOnly(d.world.qos.saved)
    && (d.snapshot.Some? ==> FloorsSaved(env.candidates, d.snapshot.value, dir, hi))
  }

  /** A safe stretch from one daemon state to another that keeps the invariant. */
  ghost predicate SafeMove(env: Env, before: Daemon, after: Daemon, dir: Dir, hi: int) {
    SafeBetween(before.world.sys, after.world.sys, dir) && BoundsInv(env, after, dir, hi)
  }

  lemma MoveChain(env: Env, a: Daemon, b: Daemon, c: Daemon, dir: Dir, hi: int)
    requires SafeMove(env, a, b, dir, hi) && SafeMove(env, b, c, dir, hi)
    ensures SafeMove(env, a, c, dir, hi)
  {
    SafeChain(a.world.sys, b.world.sys, c.world.sys, dir);
  }

  lemma MoveNothing(env: Env, a: Daemon, b: Daemon, dir: Dir, hi: int)
    requires BoundsInv(env, a, dir, hi) && b.world == a.world && b.snapshot == a.snapshot
    ensures SafeMove(env, a, b, dir, hi)
  {
    SafeNothing(a.world.sys, dir);
  }

  lemma UnlockedSafe(env: Env, d: Daemon, dir: Dir, hi: int)
    requires BoundsInv(env, d, dir, hi)
    ensures SafeMove(env, d, Unlocked(env, d), dir, hi)
  {
    SafeRelease(env.oracle, d.world, false, dir, hi);
  }

  lemma RestoreStateSafe(env: Env, d: Daemon, readable: bool, dir: Dir, hi: int)
    requires BoundsInv(env, d, dir, hi) && d.snapshot.Some?
    ensures SafeMove(env, d, RestoreState(env, d, readable), dir, hi)
  {
    RestoreFloors(env.oracle, d.world.sys, env.candidates, readable, d.snapshot.value, dir, hi);
  }

  lemma RollbackSafe(
    env: Env, d: Daemon, final: DaemonState, restore: bool, readable: bool, dir: Dir, hi: int)
    requires BoundsInv(env, d, dir, hi) && (restore ==> d.snapshot.Some?)
    ensures SafeMove(env, d, EmergencyRollback(env, d, final, restore, readable), dir, hi)
  {
    var quiet := d.(engine := StopEngine(d.engine).status, guard := false);
    var released := Unlocked(env, quiet);
    MoveNothing(env, d, quiet, dir, hi);
    UnlockedSafe(env, quiet, dir, hi);
    MoveChain(env, d, quiet, released, dir, hi);
    if restore {
      RestoreStateSafe(env, released, readable, dir, hi);
      MoveChain(env, d, released, RestoreState(env, released, readable), dir, hi);
    }
    var restored := if restore then RestoreState(env, released, readable) else released;
    var after := EmergencyRollback(env, d, final, restore, readable);
    MoveNothing(env, restored, after, dir, hi);
    MoveChain(env, d, restored, after, dir, hi);
  }

  lemma ServicesSafe(env: Env, d: Daemon, f: StartFaults, dir: Dir, hi: int)
    requires BoundsInv(env, d, dir, hi) && d.snapshot.Some?
    ensures SafeMove(env, d, StartServices(env, d, f), dir, hi)
  {
    RollbackSafe(env, d, Error, true, f.restoreReads, dir, hi);
    var pulsing := d.(guard := true, engine := StartEngine(d.engine, f.engine).status);
    MoveNothing(env, d, pulsing, dir, hi);
    RollbackSafe(env, pulsing, Error, true, f.restoreReads, dir, hi);
    MoveChain(env, d, pulsing, EmergencyRollback(env, pulsing, Error, true, f.restoreReads), dir, hi);
    MoveNothing(env, d, pulsing.(serving := true, state := Running, locked := true), dir, hi);
  }

  lemma PlannedStartSafe(env: Env, d: Daemon, f: StartFaults, dir: Dir, hi: int)
    requires ValidEnv(env) && BoundsInv(env, d, dir, hi)
    requires BuildPlan(d.world.sys.nodes, env.candidates, RequestOf(d.config), []).Success?
    ensures var plan := BuildPlan(d.world.sys.nodes, env.candidates, RequestOf(d.config), []).value;
      SafeMove(env, d, StartPlanned(env, d, plan, f), dir, hi)
  {
    var nodes := d.world.sys.nodes;
    var plan := BuildPlan(nodes, env.candidates, RequestOf(d.config), []).value;
    var recorded := d.(snapshot := Some(CreateSnapshot(nodes, env.candidates, plan.actions)));
    PlanSnapshotSavesFloors(nodes, env.candidates, RequestOf(d.config), plan.actions, dir, hi);
    SafeNothing(d.world.sys, dir);
    if !f.routeReads {
      RollbackSafe(env, recorded, Stopped, false, f.restoreReads, dir, hi);
    } else {
      var tx := StartupTransaction(env, d.world, d.config, plan, f.deviceExists);
      TransactionKeepsBoundsOrdered(env, d.world, d.config, f.deviceExists, dir, hi);
      AppliedStartSafe(env, recorded, tx, f, dir, hi);
    }
  }

  lemma AppliedStartSafe(env: Env, d: Daemon, tx: Step, f: StartFaults, dir: Dir, hi: int)
    requires BoundsInv(env, d, dir, hi) && d.snapshot.Some? && SafeStep(d.world, tx.world, dir, hi)
    ensures var applied := d.(world := tx.world);
      SafeMove(env, d, if !tx.ok then EmergencyRollback(env, applied, Stopped, false, f.restoreReads)
                       else StartServices(env, applied, f), dir, hi)
  {
    var applied := d.(world := tx.world);
    if tx.ok {
      ServicesSafe(env, applied, f, dir, hi);
      MoveChain(env, d, applied, StartServices(env, applied, f), dir, hi);
    } else {
      RollbackSafe(env, applied, Stopped, false, f.restoreReads, dir, hi);
      MoveChain(env, d, applied, EmergencyRollback(env, applied, Stopped, false, f.restoreReads), dir, hi);
    }
  }

  /** A command restores through a snapshot in memory, should it restore at all. */
  predicate RestoresRecorded(d: Daemon, c: Command) {
    match c
    case StartCommand(f) => d.state.Running? || (!d.pid && f.pidFree) || d.snapshot.Some?
    case StopCommand(_) => d.state.Stopped? || d.snapshot.Some?
    case _ => true
  }

  predicate RecordedThroughout(env: Env, d: Daemon, cs: seq<Command>)
    decreases cs
  {
    cs == [] || (RestoresRecorded(d, cs[0]) && RecordedThroughout(env, Do(env, d, cs[0]), cs[1..]))
  }

  lemma StartSafe(env: Env, d: Daemon, f: StartFaults, dir: Dir, hi: int)
    requires ValidEnv(env) && BoundsInv(env, d, dir, hi) && RestoresRecorded(d, StartCommand(f))
    ensures SafeMove(env, d, Start(env, d, f), dir, hi)
  {
    MoveNothing(env, d, d, dir, hi);
    if d.state.Running? {
    } else if d.pid || !f.pidFree {
      RollbackSafe(env, d, Error, true, f.restoreReads, dir, hi);
    } else {
      var held := d.(pid := true, state := Initializing);
      MoveNothing(env, d, held, dir, hi);
      var plan := BuildPlan(d.world.sys.nodes, env.candidates, RequestOf(d.config), []);
      if !f.planReads || plan.Failure? || !f.snapshotReads {
        RollbackSafe(env, held, Stopped, false, f.restoreReads, dir, hi);
      } else {
        PlannedStartSafe(env, held, f, dir, hi);
      }
      MoveChain(env, d, held, Start(env, d, f), dir, hi);
    }
  }

  lemma StopSafe(env: Env, d: Daemon, readable: bool, dir: Dir, hi: int)
    requires BoundsInv(env, d, dir, hi) && RestoresRecorded(d, StopCommand(readable))
    ensures SafeMove(env, d, Stop(env, d, readable), dir, hi)
  {
    MoveNothing(env, d, d, dir, hi);
    if !d.state.Stopped? {
      var quiet := d.(state := Stopped, locked := false, engine := StopEngine(d.engine).status, guard := false);
      MoveNothing(env, d, quiet, dir, hi);
      UnlockedSafe(env, quiet, dir, hi);
      MoveChain(env, d, quiet, Unlocked(env, quiet), dir, hi);
      RestoreStateSafe(env, Unlocked(env, quiet), readable, dir, hi);
      MoveChain(env, d, Unlocked(env, quiet), RestoreState(env, Unlocked(env, quiet), readable), dir, hi);
    }
  }

  lemma LockSafe(env: Env, d: Daemon, f: LockFaults, dir: Dir, hi: int)
    requires ValidEnv(env) && BoundsInv(env, d, dir, hi)
    ensures SafeMove(env, d, Lock(env, d, f), dir, hi)
  {
    MoveNothing(env, d, d, dir, hi);
    LockOutcome(env, d, f);
    if LockTries(env, d, f) { TransactionKeepsBoundsOrdered(env, d.world, d.config, f.deviceExists, dir, hi); }
  }

  lemma UnlockSafe(env: Env, d: Daemon, dir: Dir, hi: int)
    requires BoundsInv(env, d, dir, hi)
    ensures SafeMove(env, d, Unlock(env, d), dir, hi)
  {
    MoveNothing(env, d, d, dir, hi);
    UnlockedSafe(env, d.(engine := StopEngine(d.engine).status), dir, hi);
  }

  lemma CommandSafe(env: Env, d: Daemon, c: Command, dir: Dir, hi: int)
    requires ValidEnv(env) && BoundsInv(env, d, dir, hi) && RestoresRecorded(d, c)
    ensures SafeMove(env, d, Do(env, d, c), dir, hi)
  {
    match c {
      case StartCommand(f) => StartSafe(env, d, f, dir, hi);
      case StopCommand(readable) => StopSafe(env, d, readable, dir, hi);
      case LockCommand(f) => LockSafe(env, d, f, dir, hi);
      case UnlockCommand => UnlockSafe(env, d, dir, hi);
      case _ => MoveNothing(env, d, Do(env, d, c), dir, hi);
    }
  }

  /**
   Every attempt of any run of commands, starts, stops and all, with any attempts refused, any
   discoveries that fail and any threads that do not start, proposes and leaves ordered bounds at
   every policy that was ordered to begin with, and its maximum never moves; as long as no restore
   has to do without a snapshot in memory.
   */
  lemma {:induction false} RunKeepsBoundsOrdered(env: Env, d: Daemon, cs: seq<Command>, dir: Dir, hi: int)
    requires ValidEnv(env) && BoundsInv(env, d, dir, hi) && RecordedThroughout(env, d, cs)
    ensures SafeMove(env, d, Run(env, d, cs), dir, hi)
    decreases cs
  {
    MoveNothing(env, d, d, dir, hi);
    if cs != [] {
      CommandSafe(env, d, cs[0], dir, hi);
      RunKeepsBoundsOrdered(env, Do(env, d, cs[0]), cs[1..], dir, hi);
      MoveChain(env, d, Do(env, d, cs[0]), Run(env, d, cs), dir, hi);
    }
  }

  /**
   From a daemon at rest in an ordered tree: a start that succeeds, any commands but starts and
   stops, and a stop. Every attempt on the way keeps the policy ordered.
   */
  lemma WholeRunKeepsBoundsOrdered(
    env: Env, d: Daemon, f: StartFaults, cs: seq<Command>, readable: bool, dir: Dir)
    requires ValidEnv(env) && AtRest(d) && Ordered(d.world.sys.nodes, dir) && d.snapshot.None?
    requires Start(env, d, f).state.Running? && forall c :: c in cs ==> !c.StartCommand? && !c.StopCommand?
    ensures SafeBetween(d.world.sys, Stop(env, Run(env, Start(env, d, f), cs), readable).world.sys, dir)
  {
    var hi := ReadInt(d.world.sys.nodes, PolicyFile(dir, ScalingMaxFreq)).value;
    var up := Start(env, d, f);
    var last := Run(env, up, cs);
    assert BoundsInv(env, d, dir, hi);
    StartedDaemon(env, d, f);
    StartSafe(env, d, f, dir, hi);
    AlwaysRecorded(env, up, cs);
    RunKeepsBoundsOrdered(env, up, cs, dir, hi);
    MoveChain(env, d, up, last, dir, hi);
    SnapshotNeverReplaced(env, up, cs);
    StopSafe(env, last, readable, dir, hi);
    MoveChain(env, d, last, Stop(env, last, readable), dir, hi);
  }

  lemma {:induction false} AlwaysRecorded(env: Env, d: Daemon, cs: seq<Command>)
    requires forall c :: c in cs ==> !c.StartCommand? && !c.StopCommand?
    ensures RecordedThroughout(env, d, cs)
    decreases cs
  {
    if cs != [] {
      assert cs[0] in cs && forall c :: c in cs[1..] ==> c in cs;
      AlwaysRecorded(env, Do(env, d, cs[0]), cs[1..]);
    }
  }

  /** A daemon that was never started satisfies the invariant at every ordered policy. */
  lemma InitialBounds(env: Env, config: Config, nodes: Nodes, dir: Dir)
    requires Ordered(nodes, dir)
    ensures BoundsInv(env, Initial(config, nodes), dir, ReadInt(nodes, PolicyFile(dir, ScalingMaxFreq)).value)
  {
  }
}
