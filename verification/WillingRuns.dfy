/**
 Runs on machines that refuse nothing and have no latency device: what the conditions of the run
 theorems exclude does happen there, whatever the machine's policies and idle states are.
 */
module WillingRuns {
  import opened Kernel
  import opened Policies
  import opened Planning
  import opened PlanLaws
  import opened PmQos
  import opened Transaction
  import opened Daemons
  import opened DaemonLaws
  import opened FloorLaws
  import opened LockLaws
  import opened RunLaws

  /** No attempt is ever refused. */
  ghost predicate Willing(o: Oracle) { (forall k: nat :: o.forward(k)) && o.UndoWorks() }

  ghost predicate WillingEnv(env: Env, pre: Nodes) { ValidEnv(env) && Willing(env.oracle) && DmaDevice !in pre }

  predicate NothingFails(f: StartFaults) {
    && f.pidFree && f.planReads && f.snapshotReads && f.routeReads && !f.deviceExists
    && f.guardStarts && f.engine.Starts? && f.serverStarts
  }

  predicate NothingUnread(f: LockFaults) { f.planReads && f.routeReads && !f.deviceExists }

  // ---------------------------------------------------------------- transactions

  lemma {:induction false} WillingPreflight(o: Oracle, sys: Sys, paths: seq<Node>)
    requires Willing(o)
    ensures PreflightAll(o, sys, paths).refused.None? && PreflightAll(o, sys, paths).sys.nodes == sys.nodes
    decreases paths
  {
    if paths != [] { WillingPreflight(o, Perform(o, Forward, sys, Preflight(paths[0])).sys, paths[1..]); }
  }

  lemma {:induction false} WillingApply(o: Oracle, route: Route, w: World, actions: seq<Action>)
    requires Willing(o) && !route.DeviceRoute? && forall a :: a in actions ==> a.node in w.sys.nodes
    ensures ApplyActions(o, route, w, actions).count == |actions|
    decreases actions
  {
    if actions != [] {
      var next := WriteAction(o, Forward, route, w, actions[0].node, actions[0].value).world;
      assert actions[0] in actions && forall a :: a in actions[1..] ==> a in actions;
      WillingApply(o, route, next, actions[1..]);
    }
  }

  /** Every transaction is applied. */
  lemma WillingTransaction(env: Env, w: World, c: Config)
    requires WillingEnv(env, w.sys.nodes) && BuildPlan(w.sys.nodes, env.candidates, RequestOf(c), []).Success?
    ensures StartupTransaction(env, w, c, BuildPlan(w.sys.nodes, env.candidates, RequestOf(c), []).value, false).ok
  {
    var plan := BuildPlan(w.sys.nodes, env.candidates, RequestOf(c), []).value;
    var r := SelectRoute(env, w.sys.nodes, false);
    var full := FullPlan(r, c, plan);
    RouteSaves(env, w.sys.nodes, false);
    TransactionReady(env, w, c, false);
    WillingPreflight(env.oracle, w.sys, full.preflight);
    WillingApply(env.oracle, r.route, w.(sys := PreflightAll(env.oracle, w.sys, full.preflight).sys), full.actions);
  }

  // ---------------------------------------------------------------- runs in which no plan is undone

  /** A run in which the first plan is in force. */
  ghost predicate InForceRun(env: Env, pre: Nodes, first: Config, actions: seq<Action>, d: Daemon) {
    RunInv(env, pre, first, actions, d) && PlanApplied(pre, d.world.sys.nodes, actions)
  }

  /** A start succeeds, and opens such a run with the pulse engine running. */
  lemma WillingStart(env: Env, first: Config, pre: Nodes, f: StartFaults)
    requires WillingEnv(env, pre) && BuildPlan(pre, env.candidates, RequestOf(first), []).Success? && NothingFails(f)
    ensures var d := Initial(first, pre); var up := Start(env, d, f);
      && AtRest(d) && up.state.Running? && up.locked && up.engine.EngineRunning? && up.config == first
      && InForceRun(env, pre, first, FirstActions(env, d), up)
  {
    var d := Initial(first, pre);
    InitialAgrees(first, pre);
    FirstInForce(env, d.world, first);
    StartedDaemon(env, d, f);
    StartOpensRun(env, d, f);
  }

  lemma FirstInForce(env: Env, w: World, c: Config)
    requires WillingEnv(env, w.sys.nodes) && BuildPlan(w.sys.nodes, env.candidates, RequestOf(c), []).Success?
    requires Tidy(w.qos) && w.qos.saved == []
    ensures var plan := BuildPlan(w.sys.nodes, env.candidates, RequestOf(c), []).value;
      var tx := StartupTransaction(env, w, c, plan, false);
      tx.ok && PlanApplied(w.sys.nodes, tx.world.sys.nodes, plan.actions)
  {
    WillingTransaction(env, w, c);
    AppliedInForce(env, w, c, false);
    RouteSaves(env, w.sys.nodes, false);
  }

  /** An unlock keeps the plan in force and leaves nothing on record. */
  lemma WillingUnlock(env: Env, pre: Nodes, first: Config, actions: seq<Action>, d: Daemon)
    requires WillingEnv(env, pre) && InForceRun(env, pre, first, actions, d) && d.locked && d.engine.EngineRunning?
    ensures var free := Unlock(env, d);
      && InForceRun(env, pre, first, actions, free) && free.world.qos.saved == [] && !free.world.qos.fallback
      && !free.locked && free.engine.EngineStopped? && free.config == d.config
  {
    UnlockKeepsRun(env, pre, first, actions, d);
    ReleaseOnlyIdle(env, pre, first, actions, d.world);
  }

  lemma ReleaseOnlyIdle(env: Env, pre: Nodes, first: Config, actions: seq<Action>, w: World)
    requires Undoable(env, pre, RequestOf(first), actions, w) && PlanApplied(pre, w.sys.nodes, actions)
    ensures PlanApplied(pre, ReleaseLock(env.oracle, w, false).world.sys.nodes, actions)
  {
    var sys := if w.qos.fd.Some? then Perform(env.oracle, Undo, w.sys, CloseDevice).sys else w.sys;
    var after := ReleaseLock(env.oracle, w, false).world.sys.nodes;
    WriteBackFrame(env.oracle, sys, w.qos.saved);
    SameKeys(pre, w.sys.nodes);
    SameKeys(w.sys.nodes, after);
    forall n | n in w.sys.nodes && !n.CpuIdleDisable? ensures after[n] == w.sys.nodes[n] {
      assert !SavedNode(w.qos.saved, n);
    }
    forall a | a in actions ensures a.node in after && after[a.node] == a.value {
      IdleNodesUnplanned(env, pre, RequestOf(first), actions, CpuIdleDisable(0, 0));
      if a.node.CpuIdleDisable? { IdleNodesUnplanned(env, pre, RequestOf(first), actions, a.node); }
    }
  }

  /** Some policy takes a floor under the first plan, so a later plan exists as well. */
  ghost predicate TakesFloor(env: Env, pre: Nodes, first: Config, c: Candidate) {
    c in Kept(env.candidates, {}) && Wants(Inventory(pre, c), RequestOf(first), ActiveMin)
  }

  /** Any lock that is tried applies. */
  lemma WillingLock(
    env: Env, pre: Nodes, first: Config, actions: seq<Action>, d: Daemon, f: LockFaults, c: Candidate)
    requires WillingEnv(env, pre) && InForceRun(env, pre, first, actions, d) && TakesFloor(env, pre, first, c)
    requires !d.locked && NothingUnread(f)
    ensures LockApplies(env, d, f)
  {
    var i := FloorsCompose(
      pre, d.world.sys.nodes, env.candidates, RequestOf(first), RequestOf(d.config), actions, c);
    SameKeys(pre, d.world.sys.nodes);
    WillingTransaction(env, d.world, d.config);
  }

  /** A start puts the floor of every policy that takes one in force, and a stop takes it back. */
  lemma StartThenStop(env: Env, pre: Nodes, first: Config, f: StartFaults, c: Candidate)
    requires WillingEnv(env, pre) && BuildPlan(pre, env.candidates, RequestOf(first), []).Success? && NothingFails(f)
    requires TakesFloor(env, pre, first, c)
    ensures var d := Initial(first, pre); var up := Start(env, d, f);
      && Holds(up.world.sys.nodes, PolicyFile(c.dir, ScalingMinFreq),
               Number(EffectiveTarget(Inventory(pre, c).limits, first.target).value))
      && AtRest(d) && up.state.Running? && Stop(env, up, true).world.sys.nodes == pre
  {
    var d := Initial(first, pre);
    WillingStart(env, first, pre, f);
    var a := FloorAction(pre, env.candidates, RequestOf(first), FirstActions(env, d), c);
    WholeRunRestores(env, d, f, []);
  }

  // ---------------------------------------------------------------- a lock that loses its engine

  /**
   When the worker threads refuse to start, a lock leaves its transaction in force while the boost
   flag stays off and the engine is not stopped: the agreement is lost.
   */
  lemma LockLosesItsEngine(env: Env, c: Config, nodes: Nodes, f: LockFaults)
    requires WillingEnv(env, nodes) && BuildPlan(nodes, env.candidates, RequestOf(c), []).Success?
    requires NothingUnread(f) && f.engine.WorkersFail?
    ensures var d := Initial(c, nodes); AgreeInv(d) && !Agrees(Lock(env, d, f))
  {
    InitialAgrees(c, nodes);
    WillingTransaction(env, Initial(c, nodes).world, c);
    LockAgrees(env, Initial(c, nodes), f);
  }

  /**
   And the lock after it forgets what the idle states held. Start, unlock, a lock whose worker
   threads refuse to start, and a second lock, whatever its engine does: every idle state the
   fallback disables is still disabled after the stop, and nothing has it on record any more.
   */
  lemma SecondLockForgets(
    env: Env, pre: Nodes, first: Config, f: StartFaults, lost: LockFaults, again: LockFaults, c: Candidate, n: Node)
    requires WillingEnv(env, pre) && BuildPlan(pre, env.candidates, RequestOf(first), []).Success?
    requires TakesFloor(env, pre, first, c)
    requires NothingFails(f) && NothingUnread(lost) && lost.engine.WorkersFail? && NothingUnread(again)
    requires n in FallbackPaths(pre, env.idleNodes)
    ensures var up := Start(env, Initial(first, pre), f);
      var final := Stop(env, Lock(env, Lock(env, Unlock(env, up), lost), again), true);
      && AtRest(Initial(first, pre)) && up.state.Running?
      && Holds(final.world.sys.nodes, n, Number(1))
      && final.state.Stopped? && final.snapshot.None? && Idle(final.world.qos)
  {
    var actions := FirstActions(env, Initial(first, pre));
    WillingStart(env, first, pre, f);
    var up := Start(env, Initial(first, pre), f);
    WillingUnlock(env, pre, first, actions, up);
    ForgetsFrom(env, pre, first, actions, Unlock(env, up), lost, again, c, n);
  }

  lemma ForgetsFrom(
    env: Env, pre: Nodes, first: Config, actions: seq<Action>, d: Daemon, lost: LockFaults, again: LockFaults,
    c: Candidate, n: Node)
    requires WillingEnv(env, pre) && InForceRun(env, pre, first, actions, d) && TakesFloor(env, pre, first, c)
    requires !d.locked && d.engine.EngineStopped? && d.world.qos.saved == [] && !d.world.qos.fallback
    requires d.config == first
    requires NothingUnread(lost) && lost.engine.WorkersFail? && NothingUnread(again)
    requires n in FallbackPaths(pre, env.idleNodes)
    ensures var final := Stop(env, Lock(env, Lock(env, d, lost), again), true);
      && Holds(final.world.sys.nodes, n, Number(1))
      && final.state.Stopped? && final.snapshot.None? && Idle(final.world.qos)
  {
    RelockInForce(env, pre, first, actions, d, lost, c, n);
    WillingLock(env, pre, first, actions, Lock(env, d, lost), again, c);
    ForgottenStateSurvives(env, pre, first, actions, Lock(env, d, lost), again, n);
  }

  /** A lock for the same configuration keeps the plan in force, and has every idle state on record. */
  lemma RelockInForce(
    env: Env, pre: Nodes, first: Config, actions: seq<Action>, d: Daemon, f: LockFaults, c: Candidate, n: Node)
    requires WillingEnv(env, pre) && InForceRun(env, pre, first, actions, d) && TakesFloor(env, pre, first, c)
    requires !d.locked && d.engine.EngineStopped? && d.world.qos.saved == [] && !d.world.qos.fallback
    requires d.config == first && NothingUnread(f) && f.engine.WorkersFail?
    requires n in FallbackPaths(pre, env.idleNodes)
    ensures var after := Lock(env, d, f);
      && InForceRun(env, pre, first, actions, after) && SavedNode(after.world.qos.saved, n)
      && !after.locked && after.config == first
  {
    WillingLock(env, pre, first, actions, d, f, c);
    CoveredSpares(env, pre, RequestOf(first), actions, d.world, first, false);
    LockKeepsRun(env, pre, first, actions, d, f);
    LockOutcome(env, d, f);
    LostLockFlag(env, d, f);
    SameRequestInForce(env, pre, first, actions, d.world);
    FallbackRecords(env, pre, first, actions, d.world, n);
  }

  lemma LostLockFlag(env: Env, d: Daemon, f: LockFaults)
    requires LockApplies(env, d, f) && f.engine.WorkersFail? && d.engine.EngineStopped?
    ensures !Lock(env, d, f).locked && Lock(env, d, f).config == d.config
  {
  }

  lemma SameRequestInForce(env: Env, pre: Nodes, first: Config, actions: seq<Action>, w: World)
    requires WillingEnv(env, pre) && Undoable(env, pre, RequestOf(first), actions, w)
    requires PlanApplied(pre, w.sys.nodes, actions)
    requires BuildPlan(w.sys.nodes, env.candidates, RequestOf(first), []).Success?
    requires StartupTransaction(env, w, first, BuildPlan(w.sys.nodes, env.candidates, RequestOf(first), []).value, false).ok
    ensures var again := BuildPlan(w.sys.nodes, env.candidates, RequestOf(first), []).value;
      PlanApplied(pre, StartupTransaction(env, w, first, again, false).world.sys.nodes, actions)
  {
    var again := BuildPlan(w.sys.nodes, env.candidates, RequestOf(first), []).value;
    var after := StartupTransaction(env, w, first, again, false).world.sys.nodes;
    SameKeys(pre, w.sys.nodes);
    AppliedInForce(env, w, first, false);
    SameKeys(w.sys.nodes, after);
    RouteSaves(env, w.sys.nodes, false);
    forall m | m in w.sys.nodes && !m.CpuIdleDisable? ensures m in after && after[m] == w.sys.nodes[m] {
      if PlannedNode(again.actions, m) {
        var a :| a in again.actions && a.node == m;
        ReplanIsIdempotent(pre, w.sys.nodes, env.candidates, RequestOf(first), actions, a);
        PlanIsWellFormed(w.sys.nodes, env.candidates, RequestOf(first), []);
      }
    }
    forall a | a in actions ensures a.node in after && after[a.node] == a.value {
      PlanAvoidsDevice(pre, env.candidates, RequestOf(first), [], a);
    }
  }

  /** What a fallback would have saved before the start, it saves again after an unlock. */
  lemma FallbackRecords(env: Env, pre: Nodes, first: Config, actions: seq<Action>, w: World, n: Node)
    requires WillingEnv(env, pre) && Undoable(env, pre, RequestOf(first), actions, w) && w.qos.saved == []
    requires BuildPlan(w.sys.nodes, env.candidates, RequestOf(first), []).Success?
    requires StartupTransaction(env, w, first, BuildPlan(w.sys.nodes, env.candidates, RequestOf(first), []).value, false).ok
    requires n in FallbackPaths(pre, env.idleNodes)
    ensures var plan := BuildPlan(w.sys.nodes, env.candidates, RequestOf(first), []).value;
      SavedNode(StartupTransaction(env, w, first, plan, false).world.qos.saved, n)
  {
    SameKeys(pre, w.sys.nodes);
    FallbackPathsRead(pre, env.idleNodes);
    FallbackPathsRead(w.sys.nodes, env.idleNodes);
    IdleNodesUnplanned(env, pre, RequestOf(first), actions, n);
    assert n in FallbackPaths(w.sys.nodes, env.idleNodes);
    AppliedInForce(env, w, first, false);
    var paths := FallbackPaths(w.sys.nodes, env.idleNodes);
    var i :| 0 <= i < |paths| && paths[i] == n;
    assert SaveAll(w.sys.nodes, paths)[i].node == n;
  }

  // ---------------------------------------------------------------- a governor the start did not capture

  /** A policy takes a floor but does not offer the first governor; it offers the later one, new to it. */
  ghost predicate Uncovered(env: Env, pre: Nodes, c: Candidate, first: Config, later: Config) {
    var p := Inventory(pre, c); var n := PolicyFile(c.dir, ScalingGovernor);
    && TakesFloor(env, pre, first, c)
    && first.governor !in p.governors && later.governor in p.governors
    && n in pre && pre[n] != Text([later.governor])
  }

  /** Start, unlock, reconfigure, lock and stop. */
  function RelockedRun(
    env: Env, pre: Nodes, first: Config, later: Config, f: StartFaults, lock: LockFaults): Daemon
  {
    var up := Start(env, Initial(first, pre), f);
    Stop(env, Lock(env, Do(env, Unlock(env, up), Reconfigure(later)), lock), true)
  }

  /** Reconfigured to such a governor, the run ends with it in force and the old one on no record. */
  lemma UncoveredGovernorStays(
    env: Env, pre: Nodes, c: Candidate, first: Config, later: Config, f: StartFaults, lock: LockFaults)
    requires WillingEnv(env, pre) && BuildPlan(pre, env.candidates, RequestOf(first), []).Success?
    requires NothingFails(f) && NothingUnread(lock) && Uncovered(env, pre, c, first, later)
    ensures AtRest(Initial(first, pre)) && Start(env, Initial(first, pre), f).state.Running?
    ensures var final := RelockedRun(env, pre, first, later, f, lock);
      && Holds(final.world.sys.nodes, PolicyFile(c.dir, ScalingGovernor), Text([later.governor]))
      && final.state.Stopped? && final.snapshot.None? && Idle(final.world.qos)
  {
    var actions := FirstActions(env, Initial(first, pre));
    WillingStart(env, first, pre, f);
    var up := Start(env, Initial(first, pre), f);
    WillingUnlock(env, pre, first, actions, up);
    Reconfigured(env, Unlock(env, up), later);
    UncoveredLock(env, pre, c, first, later, actions, Unlock(env, up).(config := later), lock);
  }

  lemma Reconfigured(env: Env, d: Daemon, later: Config)
    ensures Do(env, d, Reconfigure(later)) == d.(config := later)
  {
  }

  lemma UncoveredLock(
    env: Env, pre: Nodes, c: Candidate, first: Config, later: Config, actions: seq<Action>, d: Daemon, lock: LockFaults)
    requires WillingEnv(env, pre) && InForceRun(env, pre, first, actions, d) && !d.locked && d.config == later
    requires NothingUnread(lock) && Uncovered(env, pre, c, first, later)
    ensures var final := Stop(env, Lock(env, d, lock), true);
      && Holds(final.world.sys.nodes, PolicyFile(c.dir, ScalingGovernor), Text([later.governor]))
      && final.state.Stopped? && final.snapshot.None? && Idle(final.world.qos)
  {
    var a := UncoveredGovernorPlanned(
      pre, d.world.sys.nodes, env.candidates, RequestOf(first), RequestOf(later), actions, c);
    WillingLock(env, pre, first, actions, d, lock, c);
    StrayWriteSurvives(env, pre, first, actions, d, lock, a);
  }
}
