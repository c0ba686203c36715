/**
 What a transaction of the daemon that applies has put in force: the requested values, the latency
 lock of its route, and nothing written that was not opened first.
 */
module RouteLaws {
  import opened Common
  import opened Kernel
  import opened Policies
  import opened Planning
  import opened PlanMeaning
  import opened PmQos
  import opened Transaction
  import opened Daemons
  import opened DaemonLaws
  import opened RunLaws

  // ---------------------------------------------------------------- applying in parts

  /** Applying two stretches of actions in full is applying one after the other. */
  lemma {:induction false} ApplyParts(o: Oracle, route: Route, w: World, a: seq<Action>, b: seq<Action>)
    requires ApplyActions(o, route, w, a + b).count == |a + b|
    ensures var first := ApplyActions(o, route, w, a);
      && first.count == |a| && ApplyActions(o, route, first.world, b).count == |b|
      && ApplyActions(o, route, w, a + b).world == ApplyActions(o, route, first.world, b).world
    decreases a
  {
    if a == [] {
      assert a + b == b;
    } else {
      assert (a + b)[0] == a[0] && (a + b)[1..] == a[1..] + b;
      ApplyParts(o, route, WriteAction(o, Forward, route, w, a[0].node, a[0].value).world, a[1..], b);
    }
  }

  /** Writing files leaves the latency lock alone, and only adds to the log. */
  lemma {:induction false} FilesKeepLock(o: Oracle, route: Route, w: World, actions: seq<Action>)
    requires forall a :: a in actions ==> !IsDevice(route, a.node)
    ensures var after := ApplyActions(o, route, w, actions).world; after.qos == w.qos && w.sys.log <= after.sys.log
    decreases actions
  {
    if actions != [] {
      assert actions[0] in actions && forall a :: a in actions[1..] ==> a in actions;
      FilesKeepLock(o, route, WriteAction(o, Forward, route, w, actions[0].node, actions[0].value).world, actions[1..]);
    }
  }

  // ---------------------------------------------------------------- the latency lock

  /**
   The latency lock is held by a descriptor, asked for us: its opening and the write of us were
   granted since before, and are the last that was attempted.
   */
  ghost predicate HoldsDevice(before: Sys, after: World, us: int) {
    && after.qos.locked && !after.qos.fallback && after.qos.fd.Some?
    && after.qos.latency == us && 0 <= us <= INT32_MAX
    && var k := after.qos.fd.value;
       && |before.log| <= k && |after.sys.log| == k + 2
       && after.sys.log[k] == Entry(Forward, OpenDevice, true)
       && after.sys.log[k + 1] == Entry(Forward, WriteLatency(us), true)
  }

  lemma DeviceTaken(o: Oracle, w: World, us: int)
    requires Idle(w.qos) && WriteAction(o, Forward, DeviceRoute, w, DmaDevice, Number(us)).ok
    ensures var after := WriteAction(o, Forward, DeviceRoute, w, DmaDevice, Number(us)).world;
      HoldsDevice(w.sys, after, us) && w.sys.log <= after.sys.log
  {
    assert ParseInt(Number(us)) == Some(us);
  }

  /** An idle state a fallback disables: of index one or deeper, with a readable switch. */
  predicate Disables(env: Env, nodes: Nodes, n: Node) {
    n in env.idleNodes && n.CpuIdleDisable? && n.idleState >= 1 && n in nodes && nodes[n].Text?
  }

  /**
   Every such state is disabled and on record with what it held before, and nothing else is on
   record; where there is none the latency lock is idle, and otherwise the fallback holds it.
   */
  ghost predicate HoldsFallback(env: Env, before: Nodes, after: World) {
    && (forall n :: Disables(env, before, n) ==>
          Holds(after.sys.nodes, n, Text([Int(1)])) && Saved(n, before[n]) in after.qos.saved)
    && (forall s :: s in after.qos.saved ==> Disables(env, before, s.node) && s.value == before[s.node])
    && (if exists n :: Disables(env, before, n) then after.qos.locked && after.qos.fallback && after.qos.fd.None?
        else Idle(after.qos))
  }

  /** A transaction that applies from an idle lock: which latency lock it ends with. */
  lemma RouteInForce(env: Env, w: World, c: Config, deviceExists: bool)
    requires ValidEnv(env) && DmaDevice !in w.sys.nodes && Idle(w.qos) && w.qos.saved == []
    requires BuildPlan(w.sys.nodes, env.candidates, RequestOf(c), []).Success?
    requires StartupTransaction(env, w, c, BuildPlan(w.sys.nodes, env.candidates, RequestOf(c), []).value, deviceExists).ok
    ensures var plan := BuildPlan(w.sys.nodes, env.candidates, RequestOf(c), []).value;
      var after := StartupTransaction(env, w, c, plan, deviceExists).world;
      if deviceExists then HoldsDevice(w.sys, after, c.latencyUs) else HoldsFallback(env, w.sys.nodes, after)
  {
    if deviceExists { DeviceInForce(env, w, c); } else { FallbackInForce(env, w, c); }
  }

  lemma DeviceInForce(env: Env, w: World, c: Config)
    requires ValidEnv(env) && DmaDevice !in w.sys.nodes && Idle(w.qos)
    requires BuildPlan(w.sys.nodes, env.candidates, RequestOf(c), []).Success?
    requires StartupTransaction(env, w, c, BuildPlan(w.sys.nodes, env.candidates, RequestOf(c), []).value, true).ok
    ensures var plan := BuildPlan(w.sys.nodes, env.candidates, RequestOf(c), []).value;
      HoldsDevice(w.sys, StartupTransaction(env, w, c, plan, true).world, c.latencyUs)
  {
    var plan := BuildPlan(w.sys.nodes, env.candidates, RequestOf(c), []).value;
    var device := Action(QosDevice, DmaDevice, Number(c.latencyUs), RELEASE);
    var full := FullPlan(Routed(DeviceRoute, []), c, plan);
    assert full.actions == plan.actions + [device];
    PreflightWritesNothing(env.oracle, w.sys, full.preflight);
    var start := w.(sys := PreflightAll(env.oracle, w.sys, full.preflight).sys);
    forall a | a in plan.actions ensures !IsDevice(DeviceRoute, a.node) {
      PlanAvoidsDevice(w.sys.nodes, env.candidates, RequestOf(c), [], a);
    }
    ApplyParts(env.oracle, DeviceRoute, start, plan.actions, [device]);
    FilesKeepLock(env.oracle, DeviceRoute, start, plan.actions);
    var files := ApplyActions(env.oracle, DeviceRoute, start, plan.actions).world;
    assert [device][1..] == [];
    DeviceTaken(env.oracle, files, c.latencyUs);
  }

  lemma FallbackInForce(env: Env, w: World, c: Config)
    requires ValidEnv(env) && DmaDevice !in w.sys.nodes && Idle(w.qos) && w.qos.saved == []
    requires BuildPlan(w.sys.nodes, env.candidates, RequestOf(c), []).Success?
    requires StartupTransaction(env, w, c, BuildPlan(w.sys.nodes, env.candidates, RequestOf(c), []).value, false).ok
    ensures var plan := BuildPlan(w.sys.nodes, env.candidates, RequestOf(c), []).value;
      HoldsFallback(env, w.sys.nodes, StartupTransaction(env, w, c, plan, false).world)
  {
    var plan := BuildPlan(w.sys.nodes, env.candidates, RequestOf(c), []).value;
    var r := SelectRoute(env, w.sys.nodes, false);
    ValuesInForce(env, w, c, false);
    FallbackSaves(env, w.sys.nodes);
    forall s | s in r.saved
      ensures Holds(StartupTransaction(env, w, c, plan, false).world.sys.nodes, s.node, Text([Int(1)]))
    {
      FallbackAction(r, c, s);
    }
  }

  /** What a fallback saves, and whether there is one. */
  lemma FallbackSaves(env: Env, nodes: Nodes)
    requires ValidEnv(env)
    ensures var r := SelectRoute(env, nodes, false);
      && (forall n :: Disables(env, nodes, n) ==> Saved(n, nodes[n]) in r.saved)
      && (forall s :: s in r.saved ==> Disables(env, nodes, s.node) && s.value == nodes[s.node])
      && (r.route.IdleRoute? <==> exists n :: Disables(env, nodes, n))
      && !r.route.DeviceRoute?
  {
    var paths, r := FallbackPaths(nodes, env.idleNodes), SelectRoute(env, nodes, false);
    FallbackPathsRead(nodes, env.idleNodes);
    SaveAllReads(nodes, paths);
    forall n | Disables(env, nodes, n) ensures Saved(n, nodes[n]) in r.saved {
      var i :| 0 <= i < |paths| && paths[i] == n;
      assert r.saved[i] == Saved(n, nodes[n]);
    }
    if r.saved != [] { assert r.saved[0] in r.saved && Disables(env, nodes, r.saved[0].node); }
  }

  lemma FallbackAction(r: Routed, c: Config, s: Saved)
    requires r.route.IdleRoute? && s in r.saved
    ensures Action(QosIdle, s.node, Text([Int(1)]), s.value) in QosActions(r, c)
  {
    var i :| 0 <= i < |r.saved| && r.saved[i] == s;
    assert QosActions(r, c)[i] == Action(QosIdle, s.node, Number(1), s.value);
  }

  /** Every file action of an applied transaction, of the plan or of the route, is in force. */
  lemma ValuesInForce(env: Env, w: World, c: Config, deviceExists: bool)
    requires ValidEnv(env) && DmaDevice !in w.sys.nodes && Idle(w.qos)
    requires BuildPlan(w.sys.nodes, env.candidates, RequestOf(c), []).Success?
    requires StartupTransaction(env, w, c, BuildPlan(w.sys.nodes, env.candidates, RequestOf(c), []).value, deviceExists).ok
    ensures var plan := BuildPlan(w.sys.nodes, env.candidates, RequestOf(c), []).value;
      var r := SelectRoute(env, w.sys.nodes, deviceExists);
      var after := StartupTransaction(env, w, c, plan, deviceExists).world;
      && (!deviceExists ==> after.qos == if r.route.IdleRoute? then ActivateFallback(w, r.saved).qos else w.qos)
      && (forall a :: a in plan.actions ==> Holds(after.sys.nodes, a.node, a.value))
      && (!deviceExists ==> forall a :: a in QosActions(r, c) ==> Holds(after.sys.nodes, a.node, a.value))
  {
    var plan := BuildPlan(w.sys.nodes, env.candidates, RequestOf(c), []).value;
    var r := SelectRoute(env, w.sys.nodes, deviceExists);
    var full := FullPlan(r, c, plan);
    TransactionReady(env, w, c, deviceExists);
    FullPlanDistinct(env, w.sys.nodes, c, deviceExists);
    RouteSaves(env, w.sys.nodes, deviceExists);
    ExecuteIsAtomic(env.oracle, r.route, w, full);
    SameKeys(w.sys.nodes, Execute(env.oracle, r.route, w, full).world.sys.nodes);
    forall a | a in plan.actions ensures a in full.actions && !IsDevice(r.route, a.node) {
      PlanAvoidsDevice(w.sys.nodes, env.candidates, RequestOf(c), [], a);
    }
  }

  // ---------------------------------------------------------------- the requested values

  /** What a daemon configuration asks of the cpufreq files: boost and cpb are always switched on. */
  function Asked(c: Config): Request { Request(c.target, Some(c.governor), Some(true), Some(true), Some(c.epp)) }

  /** Every file a usable directory is asked to change holds the requested value. */
  ghost predicate RequestInForce(env: Env, before: Nodes, after: Nodes, c: Config) {
    forall d, n, v | d in Kept(env.candidates, {}) && AsksFor(before, Asked(c), d, n, v) :: Holds(after, n, v)
  }

  /** A transaction that applies from an idle lock puts the whole request in force. */
  lemma RequestApplied(env: Env, w: World, c: Config, deviceExists: bool)
    requires ValidEnv(env) && DmaDevice !in w.sys.nodes && Idle(w.qos)
    requires BuildPlan(w.sys.nodes, env.candidates, RequestOf(c), []).Success?
    requires StartupTransaction(env, w, c, BuildPlan(w.sys.nodes, env.candidates, RequestOf(c), []).value, deviceExists).ok
    ensures var plan := BuildPlan(w.sys.nodes, env.candidates, RequestOf(c), []).value;
      RequestInForce(env, w.sys.nodes, StartupTransaction(env, w, c, plan, deviceExists).world.sys.nodes, c)
  {
    var plan := BuildPlan(w.sys.nodes, env.candidates, RequestOf(c), []).value;
    var after := StartupTransaction(env, w, c, plan, deviceExists).world.sys.nodes;
    ValuesInForce(env, w, c, deviceExists);
    forall d, n, v | d in Kept(env.candidates, {}) && AsksFor(w.sys.nodes, Asked(c), d, n, v) ensures Holds(after, n, v) {
      AskedIsPlanned(w.sys.nodes, env.candidates, RequestOf(c), [], d, n, v);
    }
  }

  /** In particular every boost switch and every cpb file of a usable directory holds 1. */
  lemma BoostSwitchedOn(env: Env, before: Nodes, after: Nodes, c: Config, d: Candidate, n: Node)
    requires RequestInForce(env, before, after, c)
    requires d in Kept(env.candidates, {}) && UsableDir(before, d) && Filled(before, n)
    requires IsBoostSwitch(before, d, n) || n == PolicyFile(d.dir, LocalCpb)
    ensures Holds(after, n, Text([Int(1)]))
  {
    assert AsksFor(before, Asked(c), d, n, Text([Int(1)]));
  }

  // ---------------------------------------------------------------- nothing unopened

  /**
   The transaction of the daemon opens every file it is going to write, and the latency device if
   it is going to hold that, before it writes anything, whatever fails.
   */
  lemma TransactionOpensFirst(env: Env, w: World, c: Config, plan: Plan, deviceExists: bool)
    requires !w.qos.fallback
    ensures var after := StartupTransaction(env, w, c, plan, deviceExists).world.sys.log;
      w.sys.log <= after && OpensFirst(w.sys.log, after)
  {
    var r := SelectRoute(env, w.sys.nodes, deviceExists);
    var full := FullPlan(r, c, plan);
    UniqueNodesOnce(ActionNodes(full.actions), {});
    forall a | a in full.actions ensures a.node in full.preflight {
      var i :| 0 <= i < |full.actions| && full.actions[i] == a;
      assert ActionNodes(full.actions)[i] == a.node;
    }
    ExecuteOpensFirst(env.oracle, r.route, w, full);
  }

  // ---------------------------------------------------------------- a start, and a lock

  /** What a start or a lock that succeeds has put in force. */
  ghost predicate InForce(env: Env, before: World, after: World, c: Config, deviceExists: bool) {
    && RequestInForce(env, before.sys.nodes, after.sys.nodes, c)
    && if deviceExists then HoldsDevice(before.sys, after, c.latencyUs) else HoldsFallback(env, before.sys.nodes, after)
  }

  /**
   A start that succeeds from rest leaves the daemon running with the boost flag on, its engine,
   guard and server up, the whole request in force, and the latency lock of its route held.
   */
  lemma StartPutsInForce(env: Env, d: Daemon, f: StartFaults)
    requires ValidEnv(env) && AtRest(d) && Start(env, d, f).state.Running?
    ensures var up := Start(env, d, f);
      && InForce(env, d.world, up.world, d.config, f.deviceExists)
      && up.locked && up.engine.EngineRunning? && up.guard && up.serving && up.pid
  {
    StartedDaemon(env, d, f);
    RequestApplied(env, d.world, d.config, f.deviceExists);
    RouteInForce(env, d.world, d.config, f.deviceExists);
  }

  /** And so does a lock that succeeds while nothing is held. */
  lemma LockPutsInForce(env: Env, d: Daemon, f: LockFaults)
    requires ValidEnv(env) && DmaDevice !in d.world.sys.nodes && Idle(d.world.qos) && d.world.qos.saved == []
    requires !d.locked && Lock(env, d, f).locked
    ensures var up := Lock(env, d, f);
      && InForce(env, d.world, up.world, d.config, f.deviceExists)
      && up.engine.EngineRunning? && up.state == (if d.state.Throttled? then Throttled else Running)
      && up.config == d.config && up.snapshot == d.snapshot && up.guard == d.guard
  {
    LockedUp(env, d, f);
    RequestApplied(env, d.world, d.config, f.deviceExists);
    RouteInForce(env, d.world, d.config, f.deviceExists);
  }

  lemma LockedUp(env: Env, d: Daemon, f: LockFaults)
    requires !d.locked && Lock(env, d, f).locked
    ensures LockApplies(env, d, f)
    ensures var plan := BuildPlan(d.world.sys.nodes, env.candidates, RequestOf(d.config), []).value;
      Lock(env, d, f) == d.(world := StartupTransaction(env, d.world, d.config, plan, f.deviceExists).world,
                            engine := EngineRunning, locked := true,
                            state := if d.state.Throttled? then Throttled else Running)
  {
    if LockTries(env, d, f) {
      LockedUpPlanned(env, d, BuildPlan(d.world.sys.nodes, env.candidates, RequestOf(d.config), []).value, f);
    }
  }

  lemma LockedUpPlanned(env: Env, d: Daemon, plan: Plan, f: LockFaults)
    requires !d.locked
    ensures LockPlanned(env, d, plan, f).locked ==>
              var tx := StartupTransaction(env, d.world, d.config, plan, f.deviceExists);
              && tx.ok
              && LockPlanned(env, d, plan, f) == d.(world := tx.world, engine := EngineRunning, locked := true,
                                                    state := if d.state.Throttled? then Throttled else Running)
  {
  }
}
