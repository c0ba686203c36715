/**
 When a transaction of a run can still be undone: what the two records, the snapshot of the start
 and the saved idle states, must cover, and exactly which locks keep it covered.
 */
module LockLaws {
  import opened Common
  import opened Kernel
  import opened Planning
  import opened PlanLaws
  import opened Policies
  import opened PmQos
  import opened Transaction
  import opened Snapshots
  import opened SnapshotLaws
  import opened Daemons
  import opened DaemonLaws
  import opened RelockLaws

  // ---------------------------------------------------------------- what can be undone

  /** Saved idle states hold what their nodes held before the run. */
  ghost predicate SavedFrom(pre: Nodes, saved: seq<Saved>) {
    forall s :: s in saved ==> s.node in pre && s.node.CpuIdleDisable? && s.value == pre[s.node]
  }

  /** The saved idle states are disabled, and of the kind a fallback saves. */
  ghost predicate InForce(env: Env, w: World) {
    forall s :: s in w.qos.saved ==>
      && Holds(w.sys.nodes, s.node, Number(1))
      && s.node in env.idleNodes && s.node.CpuIdleDisable? && s.node.idleState >= 1
  }

  /**
   The machine differs from pre only on nodes the snapshot of the first plan captured and on idle
   states the lock has on record.
   */
  ghost predicate Undoable(env: Env, pre: Nodes, first: Request, actions: seq<Action>, w: World) {
    && FirstPlan(pre, env.candidates, first, actions)
    && Tidy(w.qos) && SavedFrom(pre, w.qos.saved) && InForce(env, w)
    && Confined(pre, w.sys.nodes, actions, w.qos.saved)
  }

  /** Release the lock, then restore the snapshot. */
  function Unwound(env: Env, w: World, snap: Snapshot): Sys {
    RestoreSnapshot(env.oracle, ReleaseLock(env.oracle, w, false).world.sys, Some(env.candidates), snap).sys
  }

  /** Releasing the lock gives the saved idle states back, when no write is refused. */
  lemma ReleaseReturns(o: Oracle, w: World, pre: Nodes, actions: seq<Action>)
    requires o.UndoWorks() && Tidy(w.qos) && SavedFrom(pre, w.qos.saved)
    requires Confined(pre, w.sys.nodes, actions, w.qos.saved)
    ensures var after := ReleaseLock(o, w, false).world;
      Idle(after.qos) && Sound(after.qos) && Confined(pre, after.sys.nodes, actions, [])
  {
    var sys := if w.qos.fd.Some? then Perform(o, Undo, w.sys, CloseDevice).sys else w.sys;
    WriteBackEverySaved(o, sys, w.qos.saved);
    var after := ReleaseLock(o, w, false).world;
    forall n | n in pre && !PlannedNode(actions, n) ensures after.sys.nodes[n] == pre[n] {
      assert n in sys.nodes.Keys;
      if SavedNode(w.qos.saved, n) {
        var s :| s in w.qos.saved && s.node == n;
      }
    }
  }

  /** And leaves what else can be undone undoable. */
  lemma ReleaseKeepsUndoable(env: Env, pre: Nodes, first: Request, actions: seq<Action>, w: World)
    requires env.oracle.UndoWorks() && Undoable(env, pre, first, actions, w)
    ensures Undoable(env, pre, first, actions, ReleaseLock(env.oracle, w, false).world)
  {
    ReleaseReturns(env.oracle, w, pre, actions);
    assert ReleaseLock(env.oracle, w, false).world.qos.saved == [];
  }

  /** What is undoable is undone in full, when no write is refused. */
  lemma UndoReturns(env: Env, pre: Nodes, first: Request, actions: seq<Action>, w: World)
    requires env.oracle.UndoWorks() && Undoable(env, pre, first, actions, w)
    ensures Unwound(env, w, CreateSnapshot(pre, env.candidates, actions)).nodes == pre
    ensures Idle(ReleaseLock(env.oracle, w, false).world.qos) && Sound(ReleaseLock(env.oracle, w, false).world.qos)
  {
    ReleaseReturns(env.oracle, w, pre, actions);
    RestoreReturns(env.oracle, pre, ReleaseLock(env.oracle, w, false).world.sys, env.candidates, first, actions);
  }

  /** A node neither captured nor on record keeps its value through the undoing. */
  lemma UndoLeaves(env: Env, pre: Nodes, first: Request, actions: seq<Action>, w: World, n: Node)
    requires FirstPlan(pre, env.candidates, first, actions) && w.sys.nodes.Keys == pre.Keys
    requires n in pre && !PlannedNode(actions, n) && !SavedNode(w.qos.saved, n)
    ensures Holds(Unwound(env, w, CreateSnapshot(pre, env.candidates, actions)).nodes, n, w.sys.nodes[n])
  {
    var released := ReleaseLock(env.oracle, w, false).world.sys;
    var sys := if w.qos.fd.Some? then Perform(env.oracle, Undo, w.sys, CloseDevice).sys else w.sys;
    WriteBackFrame(env.oracle, sys, w.qos.saved);
    SameKeys(pre, w.sys.nodes);
    RestoreLeaves(env, pre, first, actions, released, n);
  }

  lemma RestoreLeaves(env: Env, pre: Nodes, first: Request, actions: seq<Action>, sys: Sys, n: Node)
    requires FirstPlan(pre, env.candidates, first, actions) && sys.nodes.Keys == pre.Keys
    requires n in pre && !PlannedNode(actions, n)
    ensures var after := RestoreSnapshot(env.oracle, sys, Some(env.candidates),
                                         CreateSnapshot(pre, env.candidates, actions)).sys;
      n in sys.nodes && Holds(after.nodes, n, sys.nodes[n])
  {
    var snap, live := CreateSnapshot(pre, env.candidates, actions), DiscoverPolicies(sys.nodes, env.candidates);
    SnapshotAims(pre, sys.nodes, env.candidates, first, actions);
    AllStage(env.oracle, Restoring(sys, {}, []), live, snap, CapturedValues(pre, actions));
    SameKeys(pre, sys.nodes);
    SameKeys(sys.nodes, RestoreAll(env.oracle, Restoring(sys, {}, []), live, snap).sys.nodes);
  }

  /** A saved node ends at its saved value, whatever that is. */
  lemma UndoWritesBack(env: Env, pre: Nodes, first: Request, actions: seq<Action>, w: World, s: Saved)
    requires env.oracle.UndoWorks() && FirstPlan(pre, env.candidates, first, actions)
    requires w.sys.nodes.Keys == pre.Keys && Tidy(w.qos) && s in w.qos.saved && s.node in pre
    requires !PlannedNode(actions, s.node)
    ensures Holds(Unwound(env, w, CreateSnapshot(pre, env.candidates, actions)).nodes, s.node, s.value)
  {
    var released := ReleaseLock(env.oracle, w, false).world.sys;
    var sys := if w.qos.fd.Some? then Perform(env.oracle, Undo, w.sys, CloseDevice).sys else w.sys;
    SameKeys(pre, w.sys.nodes);
    WriteBackEverySaved(env.oracle, sys, w.qos.saved);
    RestoreLeaves(env, pre, first, actions, released, s.node);
  }

  // ---------------------------------------------------------------- which transactions keep it so

  /**
   What a caller can check before a transaction: the policy plan changes captured nodes only, and a
   fallback still held is replaced by a new one only where every state it saved was disabled anyway.
   */
  ghost predicate Spares(env: Env, actions: seq<Action>, w: World, c: Config, deviceExists: bool)
    requires BuildPlan(w.sys.nodes, env.candidates, RequestOf(c), []).Success?
  {
    && (forall a :: a in BuildPlan(w.sys.nodes, env.candidates, RequestOf(c), []).value.actions ==>
          PlannedNode(actions, a.node) || a.value == a.original)
    && (SelectRoute(env, w.sys.nodes, deviceExists).route.IdleRoute? ==>
          forall s :: s in w.qos.saved ==> s.value == Number(1))
  }

  lemma IdleNodesUnplanned(env: Env, pre: Nodes, first: Request, actions: seq<Action>, n: Node)
    requires FirstPlan(pre, env.candidates, first, actions) && n.CpuIdleDisable?
    ensures !PlannedNode(actions, n)
  {
    forall a | a in actions ensures a.node != n { PlanAvoidsDevice(pre, env.candidates, first, [], a); }
  }

  /** What the executor leaves behind, for the route of a world that can be undone. */
  lemma ExecutionLeaves(env: Env, w: World, c: Config, deviceExists: bool)
    requires ValidEnv(env) && env.oracle.UndoWorks() && DmaDevice !in w.sys.nodes && Tidy(w.qos)
    requires forall s :: s in w.qos.saved ==> s.node.CpuIdleDisable?
    requires BuildPlan(w.sys.nodes, env.candidates, RequestOf(c), []).Success?
    ensures var r := SelectRoute(env, w.sys.nodes, deviceExists);
      var full := FullPlan(r, c, BuildPlan(w.sys.nodes, env.candidates, RequestOf(c), []).value);
      var done := Execute(env.oracle, r.route, w, full);
      && (r.route.DeviceRoute? ==> Settled(w, done.world) && (done.result.Applied? ==> Holding(w, done.world)))
      && (!r.route.DeviceRoute? ==> done.world.qos == w.qos)
  {
    var r := SelectRoute(env, w.sys.nodes, deviceExists);
    var plan := BuildPlan(w.sys.nodes, env.candidates, RequestOf(c), []).value;
    var full := FullPlan(r, c, plan);
    TransactionReady(env, w, c, deviceExists);
    ExecuteIsAtomic(env.oracle, r.route, w, full);
    if r.route.DeviceRoute? {
      forall a | a in full.actions ensures !SavedNode(w.qos.saved, a.node) {
        if a in plan.actions {
          PlanAvoidsDevice(w.sys.nodes, env.candidates, RequestOf(c), [], a);
        } else {
          QosActionsOf(r, c, a);
        }
      }
      ExecuteSettles(env.oracle, r.route, w, full);
    }
  }

  /** A transaction that fails leaves everything undoable. */
  lemma FailureUndoable(
    env: Env, pre: Nodes, first: Request, actions: seq<Action>, w: World, c: Config, deviceExists: bool)
    requires ValidEnv(env) && env.oracle.UndoWorks() && DmaDevice !in pre && Undoable(env, pre, first, actions, w)
    requires BuildPlan(w.sys.nodes, env.candidates, RequestOf(c), []).Success?
    ensures var plan := BuildPlan(w.sys.nodes, env.candidates, RequestOf(c), []).value;
      var tx := StartupTransaction(env, w, c, plan, deviceExists);
      !tx.ok ==> Undoable(env, pre, first, actions, tx.world)
  {
    var plan := BuildPlan(w.sys.nodes, env.candidates, RequestOf(c), []).value;
    var r := SelectRoute(env, w.sys.nodes, deviceExists);
    var full := FullPlan(r, c, plan);
    var done := Execute(env.oracle, r.route, w, full);
    SameKeys(pre, w.sys.nodes);
    TransactionReady(env, w, c, deviceExists);
    AllOrNothing(env.oracle, r.route, w, full);
    ExecutionLeaves(env, w, c, deviceExists);
    if !done.result.Applied? {
      SameKeys(w.sys.nodes, done.world.sys.nodes);
      UndoableAfterFailure(env, pre, first, actions, r.route, w, done.world);
    }
  }

  lemma UndoableAfterFailure(
    env: Env, pre: Nodes, first: Request, actions: seq<Action>, route: Route, w: World, after: World)
    requires Undoable(env, pre, first, actions, w) && after.sys.nodes.Keys == w.sys.nodes.Keys
    requires forall n :: n in w.sys.nodes && !Exposed(route, w.qos, n) ==> Holds(after.sys.nodes, n, w.sys.nodes[n])
    requires if route.DeviceRoute? then Settled(w, after) else after.qos == w.qos
    ensures Undoable(env, pre, first, actions, after)
  {
    SameKeys(pre, w.sys.nodes);
    forall n | n in pre && !PlannedNode(actions, n) && !SavedNode(after.qos.saved, n)
      ensures Holds(after.sys.nodes, n, pre[n])
    {
      if SavedNode(w.qos.saved, n) {
        var s :| s in w.qos.saved && s.node == n;
        assert GivenBack(w, after);
      }
    }
    if !route.DeviceRoute? || Holding(w, after) {
      forall s | s in after.qos.saved ensures Holds(after.sys.nodes, s.node, Number(1)) {
        assert s in w.qos.saved;
      }
    }
  }

  /** A transaction that applies: every planned value is in force, and what is recorded now. */
  lemma AppliedInForce(env: Env, w: World, c: Config, deviceExists: bool)
    requires ValidEnv(env) && env.oracle.UndoWorks() && DmaDevice !in w.sys.nodes && Tidy(w.qos)
    requires forall s :: s in w.qos.saved ==> s.node.CpuIdleDisable?
    requires BuildPlan(w.sys.nodes, env.candidates, RequestOf(c), []).Success?
    requires StartupTransaction(env, w, c, BuildPlan(w.sys.nodes, env.candidates, RequestOf(c), []).value, deviceExists).ok
    ensures var plan := BuildPlan(w.sys.nodes, env.candidates, RequestOf(c), []).value;
      var r := SelectRoute(env, w.sys.nodes, deviceExists);
      var after := StartupTransaction(env, w, c, plan, deviceExists).world;
      && after.sys.nodes.Keys == w.sys.nodes.Keys && Tidy(after.qos)
      && after.qos.saved == (if r.route.IdleRoute? then r.saved else w.qos.saved)
      && (forall a :: a in plan.actions ==> Holds(after.sys.nodes, a.node, a.value))
      && (r.route.IdleRoute? ==> forall s :: s in r.saved ==> Holds(after.sys.nodes, s.node, Number(1)))
      && (forall n :: n in w.sys.nodes && !PlannedNode(plan.actions, n) && !(r.route.IdleRoute? && SavedNode(r.saved, n)) ==>
            Holds(after.sys.nodes, n, w.sys.nodes[n]))
  {
    var plan := BuildPlan(w.sys.nodes, env.candidates, RequestOf(c), []).value;
    var r := SelectRoute(env, w.sys.nodes, deviceExists);
    var full := FullPlan(r, c, plan);
    var done := Execute(env.oracle, r.route, w, full);
    TransactionReady(env, w, c, deviceExists);
    FullPlanDistinct(env, w.sys.nodes, c, deviceExists);
    ExecuteIsAtomic(env.oracle, r.route, w, full);
    ExecutionLeaves(env, w, c, deviceExists);
    RouteSaves(env, w.sys.nodes, deviceExists);
    SameKeys(w.sys.nodes, done.world.sys.nodes);
    forall a | a in plan.actions ensures Holds(done.world.sys.nodes, a.node, a.value) {
      assert a in full.actions;
      PlanAvoidsDevice(w.sys.nodes, env.candidates, RequestOf(c), [], a);
    }
    if r.route.IdleRoute? {
      forall s | s in r.saved ensures Holds(done.world.sys.nodes, s.node, Number(1)) {
        var i :| 0 <= i < |r.saved| && r.saved[i] == s;
        assert full.actions[|plan.actions| + i] == Action(QosIdle, s.node, Number(1), s.value);
      }
    }
    forall n | n in w.sys.nodes && !PlannedNode(plan.actions, n) && !(r.route.IdleRoute? && SavedNode(r.saved, n))
      ensures Holds(done.world.sys.nodes, n, w.sys.nodes[n])
    {
      UnplannedInFull(r, c, plan, n);
      if Exposed(r.route, w.qos, n) {
        var s :| s in w.qos.saved && s.node == n;
      }
    }
  }

  /** A node that neither the plan nor the route names. */
  lemma UnplannedInFull(r: Routed, c: Config, plan: Plan, n: Node)
    requires !PlannedNode(plan.actions, n) && n != DmaDevice && !(r.route.IdleRoute? && SavedNode(r.saved, n))
    ensures !PlannedNode(FullPlan(r, c, plan).actions, n)
  {
    forall a | a in FullPlan(r, c, plan).actions ensures a.node != n {
      if a !in plan.actions { QosActionsOf(r, c, a); }
    }
  }

  /** Idle states on record are among those a new fallback would save. */
  lemma RecordedAgain(env: Env, w: World, s: Saved)
    requires ValidEnv(env) && InForce(env, w) && s in w.qos.saved
    requires SelectRoute(env, w.sys.nodes, false).route.IdleRoute?
    ensures Saved(s.node, Number(1)) in SelectRoute(env, w.sys.nodes, false).saved
  {
    var paths := FallbackPaths(w.sys.nodes, env.idleNodes);
    FallbackPathsRead(w.sys.nodes, env.idleNodes);
    var i :| 0 <= i < |paths| && paths[i] == s.node;
    assert SaveAll(w.sys.nodes, paths)[i] == Saved(s.node, Number(1));
  }

  /** While idle states are on record there are idle states to disable. */
  lemma HeldMeansIdleRoute(env: Env, w: World, n: Node)
    requires ValidEnv(env) && InForce(env, w) && SavedNode(w.qos.saved, n)
    ensures SelectRoute(env, w.sys.nodes, false).route.IdleRoute?
  {
    FallbackPathsRead(w.sys.nodes, env.idleNodes);
    assert n in FallbackPaths(w.sys.nodes, env.idleNodes);
  }

  /** A transaction that applies and spares the records leaves everything undoable. */
  lemma SparingUndoable(
    env: Env, pre: Nodes, first: Request, actions: seq<Action>, w: World, c: Config, deviceExists: bool)
    requires ValidEnv(env) && env.oracle.UndoWorks() && DmaDevice !in pre && Undoable(env, pre, first, actions, w)
    requires BuildPlan(w.sys.nodes, env.candidates, RequestOf(c), []).Success?
    requires StartupTransaction(env, w, c, BuildPlan(w.sys.nodes, env.candidates, RequestOf(c), []).value, deviceExists).ok
    requires Spares(env, actions, w, c, deviceExists)
    ensures var plan := BuildPlan(w.sys.nodes, env.candidates, RequestOf(c), []).value;
      Undoable(env, pre, first, actions, StartupTransaction(env, w, c, plan, deviceExists).world)
  {
    var plan := BuildPlan(w.sys.nodes, env.candidates, RequestOf(c), []).value;
    var r := SelectRoute(env, w.sys.nodes, deviceExists);
    var after := StartupTransaction(env, w, c, plan, deviceExists).world;
    SameKeys(pre, w.sys.nodes);
    AppliedInForce(env, w, c, deviceExists);
    RouteSaves(env, w.sys.nodes, deviceExists);
    forall n | n in pre && !PlannedNode(actions, n) && !SavedNode(after.qos.saved, n)
      ensures Holds(after.sys.nodes, n, pre[n])
    {
      if SavedNode(w.qos.saved, n) {
        var s :| s in w.qos.saved && s.node == n;
        if r.route.IdleRoute? { RecordedAgain(env, w, s); }
        assert false;
      }
      SparedNode(env, actions, w, c, deviceExists, n);
    }
    forall s | s in after.qos.saved
      ensures s.node in pre && s.node.CpuIdleDisable? && s.value == pre[s.node]
      ensures Holds(after.sys.nodes, s.node, Number(1)) && s.node in env.idleNodes && s.node.idleState >= 1
    {
      if r.route.IdleRoute? {
        RecordOf(env, pre, first, actions, w, s);
      } else {
        UnplannedIdle(env, w, c, s.node);
      }
    }
  }

  lemma UnplannedIdle(env: Env, w: World, c: Config, n: Node)
    requires ValidEnv(env) && BuildPlan(w.sys.nodes, env.candidates, RequestOf(c), []).Success? && n.CpuIdleDisable?
    ensures !PlannedNode(BuildPlan(w.sys.nodes, env.candidates, RequestOf(c), []).value.actions, n)
  {
    IdleNodesUnplanned(env, w.sys.nodes, RequestOf(c), BuildPlan(w.sys.nodes, env.candidates, RequestOf(c), []).value.actions, n);
  }

  /** A node that is neither captured nor recorded afterwards is as it was before the transaction. */
  lemma SparedNode(env: Env, actions: seq<Action>, w: World, c: Config, deviceExists: bool, n: Node)
    requires ValidEnv(env) && env.oracle.UndoWorks() && DmaDevice !in w.sys.nodes && Tidy(w.qos)
    requires forall s :: s in w.qos.saved ==> s.node.CpuIdleDisable?
    requires BuildPlan(w.sys.nodes, env.candidates, RequestOf(c), []).Success?
    requires StartupTransaction(env, w, c, BuildPlan(w.sys.nodes, env.candidates, RequestOf(c), []).value, deviceExists).ok
    requires Spares(env, actions, w, c, deviceExists) && n in w.sys.nodes && !PlannedNode(actions, n)
    requires var r := SelectRoute(env, w.sys.nodes, deviceExists); !(r.route.IdleRoute? && SavedNode(r.saved, n))
    ensures var plan := BuildPlan(w.sys.nodes, env.candidates, RequestOf(c), []).value;
      Holds(StartupTransaction(env, w, c, plan, deviceExists).world.sys.nodes, n, w.sys.nodes[n])
  {
    var plan := BuildPlan(w.sys.nodes, env.candidates, RequestOf(c), []).value;
    AppliedInForce(env, w, c, deviceExists);
    if PlannedNode(plan.actions, n) {
      var a :| a in plan.actions && a.node == n;
      PlanIsWellFormed(w.sys.nodes, env.candidates, RequestOf(c), []);
    }
  }

  /** What a new fallback records, where older records hold nothing but disabled states. */
  lemma RecordOf(env: Env, pre: Nodes, first: Request, actions: seq<Action>, w: World, s: Saved)
    requires ValidEnv(env) && Undoable(env, pre, first, actions, w)
    requires s in SelectRoute(env, w.sys.nodes, false).saved && forall t :: t in w.qos.saved ==> t.value == Number(1)
    ensures s.node in pre && s.node.CpuIdleDisable? && s.value == pre[s.node]
    ensures s.node in env.idleNodes && s.node.idleState >= 1
  {
    RouteSaves(env, w.sys.nodes, false);
    FallbackPathsRead(w.sys.nodes, env.idleNodes);
    SaveAllReads(w.sys.nodes, FallbackPaths(w.sys.nodes, env.idleNodes));
    SameKeys(pre, w.sys.nodes);
    IdleNodesUnplanned(env, pre, first, actions, s.node);
    if SavedNode(w.qos.saved, s.node) {
      var t :| t in w.qos.saved && t.node == s.node;
    }
  }

  /** A transaction that applies and does not spare the records cannot be undone in full. */
  lemma UnsparingLeavesTraces(
    env: Env, pre: Nodes, first: Request, actions: seq<Action>, w: World, c: Config, deviceExists: bool)
    requires ValidEnv(env) && env.oracle.UndoWorks() && DmaDevice !in pre && Undoable(env, pre, first, actions, w)
    requires BuildPlan(w.sys.nodes, env.candidates, RequestOf(c), []).Success?
    requires StartupTransaction(env, w, c, BuildPlan(w.sys.nodes, env.candidates, RequestOf(c), []).value, deviceExists).ok
    requires !Spares(env, actions, w, c, deviceExists)
    ensures var plan := BuildPlan(w.sys.nodes, env.candidates, RequestOf(c), []).value;
      var after := StartupTransaction(env, w, c, plan, deviceExists).world;
      Unwound(env, after, CreateSnapshot(pre, env.candidates, actions)).nodes != pre
  {
    var plan := BuildPlan(w.sys.nodes, env.candidates, RequestOf(c), []).value;
    var r := SelectRoute(env, w.sys.nodes, deviceExists);
    var after := StartupTransaction(env, w, c, plan, deviceExists).world;
    SameKeys(pre, w.sys.nodes);
    AppliedInForce(env, w, c, deviceExists);
    RouteSaves(env, w.sys.nodes, deviceExists);
    if a :| a in plan.actions && !PlannedNode(actions, a.node) && a.value != a.original {
      StrayWriteStays(env, pre, first, actions, w, c, deviceExists, a);
    } else {
      var s :| s in w.qos.saved && s.value != Number(1);
      RecordedAgain(env, w, s);
      ForgottenStateStays(env, pre, first, actions, w, c, s.node);
    }
  }

  /** A new fallback records the idle states an old one disabled as disabled, and so they stay. */
  lemma ForgottenStateStays(
    env: Env, pre: Nodes, first: Request, actions: seq<Action>, w: World, c: Config, n: Node)
    requires ValidEnv(env) && env.oracle.UndoWorks() && DmaDevice !in pre && Undoable(env, pre, first, actions, w)
    requires BuildPlan(w.sys.nodes, env.candidates, RequestOf(c), []).Success?
    requires StartupTransaction(env, w, c, BuildPlan(w.sys.nodes, env.candidates, RequestOf(c), []).value, false).ok
    requires SelectRoute(env, w.sys.nodes, false).route.IdleRoute? && SavedNode(w.qos.saved, n)
    ensures var plan := BuildPlan(w.sys.nodes, env.candidates, RequestOf(c), []).value;
      var after := StartupTransaction(env, w, c, plan, false).world;
      Holds(Unwound(env, after, CreateSnapshot(pre, env.candidates, actions)).nodes, n, Number(1))
  {
    var plan := BuildPlan(w.sys.nodes, env.candidates, RequestOf(c), []).value;
    var after := StartupTransaction(env, w, c, plan, false).world;
    var s :| s in w.qos.saved && s.node == n;
    SameKeys(pre, w.sys.nodes);
    AppliedInForce(env, w, c, false);
    RecordedAgain(env, w, s);
    IdleNodesUnplanned(env, pre, first, actions, n);
    UndoWritesBack(env, pre, first, actions, after, Saved(n, Number(1)));
  }

  lemma StrayWriteStays(
    env: Env, pre: Nodes, first: Request, actions: seq<Action>, w: World, c: Config, deviceExists: bool, a: Action)
    requires ValidEnv(env) && env.oracle.UndoWorks() && DmaDevice !in pre && Undoable(env, pre, first, actions, w)
    requires BuildPlan(w.sys.nodes, env.candidates, RequestOf(c), []).Success?
    requires StartupTransaction(env, w, c, BuildPlan(w.sys.nodes, env.candidates, RequestOf(c), []).value, deviceExists).ok
    requires a in BuildPlan(w.sys.nodes, env.candidates, RequestOf(c), []).value.actions
    requires !PlannedNode(actions, a.node) && a.value != a.original
    ensures var plan := BuildPlan(w.sys.nodes, env.candidates, RequestOf(c), []).value;
      var after := StartupTransaction(env, w, c, plan, deviceExists).world;
      a.node in pre && a.value != pre[a.node]
      && Holds(Unwound(env, after, CreateSnapshot(pre, env.candidates, actions)).nodes, a.node, a.value)
  {
    var plan := BuildPlan(w.sys.nodes, env.candidates, RequestOf(c), []).value;
    var after := StartupTransaction(env, w, c, plan, deviceExists).world;
    SameKeys(pre, w.sys.nodes);
    AppliedInForce(env, w, c, deviceExists);
    RouteSaves(env, w.sys.nodes, deviceExists);
    PlanAvoidsDevice(w.sys.nodes, env.candidates, RequestOf(c), [], a);
    PlanIsWellFormed(w.sys.nodes, env.candidates, RequestOf(c), []);
    assert !SavedNode(w.qos.saved, a.node) && !SavedNode(after.qos.saved, a.node);
    UndoLeaves(env, pre, first, actions, after, a.node);
  }

  /** A plan for a covered governor is sparing wherever no fallback is held. */
  lemma CoveredSpares(
    env: Env, pre: Nodes, first: Request, actions: seq<Action>, w: World, c: Config, deviceExists: bool)
    requires ValidEnv(env) && Undoable(env, pre, first, actions, w) && !w.qos.fallback
    requires BuildPlan(w.sys.nodes, env.candidates, RequestOf(c), []).Success?
    requires SameSwitches(first, RequestOf(c)) && GovernorCovered(pre, env.candidates, first, RequestOf(c))
    ensures Spares(env, actions, w, c, deviceExists)
  {
    UndoableDrift(env, pre, first, actions, w);
    var later := BuildPlan(w.sys.nodes, env.candidates, RequestOf(c), []).value.actions;
    forall a | a in later ensures PlannedNode(actions, a.node) {
      assert PlannedNode(later, a.node);
      RelockStaysCaptured(pre, w.sys.nodes, env.candidates, first, RequestOf(c), actions, a.node);
    }
  }

  lemma UndoableDrift(env: Env, pre: Nodes, first: Request, actions: seq<Action>, w: World)
    requires Undoable(env, pre, first, actions, w)
    ensures Drifted(pre, w.sys.nodes, actions)
  {
    forall n | n in pre && !PlannedNode(actions, n) && !n.CpuIdleDisable? ensures w.sys.nodes[n] == pre[n] {
      assert !SavedNode(w.qos.saved, n);
    }
  }
}
