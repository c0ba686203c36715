/**
 Every intermediate state of applying, rolling back and restoring keeps the minimum frequency of
 a policy at or below its maximum, so that a kernel refusing the opposite has nothing to refuse.
 */
module Bounds {
  import opened Common
  import opened Kernel
  import opened Policies
  import opened Planning
  import opened PlanLaws
  import opened PmQos
  import opened Transaction
  import opened Snapshots

  // ---------------------------------------------------------------- safe stretches of the log

  /** The policy at dir has positive limits, the minimum not above the maximum. */
  predicate Ordered(nodes: Nodes, dir: Dir) {
    var lo := ReadInt(nodes, PolicyFile(dir, ScalingMinFreq));
    var hi := ReadInt(nodes, PolicyFile(dir, ScalingMaxFreq));
    lo.Some? && hi.Some? && 0 < lo.value <= hi.value
  }

  /** Every state on the way is ordered, and so is what every write asks for, refused or not. */
  predicate SafeTrace(nodes: Nodes, entries: seq<Entry>, dir: Dir)
    decreases entries
  {
    && Ordered(nodes, dir)
    && (entries != [] ==>
          && (entries[0].attempt.Write? ==> Ordered(nodes[entries[0].attempt.node := entries[0].attempt.value], dir))
          && SafeTrace(After(nodes, entries[0]), entries[1..], dir))
  }

  /** after continues before, its nodes are what its log replays to, and the way there is safe. */
  predicate SafeBetween(before: Sys, after: Sys, dir: Dir) {
    && before.log <= after.log
    && after.nodes == Replay(before.nodes, after.log[|before.log|..])
    && SafeTrace(before.nodes, after.log[|before.log|..], dir)
  }

  lemma {:induction false} SafeTraceAppend(nodes: Nodes, a: seq<Entry>, b: seq<Entry>, dir: Dir)
    requires SafeTrace(nodes, a, dir) && SafeTrace(Replay(nodes, a), b, dir)
    ensures SafeTrace(nodes, a + b, dir)
    decreases a
  {
    if a == [] {
      assert a + b == b;
    } else {
      assert (a + b)[0] == a[0] && (a + b)[1..] == a[1..] + b;
      SafeTraceAppend(After(nodes, a[0]), a[1..], b, dir);
    }
  }

  lemma {:induction false} SafeTraceEnds(nodes: Nodes, a: seq<Entry>, dir: Dir)
    requires SafeTrace(nodes, a, dir)
    ensures Ordered(Replay(nodes, a), dir)
    decreases a
  {
    if a != [] { SafeTraceEnds(After(nodes, a[0]), a[1..], dir); }
  }

  lemma SafeChain(a: Sys, b: Sys, c: Sys, dir: Dir)
    requires SafeBetween(a, b, dir) && SafeBetween(b, c, dir)
    ensures SafeBetween(a, c, dir)
  {
    var ab, bc := b.log[|a.log|..], c.log[|b.log|..];
    assert c.log[|a.log|..] == ab + bc;
    ReplayAppend(a.nodes, ab, bc);
    SafeTraceAppend(a.nodes, ab, bc, dir);
  }

  lemma SafeNothing(sys: Sys, dir: Dir)
    requires Ordered(sys.nodes, dir)
    ensures SafeBetween(sys, sys, dir)
  {
    assert sys.log[|sys.log|..] == [];
  }

  lemma SafePerform(o: Oracle, phase: Phase, sys: Sys, a: Attempt, dir: Dir)
    requires Ordered(sys.nodes, dir)
    requires a.Write? ==> Ordered(sys.nodes[a.node := a.value], dir)
    ensures SafeBetween(sys, Perform(o, phase, sys, a).sys, dir)
  {
    var out := Perform(o, phase, sys, a);
    var added := out.sys.log[|sys.log|..];
    assert added == [Entry(phase, a, out.ok)];
    assert added[1..] == [];
  }

  // ---------------------------------------------------------------- apply and roll back

  /** Ordered, with a maximum of hi. */
  predicate OrderedBelow(nodes: Nodes, dir: Dir, hi: int) {
    Ordered(nodes, dir) && ReadInt(nodes, PolicyFile(dir, ScalingMaxFreq)) == Some(hi)
  }

  predicate FloorBelow(v: Value, hi: int) {
    ParseInt(v).Some? && 0 < ParseInt(v).value <= hi
  }

  /** Actions leave the maximum alone and write or restore only positive floors up to hi. */
  predicate KeepsOrder(actions: seq<Action>, dir: Dir, hi: int) {
    forall a :: a in actions ==>
      && a.node != PolicyFile(dir, ScalingMaxFreq)
      && (a.node == PolicyFile(dir, ScalingMinFreq) ==> FloorBelow(a.value, hi) && FloorBelow(a.original, hi))
  }

  /** What releasing the latency lock may write back is cpuidle states only. */
  predicate IdleOnly(saved: seq<Saved>) { forall s :: s in saved ==> s.node.CpuIdleDisable? }

  /** A safe stretch that also leaves the maximum at hi and only idle states on record. */
  predicate SafeStep(before: World, after: World, dir: Dir, hi: int) {
    SafeBetween(before.sys, after.sys, dir) && OrderedBelow(after.sys.nodes, dir, hi) && IdleOnly(after.qos.saved)
  }

  lemma StepChain(a: World, b: World, c: World, dir: Dir, hi: int)
    requires SafeStep(a, b, dir, hi) && SafeStep(b, c, dir, hi)
    ensures SafeStep(a, c, dir, hi)
  {
    SafeChain(a.sys, b.sys, c.sys, dir);
  }

  lemma {:induction false} SafeWriteBack(o: Oracle, sys: Sys, saved: seq<Saved>, dir: Dir, hi: int)
    requires OrderedBelow(sys.nodes, dir, hi) && IdleOnly(saved)
    ensures var after := WriteBack(o, sys, saved);
      SafeBetween(sys, after, dir) && OrderedBelow(after.nodes, dir, hi)
    decreases saved
  {
    SafeNothing(sys, dir);
    if saved != [] {
      assert saved[0] in saved && forall s :: s in saved[1..] ==> s in saved;
      var out := Perform(o, Undo, sys, Write(saved[0].node, saved[0].value));
      SafePerform(o, Undo, sys, Write(saved[0].node, saved[0].value), dir);
      SafeWriteBack(o, out.sys, saved[1..], dir, hi);
      SafeChain(sys, out.sys, WriteBack(o, sys, saved), dir);
    }
  }

  lemma SafeRelease(o: Oracle, w: World, strict: bool, dir: Dir, hi: int)
    requires OrderedBelow(w.sys.nodes, dir, hi) && IdleOnly(w.qos.saved)
    ensures SafeStep(w, ReleaseLock(o, w, strict).world, dir, hi)
  {
    SafeNothing(w.sys, dir);
    SafePerform(o, Undo, w.sys, CloseDevice, dir);
    var sys := if w.qos.fd.Some? then Perform(o, Undo, w.sys, CloseDevice).sys else w.sys;
    SafeWriteBack(o, sys, w.qos.saved, dir, hi);
    SafeChain(w.sys, sys, ReleaseLock(o, w, strict).world.sys, dir);
  }

  lemma SafeLock(o: Oracle, w: World, us: Option<int>, dir: Dir, hi: int)
    requires OrderedBelow(w.sys.nodes, dir, hi) && IdleOnly(w.qos.saved)
    ensures SafeStep(w, LockDevice(o, w, us).world, dir, hi)
  {
    var latency := if us.Some? then us.value else w.qos.latency;
    SafeNothing(w.sys, dir);
    SafePerform(o, Forward, w.sys, WriteLatency(latency), dir);
    SafeAcquire(o, w.sys, latency, dir);
  }

  lemma SafeAcquire(o: Oracle, sys: Sys, us: int, dir: Dir)
    requires Ordered(sys.nodes, dir)
    ensures SafeBetween(sys, AcquireDevice(o, sys, us).sys, dir)
    ensures AcquireDevice(o, sys, us).sys.nodes == sys.nodes
  {
    var opening := Perform(o, Forward, sys, OpenDevice).sys;
    SafePerform(o, Forward, sys, OpenDevice, dir);
    var written := Perform(o, Forward, opening, WriteLatency(us)).sys;
    SafePerform(o, Forward, opening, WriteLatency(us), dir);
    SafeChain(sys, opening, written, dir);
    SafePerform(o, Undo, written, CloseDevice, dir);
    SafeChain(sys, written, Perform(o, Undo, written, CloseDevice).sys, dir);
  }

  lemma SafeWriteAction(o: Oracle, phase: Phase, route: Route, w: World, node: Node, v: Value, dir: Dir, hi: int)
    requires OrderedBelow(w.sys.nodes, dir, hi) && IdleOnly(w.qos.saved)
    requires node != PolicyFile(dir, ScalingMaxFreq)
    requires node == PolicyFile(dir, ScalingMinFreq) ==> FloorBelow(v, hi)
    ensures SafeStep(w, WriteAction(o, phase, route, w, node, v).world, dir, hi)
  {
    if IsDevice(route, node) {
      SafeRelease(o, w, true, dir, hi);
      if v != RELEASE && ParseInt(v).Some? {
        var r := LockDevice(o, w, ParseInt(v));
        SafeLock(o, w, ParseInt(v), dir, hi);
        SafeRelease(o, r.world, true, dir, hi);
        StepChain(w, r.world, ReleaseLock(o, r.world, true).world, dir, hi);
      }
    } else {
      SafePerform(o, phase, w.sys, Write(node, v), dir);
    }
  }

  lemma StepNothing(w: World, dir: Dir, hi: int)
    requires OrderedBelow(w.sys.nodes, dir, hi) && IdleOnly(w.qos.saved)
    ensures SafeStep(w, w, dir, hi)
  {
    SafeNothing(w.sys, dir);
  }

  lemma {:induction false} SafeApply(o: Oracle, route: Route, w: World, actions: seq<Action>, dir: Dir, hi: int)
    requires OrderedBelow(w.sys.nodes, dir, hi) && IdleOnly(w.qos.saved) && KeepsOrder(actions, dir, hi)
    ensures SafeStep(w, ApplyActions(o, route, w, actions).world, dir, hi)
    decreases actions
  {
    StepNothing(w, dir, hi);
    if actions != [] {
      var a := actions[0];
      assert a in actions && forall b :: b in actions[1..] ==> b in actions;
      SafeWriteAction(o, Forward, route, w, a.node, a.value, dir, hi);
      var next := WriteAction(o, Forward, route, w, a.node, a.value).world;
      SafeApply(o, route, next, actions[1..], dir, hi);
      StepChain(w, next, ApplyActions(o, route, next, actions[1..]).world, dir, hi);
    }
  }

  lemma {:induction false} SafeRollback(o: Oracle, route: Route, w: World, done: seq<Action>, dir: Dir, hi: int)
    requires OrderedBelow(w.sys.nodes, dir, hi) && IdleOnly(w.qos.saved) && KeepsOrder(done, dir, hi)
    ensures SafeStep(w, Rollback(o, route, w, done).world, dir, hi)
    decreases done
  {
    StepNothing(w, dir, hi);
    if done != [] {
      var k := |done| - 1;
      var a := done[k];
      assert a in done && forall b :: b in done[..k] ==> b in done;
      SafeWriteAction(o, Undo, route, w, a.node, a.original, dir, hi);
      var next := WriteAction(o, Undo, route, w, a.node, a.original).world;
      SafeRollback(o, route, next, done[..k], dir, hi);
      StepChain(w, next, Rollback(o, route, next, done[..k]).world, dir, hi);
    }
  }

  lemma {:induction false} SafePreflight(o: Oracle, sys: Sys, paths: seq<Node>, dir: Dir)
    requires Ordered(sys.nodes, dir)
    ensures SafeBetween(sys, PreflightAll(o, sys, paths).sys, dir)
    ensures PreflightAll(o, sys, paths).sys.nodes == sys.nodes
    decreases paths
  {
    SafeNothing(sys, dir);
    if paths != [] {
      var out := Perform(o, Forward, sys, Preflight(paths[0]));
      SafePerform(o, Forward, sys, Preflight(paths[0]), dir);
      SafePreflight(o, out.sys, paths[1..], dir);
      SafeChain(sys, out.sys, PreflightAll(o, out.sys, paths[1..]).sys, dir);
    }
  }

  /** Executing such actions is safe at every attempt, however it ends and whatever the lock holds. */
  lemma ExecuteKeepsBoundsOrdered(o: Oracle, route: Route, w: World, plan: Plan, dir: Dir, hi: int)
    requires OrderedBelow(w.sys.nodes, dir, hi) && IdleOnly(w.qos.saved) && KeepsOrder(plan.actions, dir, hi)
    ensures SafeStep(w, Execute(o, route, w, plan).world, dir, hi)
  {
    SafePreflight(o, w.sys, plan.preflight, dir);
    var check := PreflightAll(o, w.sys, plan.preflight);
    var start := w.(sys := check.sys);
    if check.refused.None? {
      SafeApply(o, route, start, plan.actions, dir, hi);
      var forward := ApplyActions(o, route, start, plan.actions);
      StepChain(w, start, forward.world, dir, hi);
      if forward.count < |plan.actions| {
        var done := plan.actions[..forward.count];
        assert forall a :: a in done ==> a in plan.actions;
        SafeRollback(o, route, forward.world, done, dir, hi);
        StepChain(w, forward.world, Rollback(o, route, forward.world, done).world, dir, hi);
      }
    }
  }

  /** Every plan built in an ordered tree consists of such actions. */
  lemma PlanKeepsOrder(nodes: Nodes, cs: seq<Candidate>, req: Request, extra: seq<Node>, dir: Dir)
    requires Coherent(cs) && BuildPlan(nodes, cs, req, extra).Success? && Ordered(nodes, dir)
    ensures KeepsOrder(BuildPlan(nodes, cs, req, extra).value.actions, dir,
                       ReadInt(nodes, PolicyFile(dir, ScalingMaxFreq)).value)
  {
    var actions := BuildPlan(nodes, cs, req, extra).value.actions;
    var hi := ReadInt(nodes, PolicyFile(dir, ScalingMaxFreq)).value;
    forall a | a in actions
      ensures a.node != PolicyFile(dir, ScalingMaxFreq)
      ensures a.node == PolicyFile(dir, ScalingMinFreq) ==> FloorBelow(a.value, hi) && FloorBelow(a.original, hi)
    {
      var p := ServedPolicy(nodes, cs, req, extra, a);
      assert Inventoried(nodes, cs, p) by { DiscoveryIsUnique(nodes, cs); }
      var c :| c in cs && p == Inventory(nodes, c);
      ServedActionKeepsOrder(nodes, c, req, a, dir);
    }
  }

  lemma ServedActionKeepsOrder(nodes: Nodes, c: Candidate, req: Request, a: Action, dir: Dir)
    requires Serves(nodes, req, Inventory(nodes, c), a) && Ordered(nodes, dir)
    ensures var hi := ReadInt(nodes, PolicyFile(dir, ScalingMaxFreq)).value;
      && a.node != PolicyFile(dir, ScalingMaxFreq)
      && (a.node == PolicyFile(dir, ScalingMinFreq) ==> FloorBelow(a.value, hi) && FloorBelow(a.original, hi))
  {
    var p := Inventory(nodes, c);
    InventoryControlOk(nodes, c, a.owner.control);
    if a.node == PolicyFile(dir, ScalingMinFreq) {
      assert a.owner.control.ActiveMin? && p.dir == dir && c.dir == dir;
      TargetInsideLimits(p.limits, req.target);
    }
  }

  // ---------------------------------------------------------------- restore

  /** The live limits of a policy are what its files hold now. */
  predicate LimitsCurrent(nodes: Nodes, p: Policy) {
    && p.limits.activeMin == ReadInt(nodes, PolicyFile(p.dir, ScalingMinFreq))
    && p.limits.activeMax == ReadInt(nodes, PolicyFile(p.dir, ScalingMaxFreq))
  }

  /** Saved bounds are positive; a bound saved alone fits the other bound as it is now. */
  predicate BoundsFit(nodes: Nodes, dir: Dir, s: PolicySnapshot) {
    var lo := SavedInt(s, ActiveMin);
    var hi := SavedInt(s, ActiveMax);
    && (lo.Some? ==> lo.value > 0)
    && (lo.Some? && hi.None? ==>
          ReadInt(nodes, PolicyFile(dir, ScalingMaxFreq)).Some?
          && lo.value <= ReadInt(nodes, PolicyFile(dir, ScalingMaxFreq)).value)
    && (hi.Some? && lo.None? ==>
          ReadInt(nodes, PolicyFile(dir, ScalingMinFreq)).Some?
          && ReadInt(nodes, PolicyFile(dir, ScalingMinFreq)).value <= hi.value)
  }

  predicate ShapedPaths(p: Policy) {
    forall c :: c in p.writable ==> Shape(p.dir, c, p.writable[c])
  }

  lemma SafeWriteLive(o: Oracle, sys: Sys, path: Option<Node>, v: Value, dir: Dir)
    requires Ordered(sys.nodes, dir)
    requires path.Some? ==> Ordered(sys.nodes[path.value := v], dir)
    ensures var out := WriteLive(o, sys, path, v);
      && SafeBetween(sys, out.sys, dir)
      && out.sys.nodes == (if out.ok && path.Some? then sys.nodes[path.value := v] else sys.nodes)
      && (out.ok ==> path.Some?)
  {
    SafeNothing(sys, dir);
    if path.Some? { SafePerform(o, Undo, sys, Write(path.value, v), dir); }
  }

  /** The paths of the two bounds of a policy, where they are live at all. */
  predicate BoundPaths(dir: Dir, minPath: Option<Node>, maxPath: Option<Node>) {
    && (minPath.Some? ==> minPath.value == PolicyFile(dir, ScalingMinFreq))
    && (maxPath.Some? ==> maxPath.value == PolicyFile(dir, ScalingMaxFreq))
  }

  /** Ordered bounds written in the order that fits the current maximum are ordered at every attempt. */
  lemma WriteBoundsSafe(o: Oracle, sys: Sys, dir: Dir, minPath: Option<Node>, maxPath: Option<Node>, lo: int, hi: int)
    requires Ordered(sys.nodes, dir) && BoundPaths(dir, minPath, maxPath) && 0 < lo <= hi
    ensures var currentMax := ReadInt(sys.nodes, PolicyFile(dir, ScalingMaxFreq)).value;
      SafeBetween(sys, WriteBounds(o, sys, minPath, maxPath, lo, hi, lo > currentMax).sys, dir)
  {
    var maxFirst := lo > ReadInt(sys.nodes, PolicyFile(dir, ScalingMaxFreq)).value;
    var first := if maxFirst then WriteLive(o, sys, maxPath, Number(hi)) else WriteLive(o, sys, minPath, Number(lo));
    if maxFirst {
      SafeWriteLive(o, sys, maxPath, Number(hi), dir);
      if first.ok { SafeWriteLive(o, first.sys, minPath, Number(lo), dir); }
    } else {
      SafeWriteLive(o, sys, minPath, Number(lo), dir);
      if first.ok { SafeWriteLive(o, first.sys, maxPath, Number(hi), dir); }
    }
    if first.ok { SafeChain(sys, first.sys, WriteBounds(o, sys, minPath, maxPath, lo, hi, maxFirst).sys, dir); }
  }

  /**
   Restoring a policy's own bounds, from any ordered state and however writes fail, proposes
   ordered bounds at every attempt: the order of the two writes adapts to the current maximum.
   */
  lemma RestoreBoundsSafe(o: Oracle, sys: Sys, p: Policy, s: PolicySnapshot)
    requires Ordered(sys.nodes, p.dir) && LimitsCurrent(sys.nodes, p) && ShapedPaths(p)
    requires BoundsFit(sys.nodes, p.dir, s)
    ensures SafeBetween(sys, RestoreBounds(o, sys, p, s).sys, p.dir)
  {
    var minPath, maxPath := PathOf(p, ActiveMin), PathOf(p, ActiveMax);
    var lo, hi := SavedInt(s, ActiveMin), SavedInt(s, ActiveMax);
    SafeNothing(sys, p.dir);
    if lo.Some? && hi.Some? {
      if lo.value <= hi.value { WriteBoundsSafe(o, sys, p.dir, minPath, maxPath, lo.value, hi.value); }
    } else if lo.Some? {
      SafeWriteLive(o, sys, minPath, Number(lo.value), p.dir);
    } else if hi.Some? {
      SafeWriteLive(o, sys, maxPath, Number(hi.value), p.dir);
    }
  }

  predicate TouchesBounds(path: Option<Node>, dir: Dir) {
    path == Some(PolicyFile(dir, ScalingMinFreq)) || path == Some(PolicyFile(dir, ScalingMaxFreq))
  }

  /** Safe, and the bounds at dir are unchanged. */
  predicate Aside(before: Sys, after: Sys, dir: Dir) {
    && SafeBetween(before, after, dir)
    && ReadInt(after.nodes, PolicyFile(dir, ScalingMinFreq)) == ReadInt(before.nodes, PolicyFile(dir, ScalingMinFreq))
    && ReadInt(after.nodes, PolicyFile(dir, ScalingMaxFreq)) == ReadInt(before.nodes, PolicyFile(dir, ScalingMaxFreq))
  }

  lemma AsideWriteLive(o: Oracle, sys: Sys, path: Option<Node>, v: Value, dir: Dir)
    requires Ordered(sys.nodes, dir) && !TouchesBounds(path, dir)
    ensures Aside(sys, WriteLive(o, sys, path, v).sys, dir)
  {
    SafeWriteLive(o, sys, path, v, dir);
  }

  lemma AsideChain(a: Sys, b: Sys, c: Sys, dir: Dir)
    requires Aside(a, b, dir) && Aside(b, c, dir)
    ensures Aside(a, c, dir)
  {
    SafeChain(a, b, c, dir);
  }

  /** One write, and another after it if it succeeds. */
  lemma AsideTwoWrites(o: Oracle, sys: Sys, p: Option<Node>, v: Value, q: Option<Node>, u: Value, dir: Dir)
    requires Ordered(sys.nodes, dir) && !TouchesBounds(p, dir) && !TouchesBounds(q, dir)
    ensures var first := WriteLive(o, sys, p, v);
      Aside(sys, first.sys, dir) && Aside(sys, WriteLive(o, first.sys, q, u).sys, dir)
  {
    var first := WriteLive(o, sys, p, v).sys;
    AsideWriteLive(o, sys, p, v, dir);
    AsideWriteLive(o, first, q, u, dir);
    AsideChain(sys, first, WriteLive(o, first, q, u).sys, dir);
  }

  lemma AsideBounds(o: Oracle, sys: Sys, p: Policy, s: PolicySnapshot, dir: Dir)
    requires Ordered(sys.nodes, dir) && ShapedPaths(p) && p.dir != dir
    ensures Aside(sys, RestoreBounds(o, sys, p, s).sys, dir)
  {
    var minPath, maxPath := PathOf(p, ActiveMin), PathOf(p, ActiveMax);
    var lo, hi := SavedInt(s, ActiveMin), SavedInt(s, ActiveMax);
    SafeNothing(sys, dir);
    if lo.Some? && hi.Some? {
      AsideTwoWrites(o, sys, minPath, Number(lo.value), maxPath, Number(hi.value), dir);
      AsideTwoWrites(o, sys, maxPath, Number(hi.value), minPath, Number(lo.value), dir);
    } else if lo.Some? {
      AsideWriteLive(o, sys, minPath, Number(lo.value), dir);
    } else if hi.Some? {
      AsideWriteLive(o, sys, maxPath, Number(hi.value), dir);
    }
  }

  lemma {:induction false} AsideOptionals(
    o: Oracle, st: Restoring, p: Policy, s: PolicySnapshot, cs: seq<Control>, dir: Dir)
    requires Ordered(st.sys.nodes, dir) && ShapedPaths(p) && forall c :: c in cs ==> IsOptional(c)
    ensures Aside(st.sys, RestoreOptionals(o, st, p, s, cs).sys, dir)
    decreases cs
  {
    SafeNothing(st.sys, dir);
    if cs != [] {
      assert IsOptional(cs[0]);
      var next := RestoreOptional(o, st, p, s, cs[0]);
      if cs[0] in s.saved { AsideWriteLive(o, st.sys, PathOf(p, cs[0]), s.saved[cs[0]], dir); }
      AsideOptionals(o, next, p, s, cs[1..], dir);
      AsideChain(st.sys, next.sys, RestoreOptionals(o, next, p, s, cs[1..]).sys, dir);
    }
  }

  /** Everything after the bounds leaves every policy's bounds alone. */
  lemma AsideRest(o: Oracle, st: Restoring, p: Policy, s: PolicySnapshot, dir: Dir)
    requires Ordered(st.sys.nodes, dir) && ShapedPaths(p)
    ensures Aside(st.sys, RestoreOptionals(o, RestoreValue(o, st, p, s, Governor).state, p, s, OPTIONAL_CONTROLS).sys, dir)
  {
    SafeNothing(st.sys, dir);
    var governor := RestoreValue(o, st, p, s, Governor).state;
    if Governor in s.saved { AsideWriteLive(o, st.sys, PathOf(p, Governor), s.saved[Governor], dir); }
    AsideOptionals(o, governor, p, s, OPTIONAL_CONTROLS, dir);
    AsideChain(st.sys, governor.sys, RestoreOptionals(o, governor, p, s, OPTIONAL_CONTROLS).sys, dir);
  }

  /** The maximum at dir is what it was. */
  predicate MaxKept(before: Sys, after: Sys, dir: Dir) {
    ReadInt(after.nodes, PolicyFile(dir, ScalingMaxFreq)) == ReadInt(before.nodes, PolicyFile(dir, ScalingMaxFreq))
  }

  lemma SafeRestoreOne(o: Oracle, st: Restoring, p: Policy, s: PolicySnapshot, dir: Dir)
    requires Ordered(st.sys.nodes, dir) && ShapedPaths(p)
    requires p.dir == dir ==> LimitsCurrent(st.sys.nodes, p) && BoundsFit(st.sys.nodes, dir, s)
    ensures SafeBetween(st.sys, RestoreOne(o, st, p, s).sys, dir)
    ensures p.dir != dir ==> Aside(st.sys, RestoreOne(o, st, p, s).sys, dir)
    ensures ActiveMax !in s.saved ==> MaxKept(st.sys, RestoreOne(o, st, p, s).sys, dir)
  {
    var bounds := RestoreBoundsOf(o, st, p, s);
    if p.dir == dir { RestoreBoundsSafe(o, st.sys, p, s); } else { AsideBounds(o, st.sys, p, s, dir); }
    SafeTraceEnds(st.sys.nodes, bounds.sys.log[|st.sys.log|..], dir);
    AsideRest(o, bounds, p, s, dir);
    SafeChain(st.sys, bounds.sys, RestoreOne(o, st, p, s).sys, dir);
  }

  /** The live policy at dir, if the snapshot names it, is current and its saved bounds fit. */
  ghost predicate FitsAt(nodes: Nodes, live: seq<Policy>, snap: Snapshot, dir: Dir) {
    forall s :: s in snap && Live(live, s.id).Some? && Live(live, s.id).value.dir == dir ==>
      LimitsCurrent(nodes, Live(live, s.id).value) && BoundsFit(nodes, dir, s)
  }

  lemma {:induction false} SafeRestoreAll(o: Oracle, st: Restoring, live: seq<Policy>, snap: Snapshot, dir: Dir)
    requires Ordered(st.sys.nodes, dir) && FitsAt(st.sys.nodes, live, snap, dir)
    requires DistinctSnapIds(snap) && DistinctDirs(live) && forall p :: p in live ==> ShapedPaths(p)
    ensures SafeBetween(st.sys, RestoreAll(o, st, live, snap).sys, dir)
    ensures (forall s :: s in snap ==> ActiveMax !in s.saved) ==> MaxKept(st.sys, RestoreAll(o, st, live, snap).sys, dir)
    decreases snap
  {
    SafeNothing(st.sys, dir);
    if snap != [] {
      var s := snap[0];
      var p := Live(live, s.id);
      var next := if p.None? then st.(errors := st.errors + [Vanished(s.id)]) else RestoreOne(o, st, p.value, s);
      assert s in snap && forall t :: t in snap[1..] ==> t in snap && t.id != s.id;
      if p.Some? {
        SafeRestoreOne(o, st, p.value, s, dir);
        SafeTraceEnds(st.sys.nodes, next.sys.log[|st.sys.log|..], dir);
      }
      assert FitsAt(next.sys.nodes, live, snap[1..], dir) by {
        forall t | t in snap[1..] && Live(live, t.id).Some? && Live(live, t.id).value.dir == dir
          ensures LimitsCurrent(next.sys.nodes, Live(live, t.id).value) && BoundsFit(next.sys.nodes, dir, t)
        {
          var q := Live(live, t.id).value;
          if p.Some? { OtherPolicyOtherDir(live, p.value, q); }
        }
      }
      SafeRestoreAll(o, next, live, snap[1..], dir);
      SafeChain(st.sys, next.sys, RestoreAll(o, next, live, snap[1..]).sys, dir);
    }
  }

  lemma OtherPolicyOtherDir(live: seq<Policy>, p: Policy, q: Policy)
    requires DistinctDirs(live) && p in live && q in live && p.id != q.id
    ensures p.dir != q.dir
  {
  }

  /** What the saved bounds must satisfy for the policy at dir, wherever discovery now finds it. */
  ghost predicate SnapshotFits(nodes: Nodes, cs: seq<Candidate>, snap: Snapshot, dir: Dir) {
    forall s, p | s in snap && p in DiscoverPolicies(nodes, cs) && p.id == s.id && p.dir == dir ::
      BoundsFit(nodes, dir, s)
  }

  /**
   A whole restore through freshly discovered policies is safe at every attempt, and moves no
   maximum that was not saved.
   */
  lemma RestoreKeepsBoundsOrdered(o: Oracle, sys: Sys, cs: seq<Candidate>, snap: Snapshot, dir: Dir)
    requires Ordered(sys.nodes, dir) && DistinctSnapIds(snap) && SnapshotFits(sys.nodes, cs, snap, dir)
    ensures var after := RestoreSnapshot(o, sys, Some(cs), snap).sys;
      && SafeBetween(sys, after, dir)
      && ((forall s :: s in snap ==> ActiveMax !in s.saved) ==> MaxKept(sys, after, dir))
  {
    var live := DiscoverPolicies(sys.nodes, cs);
    DiscoveryIsUnique(sys.nodes, cs);
    forall p | p in live ensures ShapedPaths(p) && LimitsCurrent(sys.nodes, p) {
      var c :| c in cs && p == Inventory(sys.nodes, c);
      forall k | k in p.writable ensures Shape(p.dir, k, p.writable[k]) {
        InventoryControlOk(sys.nodes, c, k);
      }
    }
    SafeRestoreAll(o, Restoring(sys, {}, []), live, snap, dir);
  }

  // ---------------------------------------------------------------- why the order adapts

  lemma WriteIsSafeExactly(o: Oracle, sys: Sys, n: Node, v: Value, dir: Dir)
    requires Ordered(sys.nodes, dir) && n in sys.nodes
    ensures SafeBetween(sys, Perform(o, Undo, sys, Write(n, v)).sys, dir) <==> Ordered(sys.nodes[n := v], dir)
  {
    var out := Perform(o, Undo, sys, Write(n, v));
    var added := out.sys.log[|sys.log|..];
    assert added == [Entry(Undo, Write(n, v), out.ok)] && added[1..] == [];
    if Ordered(sys.nodes[n := v], dir) { SafePerform(o, Undo, sys, Write(n, v), dir); }
  }

  lemma {:induction false} SafePrefix(nodes: Nodes, a: seq<Entry>, b: seq<Entry>, dir: Dir)
    requires SafeTrace(nodes, a + b, dir)
    ensures SafeTrace(nodes, a, dir) && SafeTrace(Replay(nodes, a), b, dir)
    decreases a
  {
    if a == [] {
      assert a + b == b;
    } else {
      assert (a + b)[0] == a[0] && (a + b)[1..] == a[1..] + b;
      SafePrefix(After(nodes, a[0]), a[1..], b, dir);
    }
  }

  /** A stretch is safe exactly when both of its parts are. */
  lemma SafeParts(a: Sys, b: Sys, c: Sys, dir: Dir)
    requires a.log <= b.log && b.nodes == Replay(a.nodes, b.log[|a.log|..])
    requires b.log <= c.log && c.nodes == Replay(b.nodes, c.log[|b.log|..])
    ensures SafeBetween(a, c, dir) <==> SafeBetween(a, b, dir) && SafeBetween(b, c, dir)
  {
    var ab, bc := b.log[|a.log|..], c.log[|b.log|..];
    assert c.log[|a.log|..] == ab + bc;
    if SafeBetween(a, c, dir) { SafePrefix(a.nodes, ab, bc, dir); }
    if SafeBetween(a, b, dir) && SafeBetween(b, c, dir) { SafeChain(a, b, c, dir); }
  }

  /**
   The order of RestoreBounds is needed. Written back while no write is refused, ordered bounds are
   proposed in order, maximum first, exactly when the saved maximum fits over the current minimum,
   and, minimum first, exactly when the saved minimum fits under the current maximum. The adaptive
   order always is; each fixed order is not on some restore.
   */
  lemma AdaptiveOrderIsNeeded(o: Oracle, sys: Sys, dir: Dir, lo: int, hi: int)
    requires o.UndoWorks() && Ordered(sys.nodes, dir) && 0 < lo <= hi
    ensures var minPath, maxPath := Some(PolicyFile(dir, ScalingMinFreq)), Some(PolicyFile(dir, ScalingMaxFreq));
      var currentMin, currentMax := ReadInt(sys.nodes, minPath.value).value, ReadInt(sys.nodes, maxPath.value).value;
      && SafeBetween(sys, WriteBounds(o, sys, minPath, maxPath, lo, hi, lo > currentMax).sys, dir)
      && (SafeBetween(sys, WriteBounds(o, sys, minPath, maxPath, lo, hi, true).sys, dir) <==> currentMin <= hi)
      && (SafeBetween(sys, WriteBounds(o, sys, minPath, maxPath, lo, hi, false).sys, dir) <==> lo <= currentMax)
  {
    WriteBoundsSafe(o, sys, dir, Some(PolicyFile(dir, ScalingMinFreq)), Some(PolicyFile(dir, ScalingMaxFreq)), lo, hi);
    OneOrder(o, sys, dir, lo, hi, true);
    OneOrder(o, sys, dir, lo, hi, false);
  }

  lemma OneOrder(o: Oracle, sys: Sys, dir: Dir, lo: int, hi: int, maxFirst: bool)
    requires o.UndoWorks() && Ordered(sys.nodes, dir) && 0 < lo <= hi
    ensures var minNode, maxNode := PolicyFile(dir, ScalingMinFreq), PolicyFile(dir, ScalingMaxFreq);
      SafeBetween(sys, WriteBounds(o, sys, Some(minNode), Some(maxNode), lo, hi, maxFirst).sys, dir)
      <==> if maxFirst then ReadInt(sys.nodes, minNode).value <= hi else lo <= ReadInt(sys.nodes, maxNode).value
  {
    var minNode, maxNode := PolicyFile(dir, ScalingMinFreq), PolicyFile(dir, ScalingMaxFreq);
    var n, v := if maxFirst then maxNode else minNode, if maxFirst then Number(hi) else Number(lo);
    var m, u := if maxFirst then minNode else maxNode, if maxFirst then Number(lo) else Number(hi);
    var first := Perform(o, Undo, sys, Write(n, v)).sys;
    WriteIsSafeExactly(o, sys, n, v, dir);
    LoggedWrite(o, sys, n, v);
    LoggedWrite(o, first, m, u);
    if Ordered(first.nodes, dir) { WriteIsSafeExactly(o, first, m, u, dir); }
    SafeParts(sys, first, Perform(o, Undo, first, Write(m, u)).sys, dir);
  }

  lemma LoggedWrite(o: Oracle, sys: Sys, n: Node, v: Value)
    requires n in sys.nodes
    ensures var out := Perform(o, Undo, sys, Write(n, v)).sys;
      sys.log <= out.log && out.nodes == Replay(sys.nodes, out.log[|sys.log|..])
  {
    var out := Perform(o, Undo, sys, Write(n, v));
    assert out.sys.log[|sys.log|..] == [Entry(Undo, Write(n, v), out.ok)];
    assert [Entry(Undo, Write(n, v), out.ok)][1..] == [];
  }

  /** The two fixed orders each meet bounds they would propose out of order. */
  lemma NoFixedOrder(o: Oracle, sys: Sys, dir: Dir)
    requires o.UndoWorks() && Ordered(sys.nodes, dir)
    requires ReadInt(sys.nodes, PolicyFile(dir, ScalingMinFreq)).value > 1
    ensures var minPath, maxPath := Some(PolicyFile(dir, ScalingMinFreq)), Some(PolicyFile(dir, ScalingMaxFreq));
      && (exists lo, hi :: 0 < lo <= hi &&
            !SafeBetween(sys, WriteBounds(o, sys, minPath, maxPath, lo, hi, true).sys, dir))
      && (exists lo, hi :: 0 < lo <= hi &&
            !SafeBetween(sys, WriteBounds(o, sys, minPath, maxPath, lo, hi, false).sys, dir))
  {
    var minNode, maxNode := PolicyFile(dir, ScalingMinFreq), PolicyFile(dir, ScalingMaxFreq);
    var above := ReadInt(sys.nodes, maxNode).value + 1;
    OneOrder(o, sys, dir, 1, 1, true);
    OneOrder(o, sys, dir, above, above, false);
    assert !SafeBetween(sys, WriteBounds(o, sys, Some(minNode), Some(maxNode), 1, 1, true).sys, dir);
    assert !SafeBetween(sys, WriteBounds(o, sys, Some(minNode), Some(maxNode), above, above, false).sys, dir);
  }

  // ---------------------------------------------------------------- the legacy restore

  /** raised: a refusal for lack of permission, which ends the restore of the two bounds. */
  datatype LegacyWrite = LegacyWrite(sys: Sys, ok: bool, raised: bool)

  /**
   An optional write of the legacy restore: an absent node is skipped without an attempt, a refusal
   is swallowed, and only a refusal for lack of permission is raised.
   */
  function WriteOptional(o: Oracle, denied: nat -> bool, sys: Sys, n: Node, v: Value): LegacyWrite {
    if n !in sys.nodes then LegacyWrite(sys, false, false)
    else
      var out := Perform(o, Undo, sys, Write(n, v));
      LegacyWrite(out.sys, out.ok, !out.ok && denied(|sys.log|))
  }

  /** A bound that cannot be read counts as zero. */
  function OrZero(x: Option<int>): int { if x.Some? then x.value else 0 }

  /** One after the other, unless the first is raised. */
  function WriteBoth(o: Oracle, denied: nat -> bool, sys: Sys, n: Node, v: Value, m: Node, u: Value): LegacyWrite {
    var first := WriteOptional(o, denied, sys, n, v);
    if first.raised then first else WriteOptional(o, denied, first.sys, m, u)
  }

  /** The legacy restore of one CPU's bounds; it never compares the two saved bounds. */
  function LegacyBounds(
    o: Oracle, denied: nat -> bool, sys: Sys, dir: Dir, lo: Option<int>, hi: Option<int>): LegacyWrite
  {
    var minNode, maxNode := PolicyFile(dir, ScalingMinFreq), PolicyFile(dir, ScalingMaxFreq);
    if lo.Some? && hi.Some? then
      if lo.value > OrZero(ReadInt(sys.nodes, maxNode))
      then WriteBoth(o, denied, sys, maxNode, Number(hi.value), minNode, Number(lo.value))
      else WriteBoth(o, denied, sys, minNode, Number(lo.value), maxNode, Number(hi.value))
    else if lo.Some? then WriteOptional(o, denied, sys, minNode, Number(lo.value))
    else if hi.Some? then WriteOptional(o, denied, sys, maxNode, Number(hi.value))
    else LegacyWrite(sys, true, false)
  }

  /** What the caller can tell before the restore: the bounds now, and the fate of its first write. */
  predicate LegacyFits(currentMin: int, currentMax: int, lo: Option<int>, hi: Option<int>, ok: bool, raised: bool) {
    if lo.Some? && hi.Some? then
      if lo.value > currentMax then currentMin <= hi.value && (raised || (ok && lo.value <= hi.value))
      else 0 < lo.value && (raised || (if ok then lo.value else currentMin) <= hi.value)
    else (lo.Some? ==> 0 < lo.value <= currentMax) && (hi.Some? ==> currentMin <= hi.value)
  }

  /**
   The legacy restore, from any ordered bounds: every attempt proposes ordered bounds exactly when
   the saved ones fit in this sense. Unlike the policy restore it goes on to the second write after
   a first that was refused, unless permission was lacking, and it takes saved bounds of any order.
   */
  lemma LegacySafeExactly(o: Oracle, denied: nat -> bool, sys: Sys, dir: Dir, lo: Option<int>, hi: Option<int>)
    requires Ordered(sys.nodes, dir)
    ensures var minNode, maxNode := PolicyFile(dir, ScalingMinFreq), PolicyFile(dir, ScalingMaxFreq);
      var ok := o.undo(|sys.log|);
      SafeBetween(sys, LegacyBounds(o, denied, sys, dir, lo, hi).sys, dir)
      <==> LegacyFits(ReadInt(sys.nodes, minNode).value, ReadInt(sys.nodes, maxNode).value, lo, hi,
                      ok, !ok && denied(|sys.log|))
  {
    var minNode, maxNode := PolicyFile(dir, ScalingMinFreq), PolicyFile(dir, ScalingMaxFreq);
    SafeNothing(sys, dir);
    if lo.Some? { WriteIsSafeExactly(o, sys, minNode, Number(lo.value), dir); }
    if hi.Some? { WriteIsSafeExactly(o, sys, maxNode, Number(hi.value), dir); }
    if lo.Some? && hi.Some? {
      if lo.value > ReadInt(sys.nodes, maxNode).value {
        BothSafeExactly(o, denied, sys, dir, maxNode, Number(hi.value), minNode, Number(lo.value));
      } else {
        BothSafeExactly(o, denied, sys, dir, minNode, Number(lo.value), maxNode, Number(hi.value));
      }
    }
  }

  lemma BothSafeExactly(o: Oracle, denied: nat -> bool, sys: Sys, dir: Dir, n: Node, v: Value, m: Node, u: Value)
    requires Ordered(sys.nodes, dir) && n in sys.nodes && m in sys.nodes && n != m
    ensures var ok := o.undo(|sys.log|); var nodes := if ok then sys.nodes[n := v] else sys.nodes;
      SafeBetween(sys, WriteBoth(o, denied, sys, n, v, m, u).sys, dir)
      <==> Ordered(sys.nodes[n := v], dir) && ((!ok && denied(|sys.log|)) || Ordered(nodes[m := u], dir))
  {
    var first := WriteOptional(o, denied, sys, n, v);
    WriteIsSafeExactly(o, sys, n, v, dir);
    if !first.raised {
      LoggedWrite(o, sys, n, v);
      LoggedWrite(o, first.sys, m, u);
      if Ordered(first.sys.nodes, dir) { WriteIsSafeExactly(o, first.sys, m, u, dir); }
      SafeParts(sys, first.sys, Perform(o, Undo, first.sys, Write(m, u)).sys, dir);
    }
  }
}
