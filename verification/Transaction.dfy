/**
 Executing an apply plan: preflight, forward writes, and compensation in reverse order
 (boostlock/sysfs.py), with the writer the daemon supplies (boostlock/daemon.py).
 */
module Transaction {
  import opened Common
  import opened Kernel
  import opened Planning
  import opened PmQos

  datatype Route = NoRoute | DeviceRoute | IdleRoute

  const RELEASE: Value := Text([Name("release")])

  datatype Result =
    | Applied
    | PreflightFailed(node: Node)
    | RolledBack(failed: nat, errors: seq<Node>)

  datatype Executed = Executed(world: World, result: Result)

  predicate IsDevice(route: Route, node: Node) { route.DeviceRoute? && node.DmaDevice? }

  // ---------------------------------------------------------------- execution

  /**
   One write of the transaction. The device route locks or strictly releases the descriptor,
   and a lock that fails is released before the failure is reported; other nodes are files.
   */
  function WriteAction(o: Oracle, phase: Phase, route: Route, w: World, node: Node, value: Value): Step {
    if IsDevice(route, node) then
      if value == RELEASE then ReleaseLock(o, w, true)
      else
        var locking := if ParseInt(value).Some? then LockDevice(o, w, ParseInt(value)) else Step(w, false);
        if locking.ok then locking else Step(ReleaseLock(o, locking.world, true).world, false)
    else
      var out := Perform(o, phase, w.sys, Write(node, value));
      Step(w.(sys := out.sys), out.ok)
  }

  datatype Checked = Checked(sys: Sys, refused: Option<Node>)

  function PreflightAll(o: Oracle, sys: Sys, paths: seq<Node>): Checked
    decreases paths
  {
    if paths == [] then Checked(sys, None)
    else
      var out := Perform(o, Forward, sys, Preflight(paths[0]));
      if out.ok then PreflightAll(o, out.sys, paths[1..]) else Checked(out.sys, Some(paths[0]))
  }

  /** The world after the leading actions that succeed, and how many those are. */
  datatype Progressed = Progressed(world: World, count: nat)

  function ApplyActions(o: Oracle, route: Route, w: World, actions: seq<Action>): (r: Progressed)
    ensures r.count <= |actions|
    decreases actions
  {
    if actions == [] then Progressed(w, 0)
    else
      var step := WriteAction(o, Forward, route, w, actions[0].node, actions[0].value);
      if !step.ok then Progressed(step.world, 0)
      else
        var rest := ApplyActions(o, route, step.world, actions[1..]);
        Progressed(rest.world, rest.count + 1)
  }

  datatype Undone = Undone(world: World, errors: seq<Node>)

  /** Write the originals back in reverse order, collecting the nodes that refuse. */
  function Rollback(o: Oracle, route: Route, w: World, completed: seq<Action>): Undone
    decreases completed
  {
    if completed == [] then Undone(w, [])
    else
      var a := completed[|completed| - 1];
      var step := WriteAction(o, Undo, route, w, a.node, a.original);
      var rest := Rollback(o, route, step.world, completed[..|completed| - 1]);
      Undone(rest.world, (if step.ok then [] else [a.node]) + rest.errors)
  }

  function Execute(o: Oracle, route: Route, w: World, plan: Plan): Executed {
    var check := PreflightAll(o, w.sys, plan.preflight);
    var start := w.(sys := check.sys);
    if check.refused.Some? then Executed(start, PreflightFailed(check.refused.value))
    else
      var forward := ApplyActions(o, route, start, plan.actions);
      if forward.count == |plan.actions| then Executed(forward.world, Applied)
      else
        var undone := Rollback(o, route, forward.world, plan.actions[..forward.count]);
        Executed(undone.world, RolledBack(forward.count, undone.errors))
  }

  // ---------------------------------------------------------------- effects of the parts

  /** Every action on a file records the value the file held. */
  ghost predicate Captured(nodes: Nodes, route: Route, actions: seq<Action>) {
    forall a :: a in actions && !IsDevice(route, a.node) ==> a.node in nodes && a.original == nodes[a.node]
  }

  ghost predicate DeviceReleases(route: Route, actions: seq<Action>) {
    forall a :: a in actions && IsDevice(route, a.node) ==> a.original == RELEASE && a.value != RELEASE
  }

  /** A plan whose originals are current; the latency device is no sysfs file. */
  ghost predicate Ready(nodes: Nodes, route: Route, actions: seq<Action>) {
    Captured(nodes, route, actions) && DeviceReleases(route, actions) && DmaDevice !in nodes
  }

  ghost predicate TouchesDevice(route: Route, actions: seq<Action>) {
    exists a :: a in actions && IsDevice(route, a.node)
  }

  /** A fallback held under the device route: releasing the device would write its saved nodes back. */
  ghost predicate Exposed(route: Route, q: Qos, n: Node) {
    route.DeviceRoute? && q.fallback && SavedNode(q.saved, n)
  }

  lemma WriteActionEffect(o: Oracle, phase: Phase, route: Route, w: World, node: Node, value: Value)
    ensures var r := WriteAction(o, phase, route, w, node, value);
      && r.world.sys.nodes.Keys == w.sys.nodes.Keys
      && (r.ok && !IsDevice(route, node) ==> node in w.sys.nodes)
      && (!IsDevice(route, node) ==>
            r.world.qos == w.qos
            && r.world.sys.nodes == (if r.ok then w.sys.nodes[node := value] else w.sys.nodes))
      && (IsDevice(route, node) ==>
            forall n :: n in w.sys.nodes && !Exposed(route, w.qos, n) ==> r.world.sys.nodes[n] == w.sys.nodes[n])
      && (IsDevice(route, node) && (!r.ok || value == RELEASE) ==> Idle(r.world.qos))
      && (r.world.qos.fallback ==> w.qos.fallback && r.world.qos.saved == w.qos.saved)
  {
    if IsDevice(route, node) {
      ReleaseFrame(o, w);
      if ParseInt(value).Some? { ReleaseFrame(o, LockDevice(o, w, ParseInt(value)).world); }
    }
  }

  lemma ReleaseFrame(o: Oracle, w: World)
    ensures var r := ReleaseLock(o, w, true).world;
      && r.sys.nodes.Keys == w.sys.nodes.Keys && Idle(r.qos)
      && forall n :: n in w.sys.nodes && !(w.qos.fallback && SavedNode(w.qos.saved, n)) ==>
           r.sys.nodes[n] == w.sys.nodes[n]
  {
    var sys := if w.qos.fd.Some? then Perform(o, Undo, w.sys, CloseDevice).sys else w.sys;
    WriteBackFrame(o, sys, w.qos.saved);
  }

  lemma {:induction false} PreflightWritesNothing(o: Oracle, sys: Sys, paths: seq<Node>)
    ensures var r := PreflightAll(o, sys, paths);
      && r.sys.nodes == sys.nodes
      && sys.log <= r.sys.log
      && (forall k :: |sys.log| <= k < |r.sys.log| ==> r.sys.log[k].attempt.Preflight?)
      && (r.refused.Some? ==> r.refused.value in paths)
    decreases paths
  {
    if paths != [] {
      PreflightWritesNothing(o, Perform(o, Forward, sys, Preflight(paths[0])).sys, paths[1..]);
    }
  }

  /**
   A preflight opens the paths in their order and stops at the first that is refused, which it
   reports; without a refusal it has opened every one.
   */
  lemma {:induction false} PreflightReports(o: Oracle, sys: Sys, paths: seq<Node>)
    ensures var r := PreflightAll(o, sys, paths); var tried := |r.sys.log| - |sys.log|;
      && 0 <= tried <= |paths|
      && (forall k :: 0 <= k < tried ==>
            r.sys.log[|sys.log| + k] == Entry(Forward, Preflight(paths[k]), r.refused.None? || k < tried - 1))
      && (if r.refused.None? then tried == |paths| else tried > 0 && r.refused.value == paths[tried - 1])
    decreases paths
  {
    if paths != [] {
      var next := Perform(o, Forward, sys, Preflight(paths[0])).sys;
      PreflightReports(o, next, paths[1..]);
      PreflightWritesNothing(o, next, paths[1..]);
      var r := PreflightAll(o, sys, paths);
      assert next.log[|sys.log|].attempt == Preflight(paths[0]);
      forall k | 0 <= k < |r.sys.log| - |sys.log|
        ensures r.sys.log[|sys.log| + k]
                == Entry(Forward, Preflight(paths[k]), r.refused.None? || k < |r.sys.log| - |sys.log| - 1)
      {
        if k == 0 {
          assert r.sys.log[|sys.log|] == next.log[|sys.log|];
        } else {
          assert paths[k] == paths[1..][k - 1] && |sys.log| + k == |next.log| + (k - 1);
        }
      }
    }
  }

  /** Applying changes the nodes of the applied actions only. */
  lemma {:induction false} ApplyFrame(o: Oracle, route: Route, w: World, actions: seq<Action>)
    ensures var r := ApplyActions(o, route, w, actions); var done := actions[..r.count];
      && r.world.sys.nodes.Keys == w.sys.nodes.Keys
      && (r.world.qos.fallback ==> w.qos.fallback && r.world.qos.saved == w.qos.saved)
      && (!route.DeviceRoute? ==> r.world.qos == w.qos)
      && (forall n :: n in w.sys.nodes && !PlannedNode(done, n) && !Exposed(route, w.qos, n) ==>
            r.world.sys.nodes[n] == w.sys.nodes[n])
      && (Idle(w.qos) && !TouchesDevice(route, done) ==> Idle(r.world.qos))
    decreases actions
  {
    if actions != [] {
      var a := actions[0];
      WriteActionEffect(o, Forward, route, w, a.node, a.value);
      var step := WriteAction(o, Forward, route, w, a.node, a.value);
      if step.ok {
        ApplyFrame(o, route, step.world, actions[1..]);
        var rest := ApplyActions(o, route, step.world, actions[1..]);
        PrefixStep(actions, rest.count);
        assert forall b :: b in actions[..rest.count + 1] <==> b == a || b in actions[1..][..rest.count];
        SameKeys(w.sys.nodes, step.world.sys.nodes);
      }
    }
  }

  /** The applied actions are in force and nothing else has changed. */
  lemma {:induction false} ApplyEffect(o: Oracle, route: Route, w: World, actions: seq<Action>)
    ensures var r := ApplyActions(o, route, w, actions); var done := actions[..r.count];
      && r.world.sys.nodes.Keys == w.sys.nodes.Keys
      && (r.world.qos.fallback ==> w.qos.fallback && r.world.qos.saved == w.qos.saved)
      && (!route.DeviceRoute? ==> r.world.qos == w.qos)
      && (forall n :: n in w.sys.nodes && !PlannedNode(done, n) && !Exposed(route, w.qos, n) ==>
            r.world.sys.nodes[n] == w.sys.nodes[n])
      && (DistinctNodes(actions) ==> forall a :: a in done && !IsDevice(route, a.node) ==>
            a.node in w.sys.nodes && (!Exposed(route, w.qos, a.node) ==> r.world.sys.nodes[a.node] == a.value))
      && (Idle(w.qos) && !TouchesDevice(route, done) ==> Idle(r.world.qos))
  {
    ApplyFrame(o, route, w, actions);
    if DistinctNodes(actions) {
      var r := ApplyActions(o, route, w, actions);
      forall i | 0 <= i < r.count && !IsDevice(route, actions[i].node)
        ensures actions[i].node in w.sys.nodes
        ensures !Exposed(route, w.qos, actions[i].node) ==> r.world.sys.nodes[actions[i].node] == actions[i].value
      {
        AppliedValue(o, route, w, actions, i);
      }
    }
  }

  lemma {:induction false} AppliedValue(o: Oracle, route: Route, w: World, actions: seq<Action>, i: nat)
    requires DistinctNodes(actions) && i < ApplyActions(o, route, w, actions).count && !IsDevice(route, actions[i].node)
    ensures var after := ApplyActions(o, route, w, actions).world.sys.nodes; var n := actions[i].node;
      n in w.sys.nodes && n in after && (!Exposed(route, w.qos, n) ==> after[n] == actions[i].value)
    decreases actions
  {
    var a, rest := actions[0], actions[1..];
    WriteActionEffect(o, Forward, route, w, a.node, a.value);
    var step := WriteAction(o, Forward, route, w, a.node, a.value);
    SameKeys(w.sys.nodes, step.world.sys.nodes);
    if i > 0 {
      AppliedValue(o, route, step.world, rest, i - 1);
    } else {
      ApplyFrame(o, route, step.world, rest);
      SameKeys(step.world.sys.nodes, ApplyActions(o, route, step.world, rest).world.sys.nodes);
      forall b | b in rest[..ApplyActions(o, route, step.world, rest).count] ensures b.node != a.node {
        var j :| 0 <= j < |rest| && rest[j] == b;
        assert actions[j + 1] == b;
      }
    }
  }

  lemma SameKeys(a: Nodes, b: Nodes)
    requires a.Keys == b.Keys
    ensures forall n :: n in a <==> n in b
  {
    assert forall n :: n in a.Keys <==> n in b.Keys;
  }

  /** Outside the errors and the lost nodes, rolling back restores the nodes the plan was built on. */
  lemma {:induction false} RollbackEffect(
    o: Oracle, route: Route, w: World, completed: seq<Action>, original: Nodes, lost: set<Node>)
    requires Captured(original, route, completed) && original.Keys == w.sys.nodes.Keys
    requires DmaDevice !in original
    requires forall n :: n in original && Exposed(route, w.qos, n) ==> n in lost
    requires forall n :: n in original && n !in lost && !PlannedNode(completed, n) ==>
               w.sys.nodes[n] == original[n]
    ensures var r := Rollback(o, route, w, completed);
      && r.world.sys.nodes.Keys == original.Keys
      && (!route.DeviceRoute? ==> r.world.qos == w.qos)
      && (forall n :: n in original && n !in lost && n !in r.errors ==> r.world.sys.nodes[n] == original[n])
      && (forall n :: n in r.errors ==> PlannedNode(completed, n))
      && (forall n :: n in original && !PlannedNode(completed, n) && !Exposed(route, w.qos, n) ==>
            r.world.sys.nodes[n] == w.sys.nodes[n])
    decreases completed
  {
    SameKeys(original, w.sys.nodes);
    if completed != [] {
      var k := |completed| - 1;
      var a := completed[k];
      WriteActionEffect(o, Undo, route, w, a.node, a.original);
      var step := WriteAction(o, Undo, route, w, a.node, a.original);
      assert forall b :: b in completed <==> b == a || b in completed[..k];
      var lost' := if step.ok then lost else lost + {a.node};
      RollbackEffect(o, route, step.world, completed[..k], original, lost');
    }
  }

  /** On distinct nodes an error leaves in place what the plan had written there. */
  lemma {:induction false} RollbackErrorsKeepValue(o: Oracle, route: Route, w: World, completed: seq<Action>)
    requires DistinctNodes(completed)
    ensures var r := Rollback(o, route, w, completed);
      && r.world.sys.nodes.Keys == w.sys.nodes.Keys
      && (forall n :: n in r.errors && n in w.sys.nodes && !Exposed(route, w.qos, n) ==>
            r.world.sys.nodes[n] == w.sys.nodes[n])
      && (forall n :: n in w.sys.nodes && !PlannedNode(completed, n) && !Exposed(route, w.qos, n) ==>
            r.world.sys.nodes[n] == w.sys.nodes[n])
      && (forall n :: n in r.errors ==> PlannedNode(completed, n))
    decreases completed
  {
    if completed != [] {
      var k := |completed| - 1;
      var a := completed[k];
      WriteActionEffect(o, Undo, route, w, a.node, a.original);
      var step := WriteAction(o, Undo, route, w, a.node, a.original);
      SameKeys(w.sys.nodes, step.world.sys.nodes);
      assert forall b :: b in completed <==> b == a || b in completed[..k];
      forall b | b in completed[..k] ensures b.node != a.node {
        var j :| 0 <= j < k && completed[..k][j] == b;
        assert completed[j] == b;
      }
      RollbackErrorsKeepValue(o, route, step.world, completed[..k]);
    }
  }

  lemma {:induction false} RollbackIdles(o: Oracle, route: Route, w: World, completed: seq<Action>)
    requires DeviceReleases(route, completed)
    requires TouchesDevice(route, completed) || Idle(w.qos)
    ensures Idle(Rollback(o, route, w, completed).world.qos)
    decreases completed
  {
    if completed != [] {
      var k := |completed| - 1;
      var a := completed[k];
      WriteActionEffect(o, Undo, route, w, a.node, a.original);
      var step := WriteAction(o, Undo, route, w, a.node, a.original);
      assert a in completed;
      assert forall b :: b in completed[..k] ==> b in completed;
      if !Idle(step.world.qos) {
        var b :| b in completed && IsDevice(route, b.node);
        assert b in completed[..k];
      }
      RollbackIdles(o, route, step.world, completed[..k]);
    }
  }

  // ---------------------------------------------------------------- the order of the writes

  /** The attempt that applies an action to a file. */
  function WriteOf(a: Action, ok: bool): Entry { Entry(Forward, Write(a.node, a.value), ok) }

  /** The log goes on by applying the actions in order: the first count are granted, and one more is refused. */
  ghost predicate AppliesInOrder(before: seq<Entry>, log: seq<Entry>, actions: seq<Action>, count: nat) {
    && before <= log && count <= |actions|
    && |log| == |before| + (if count < |actions| then count + 1 else count)
    && forall i :: 0 <= i < |log| - |before| ==> log[|before| + i] == WriteOf(actions[i], i < count)
  }

  lemma OneAppliedFirst(before: seq<Entry>, log: seq<Entry>, actions: seq<Action>, count: nat)
    requires actions != [] && AppliesInOrder(before + [WriteOf(actions[0], true)], log, actions[1..], count)
    ensures AppliesInOrder(before, log, actions, count + 1)
  {
    var k := |before|;
    assert log[k] == (before + [WriteOf(actions[0], true)])[k];
    forall i | 1 <= i < |log| - k ensures log[k + i] == WriteOf(actions[i], i < count + 1) {
      assert actions[i] == actions[1..][i - 1] && k + i == k + 1 + (i - 1);
    }
  }

  lemma FileAttempted(o: Oracle, phase: Phase, route: Route, w: World, n: Node, v: Value)
    requires !IsDevice(route, n)
    ensures var step := WriteAction(o, phase, route, w, n, v);
      step.world.sys.log == w.sys.log + [Entry(phase, Write(n, v), step.ok)]
  {
  }

  /** Files are written in the order of the actions, one attempt each, up to the first that is refused. */
  lemma {:induction false} WritesInOrder(o: Oracle, route: Route, w: World, actions: seq<Action>)
    requires forall a :: a in actions ==> !IsDevice(route, a.node)
    ensures var r := ApplyActions(o, route, w, actions); AppliesInOrder(w.sys.log, r.world.sys.log, actions, r.count)
    decreases actions
  {
    if actions != [] {
      var a := actions[0];
      assert a in actions && forall b :: b in actions[1..] ==> b in actions;
      var step := WriteAction(o, Forward, route, w, a.node, a.value);
      FileAttempted(o, Forward, route, w, a.node, a.value);
      if step.ok {
        WritesInOrder(o, route, step.world, actions[1..]);
        var rest := ApplyActions(o, route, step.world, actions[1..]);
        OneAppliedFirst(w.sys.log, rest.world.sys.log, actions, rest.count);
      }
    }
  }

  /** Compensation attempts every completed action once, the last first, whatever is refused on the way. */
  lemma {:induction false} RollbackInReverse(o: Oracle, route: Route, w: World, completed: seq<Action>)
    requires forall a :: a in completed ==> !IsDevice(route, a.node)
    ensures var log, last := Rollback(o, route, w, completed).world.sys.log, |w.sys.log| + |completed| - 1;
      && w.sys.log <= log && |log| == last + 1
      && forall j :: 0 <= j < |completed| ==> CompensatesFor(log[last - j], completed[j])
    decreases completed
  {
    if completed != [] {
      var n := |completed| - 1;
      var a := completed[n];
      assert a in completed && forall b :: b in completed[..n] ==> b in completed;
      var step := WriteAction(o, Undo, route, w, a.node, a.original);
      FileAttempted(o, Undo, route, w, a.node, a.original);
      RollbackInReverse(o, route, step.world, completed[..n]);
      var log, last := Rollback(o, route, w, completed).world.sys.log, |w.sys.log| + n;
      forall j | 0 <= j < |completed| ensures CompensatesFor(log[last - j], completed[j]) {
        if j < n { assert completed[j] == completed[..n][j]; } else { assert log[last - j] == step.world.sys.log[last - j]; }
      }
    }
  }

  /** The original of an action was written back, whether or not that was granted. */
  predicate CompensatesFor(e: Entry, a: Action) { e.phase.Undo? && e.attempt == Write(a.node, a.original) }

  /** A compensating attempt for this node was refused: its write, or the close of the descriptor. */
  ghost predicate RefusedBack(route: Route, log: seq<Entry>, from: nat, n: Node) {
    exists j :: from <= j < |log| && RefusesBack(route, log[j], n)
  }

  predicate RefusesBack(route: Route, e: Entry, n: Node) {
    e.phase.Undo? && !e.ok
    && if IsDevice(route, n) then e.attempt.CloseDevice? else e.attempt.Write? && e.attempt.node == n
  }

  /** What a rollback lists is exactly what refused to be compensated. */
  lemma {:induction false} RollbackListsRefusals(o: Oracle, route: Route, w: World, completed: seq<Action>)
    requires !w.qos.fallback && DeviceReleases(route, completed)
    ensures var r := Rollback(o, route, w, completed);
      && w.sys.log <= r.world.sys.log
      && forall n :: n in r.errors <==> RefusedBack(route, r.world.sys.log, |w.sys.log|, n)
    decreases completed
  {
    if completed != [] {
      var k := |completed| - 1;
      var a := completed[k];
      assert a in completed && forall b :: b in completed[..k] ==> b in completed;
      var step := WriteAction(o, Undo, route, w, a.node, a.original);
      WriteBackRefused(o, route, w, a);
      RollbackListsRefusals(o, route, step.world, completed[..k]);
      var r := Rollback(o, route, w, completed);
      forall n ensures n in r.errors <==> RefusedBack(route, r.world.sys.log, |w.sys.log|, n) {
        RefusedInParts(route, w.sys.log, step.world.sys.log, r.world.sys.log, n);
      }
    }
  }

  lemma RefusedInParts(route: Route, a: seq<Entry>, b: seq<Entry>, c: seq<Entry>, n: Node)
    requires a <= b <= c
    ensures RefusedBack(route, c, |a|, n) <==> RefusedBack(route, b, |a|, n) || RefusedBack(route, c, |b|, n)
  {
    if j :| |a| <= j < |c| && RefusesBack(route, c[j], n) {
      if j < |b| { assert RefusesBack(route, b[j], n); }
    }
    if j :| |a| <= j < |b| && RefusesBack(route, b[j], n) { assert RefusesBack(route, c[j], n); }
  }

  lemma WriteBackRefused(o: Oracle, route: Route, w: World, a: Action)
    requires !w.qos.fallback && (IsDevice(route, a.node) ==> a.original == RELEASE)
    ensures var step := WriteAction(o, Undo, route, w, a.node, a.original);
      && w.sys.log <= step.world.sys.log && !step.world.qos.fallback
      && forall n :: RefusedBack(route, step.world.sys.log, |w.sys.log|, n) <==> !step.ok && n == a.node
  {
    var step := WriteAction(o, Undo, route, w, a.node, a.original);
    var log, k := step.world.sys.log, |w.sys.log|;
    if IsDevice(route, a.node) {
      assert a.node == DmaDevice;
      if w.qos.fd.Some? { assert log == w.sys.log + [Entry(Undo, CloseDevice, step.ok)]; }
      else { assert log == w.sys.log; }
    } else {
      assert log == w.sys.log + [Entry(Undo, Write(a.node, a.original), step.ok)];
    }
    forall n ensures RefusedBack(route, log, k, n) <==> !step.ok && n == a.node {
      if !step.ok && n == a.node { assert RefusesBack(route, log[k], n); }
    }
  }

  // ---------------------------------------------------------------- atomicity

  /**
   Atomicity with honest reporting, for any plan whose originals are the current values, whatever
   the latency lock holds and whatever forward and compensating attempts fail. A refused preflight
   writes nothing. A plan that applies leaves every node it names at its planned value. A plan that
   fails leaves every node not listed in the rollback errors as it was, and lists only nodes it had
   written. Nodes outside the plan never change, and a failed plan holds no descriptor it did not
   find. Only the saved nodes of a fallback held under the device route are excepted: releasing the
   device writes those back.
   */
  lemma ExecuteIsAtomic(o: Oracle, route: Route, w: World, plan: Plan)
    requires Ready(w.sys.nodes, route, plan.actions)
    ensures var r := Execute(o, route, w, plan); var before := w.sys.nodes; var after := r.world.sys.nodes;
      && after.Keys == before.Keys
      && (r.result.PreflightFailed? ==>
            && after == before && r.world.qos == w.qos && r.result.node in plan.preflight
            && w.sys.log <= r.world.sys.log
            && forall k :: |w.sys.log| <= k < |r.world.sys.log| ==> r.world.sys.log[k].attempt.Preflight?)
      && (r.result.Applied? && DistinctNodes(plan.actions) ==>
            forall a :: a in plan.actions && !IsDevice(route, a.node) && !Exposed(route, w.qos, a.node) ==>
              after[a.node] == a.value)
      && (r.result.RolledBack? ==>
            && (forall n :: n in before && n !in r.result.errors && !Exposed(route, w.qos, n) ==> after[n] == before[n])
            && (forall n :: n in r.result.errors ==> PlannedNode(plan.actions, n))
            && (Idle(w.qos) ==> Idle(r.world.qos)))
      && (forall n :: n in before && !PlannedNode(plan.actions, n) && !Exposed(route, w.qos, n) ==>
            after[n] == before[n])
      && (!route.DeviceRoute? ==> r.world.qos == w.qos)
  {
    PreflightWritesNothing(o, w.sys, plan.preflight);
    var check := PreflightAll(o, w.sys, plan.preflight);
    if check.refused.None? {
      var start := w.(sys := check.sys);
      ApplyEffect(o, route, start, plan.actions);
      var forward := ApplyActions(o, route, start, plan.actions);
      var done := plan.actions[..forward.count];
      assert forall a :: a in done ==> a in plan.actions;
      SameKeys(w.sys.nodes, forward.world.sys.nodes);
      if forward.count == |plan.actions| {
        assert done == plan.actions;
      } else {
        RollbackEffect(o, route, forward.world, done, w.sys.nodes,
                       set n | n in w.sys.nodes && Exposed(route, w.qos, n));
        if Idle(w.qos) { RollbackIdles(o, route, forward.world, done); }
      }
    }
  }

  /**
   The report is exact: after a rollback a file differs from before if and only if it is listed
   and an action of the plan changes its value.
   */
  lemma RollbackReportIsExact(o: Oracle, route: Route, w: World, plan: Plan, n: Node)
    requires Ready(w.sys.nodes, route, plan.actions) && DistinctNodes(plan.actions)
    requires Execute(o, route, w, plan).result.RolledBack? && n in w.sys.nodes && !Exposed(route, w.qos, n)
    ensures var r := Execute(o, route, w, plan);
      n in r.world.sys.nodes
      && (r.world.sys.nodes[n] != w.sys.nodes[n] <==>
            n in r.result.errors && exists a :: a in plan.actions && a.node == n && a.value != a.original)
  {
    ExecuteIsAtomic(o, route, w, plan);
    var r := Execute(o, route, w, plan);
    SameKeys(w.sys.nodes, r.world.sys.nodes);
    if n in r.result.errors {
      ListedNodeKeepsPlannedValue(o, route, w, plan, n);
      var a :| a in plan.actions[..r.result.failed] && a.node == n && a.value == r.world.sys.nodes[n];
      assert a in plan.actions && a.original == w.sys.nodes[n];
      forall b | b in plan.actions && b.node == n ensures b == a { OneActionPerNode(plan.actions, a, b); }
    }
  }

  lemma OneActionPerNode(actions: seq<Action>, a: Action, b: Action)
    requires DistinctNodes(actions) && a in actions && b in actions && a.node == b.node
    ensures a == b
  {
    var i :| 0 <= i < |actions| && actions[i] == a;
    var j :| 0 <= j < |actions| && actions[j] == b;
  }

  /** A listed file still holds the value one of the applied actions wrote to it. */
  lemma ListedNodeKeepsPlannedValue(o: Oracle, route: Route, w: World, plan: Plan, n: Node)
    requires DistinctNodes(plan.actions) && DmaDevice !in w.sys.nodes
    requires Execute(o, route, w, plan).result.RolledBack? && n in w.sys.nodes && !Exposed(route, w.qos, n)
    requires n in Execute(o, route, w, plan).result.errors
    ensures var r := Execute(o, route, w, plan);
      n in r.world.sys.nodes
      && exists a :: a in plan.actions[..r.result.failed] && a.node == n && a.value == r.world.sys.nodes[n]
  {
    PreflightWritesNothing(o, w.sys, plan.preflight);
    var start := w.(sys := PreflightAll(o, w.sys, plan.preflight).sys);
    var forward := ApplyActions(o, route, start, plan.actions);
    ApplyEffect(o, route, start, plan.actions);
    SameKeys(w.sys.nodes, forward.world.sys.nodes);
    RollbackErrorsKeepValue(o, route, forward.world, plan.actions[..forward.count]);
    SameKeys(w.sys.nodes, Execute(o, route, w, plan).world.sys.nodes);
  }

  /** When compensating writes succeed, an execution applies everything or changes nothing. */
  lemma {:induction false} RollbackWithoutErrors(o: Oracle, route: Route, w: World, completed: seq<Action>)
    requires o.UndoWorks()
    requires forall a :: a in completed && !IsDevice(route, a.node) ==> a.node in w.sys.nodes
    requires DeviceReleases(route, completed)
    ensures Rollback(o, route, w, completed).errors == []
    decreases completed
  {
    if completed != [] {
      var k := |completed| - 1;
      var a := completed[k];
      assert a in completed && forall b :: b in completed[..k] ==> b in completed;
      WriteActionEffect(o, Undo, route, w, a.node, a.original);
      var step := WriteAction(o, Undo, route, w, a.node, a.original);
      SameKeys(w.sys.nodes, step.world.sys.nodes);
      RollbackWithoutErrors(o, route, step.world, completed[..k]);
    }
  }

  /**
   When no compensating write is refused, a plan is applied in full or leaves every node as it was,
   the saved nodes of a fallback held under the device route excepted; from an idle lock it leaves
   all of them, and the lock idle.
   */
  lemma AllOrNothing(o: Oracle, route: Route, w: World, plan: Plan)
    requires o.UndoWorks() && Ready(w.sys.nodes, route, plan.actions)
    ensures var r := Execute(o, route, w, plan);
      !r.result.Applied? ==>
        && r.world.sys.nodes.Keys == w.sys.nodes.Keys
        && (forall n :: n in w.sys.nodes && !Exposed(route, w.qos, n) ==> r.world.sys.nodes[n] == w.sys.nodes[n])
        && (Idle(w.qos) ==> r.world.sys.nodes == w.sys.nodes && Idle(r.world.qos))
  {
    ExecuteIsAtomic(o, route, w, plan);
    var r := Execute(o, route, w, plan);
    if r.result.RolledBack? {
      ReportsNothing(o, route, w, plan);
      if Idle(w.qos) { SameNodes(w.sys.nodes, r.world.sys.nodes); }
    }
  }

  lemma SameNodes(a: Nodes, b: Nodes)
    requires a.Keys == b.Keys && forall n :: n in a ==> b[n] == a[n]
    ensures a == b
  {
  }

  lemma ReportsNothing(o: Oracle, route: Route, w: World, plan: Plan)
    requires o.UndoWorks() && Ready(w.sys.nodes, route, plan.actions)
    requires Execute(o, route, w, plan).result.RolledBack?
    ensures Execute(o, route, w, plan).result.errors == []
  {
    PreflightWritesNothing(o, w.sys, plan.preflight);
    var start := w.(sys := PreflightAll(o, w.sys, plan.preflight).sys);
    ApplyEffect(o, route, start, plan.actions);
    var forward := ApplyActions(o, route, start, plan.actions);
    SameKeys(w.sys.nodes, forward.world.sys.nodes);
    assert forall a :: a in plan.actions[..forward.count] ==> a in plan.actions;
    RollbackWithoutErrors(o, route, forward.world, plan.actions[..forward.count]);
  }

  // ---------------------------------------------------------------- opened before written

  /** From some point on, a log writes files among nodes only, and opens the device only if it is among them. */
  ghost predicate StaysOn(log: seq<Entry>, from: nat, nodes: set<Node>) {
    forall j :: from <= j < |log| ==>
      && (log[j].attempt.Write? ==> log[j].attempt.node in nodes)
      && (log[j].attempt.OpenDevice? ==> DmaDevice in nodes)
  }

  lemma WriteStaysOn(o: Oracle, phase: Phase, route: Route, w: World, node: Node, v: Value, nodes: set<Node>)
    requires node in nodes && !w.qos.fallback
    ensures var r := WriteAction(o, phase, route, w, node, v).world;
      w.sys.log <= r.sys.log && StaysOn(r.sys.log, |w.sys.log|, nodes) && !r.qos.fallback
  {
  }

  lemma StaysOnThrough(a: seq<Entry>, b: seq<Entry>, from: nat, nodes: set<Node>)
    requires from <= |a| && a <= b && StaysOn(a, from, nodes) && StaysOn(b, |a|, nodes)
    ensures StaysOn(b, from, nodes)
  {
    assert forall j :: 0 <= j < |a| ==> a[j] == b[j];
  }

  lemma {:induction false} ApplyStaysOn(o: Oracle, route: Route, w: World, actions: seq<Action>, nodes: set<Node>)
    requires !w.qos.fallback && forall a :: a in actions ==> a.node in nodes
    ensures var r := ApplyActions(o, route, w, actions).world;
      w.sys.log <= r.sys.log && StaysOn(r.sys.log, |w.sys.log|, nodes) && !r.qos.fallback
    decreases actions
  {
    if actions != [] {
      var a := actions[0];
      assert a in actions && forall b :: b in actions[1..] ==> b in actions;
      WriteStaysOn(o, Forward, route, w, a.node, a.value, nodes);
      var step := WriteAction(o, Forward, route, w, a.node, a.value).world;
      ApplyStaysOn(o, route, step, actions[1..], nodes);
      StaysOnThrough(step.sys.log, ApplyActions(o, route, step, actions[1..]).world.sys.log, |w.sys.log|, nodes);
    }
  }

  lemma {:induction false} RollbackStaysOn(o: Oracle, route: Route, w: World, completed: seq<Action>, nodes: set<Node>)
    requires !w.qos.fallback && forall a :: a in completed ==> a.node in nodes
    ensures var r := Rollback(o, route, w, completed).world;
      w.sys.log <= r.sys.log && StaysOn(r.sys.log, |w.sys.log|, nodes)
    decreases completed
  {
    if completed != [] {
      var k := |completed| - 1;
      var a := completed[k];
      assert a in completed && forall b :: b in completed[..k] ==> b in completed;
      WriteStaysOn(o, Undo, route, w, a.node, a.original, nodes);
      var step := WriteAction(o, Undo, route, w, a.node, a.original).world;
      RollbackStaysOn(o, route, step, completed[..k], nodes);
      StaysOnThrough(step.sys.log, Rollback(o, route, step, completed[..k]).world.sys.log, |w.sys.log|, nodes);
    }
  }

  /** A path was opened, and granted, between two points of a log. */
  ghost predicate OpenedBetween(log: seq<Entry>, from: nat, to: nat, n: Node) {
    exists i :: from <= i < to && i < |log| && log[i] == Entry(Forward, Preflight(n), true)
  }

  lemma {:induction false} PreflightOpens(o: Oracle, sys: Sys, paths: seq<Node>)
    requires PreflightAll(o, sys, paths).refused.None?
    ensures var log := PreflightAll(o, sys, paths).sys.log;
      && sys.log <= log
      && (forall j :: |sys.log| <= j < |log| ==> log[j].attempt.Preflight?)
      && forall n :: n in paths ==> OpenedBetween(log, |sys.log|, |log|, n)
    decreases paths
  {
    if paths != [] {
      var next := Perform(o, Forward, sys, Preflight(paths[0])).sys;
      PreflightOpens(o, next, paths[1..]);
      var log := PreflightAll(o, sys, paths).sys.log;
      assert log[|sys.log|] == next.log[|sys.log|];
      forall n | n in paths ensures OpenedBetween(log, |sys.log|, |log|, n) {
        if n != paths[0] {
          assert n in paths[1..];
          var i :| |next.log| <= i < |log| && log[i] == Entry(Forward, Preflight(n), true);
        }
      }
    }
  }

  /**
   Whatever an execution writes, forward or back, it has opened before it wrote anything: a file it
   writes has been opened, and so has the device if it opens that to hold it.
   */
  ghost predicate OpensFirst(before: seq<Entry>, after: seq<Entry>) {
    exists k :: OpenedBy(before, after, k)
  }

  /** All that is opened is opened up to k, and all that is written is written from there. */
  ghost predicate OpenedBy(before: seq<Entry>, after: seq<Entry>, k: nat) {
    && |before| <= k <= |after|
    && (forall j :: |before| <= j < k ==> after[j].attempt.Preflight?)
    && forall j :: k <= j < |after| ==>
         && (after[j].attempt.Write? ==> OpenedBetween(after, |before|, k, after[j].attempt.node))
         && (after[j].attempt.OpenDevice? ==> OpenedBetween(after, |before|, k, DmaDevice))
  }

  lemma ExecuteOpensFirst(o: Oracle, route: Route, w: World, plan: Plan)
    requires !w.qos.fallback && forall a :: a in plan.actions ==> a.node in plan.preflight
    ensures var after := Execute(o, route, w, plan).world.sys.log; w.sys.log <= after && OpensFirst(w.sys.log, after)
  {
    PreflightWritesNothing(o, w.sys, plan.preflight);
    var check := PreflightAll(o, w.sys, plan.preflight);
    var after := Execute(o, route, w, plan).world.sys.log;
    var k := |check.sys.log|;
    if check.refused.None? {
      PreflightOpens(o, w.sys, plan.preflight);
      ExecuteStaysOn(o, route, w, plan);
      forall n | n in plan.preflight ensures OpenedBetween(after, |w.sys.log|, k, n) {
        var i :| |w.sys.log| <= i < k && check.sys.log[i] == Entry(Forward, Preflight(n), true);
        assert after[i] == check.sys.log[i];
      }
      assert forall j :: 0 <= j < k ==> after[j] == check.sys.log[j];
    }
    assert OpenedBy(w.sys.log, after, k);
  }

  lemma ExecuteStaysOn(o: Oracle, route: Route, w: World, plan: Plan)
    requires !w.qos.fallback && forall a :: a in plan.actions ==> a.node in plan.preflight
    requires PreflightAll(o, w.sys, plan.preflight).refused.None?
    ensures var opening := PreflightAll(o, w.sys, plan.preflight).sys.log;
      var after := Execute(o, route, w, plan).world.sys.log;
      opening <= after && StaysOn(after, |opening|, set n | n in plan.preflight)
  {
    var nodes := set n | n in plan.preflight;
    var start := w.(sys := PreflightAll(o, w.sys, plan.preflight).sys);
    ApplyStaysOn(o, route, start, plan.actions, nodes);
    var forward := ApplyActions(o, route, start, plan.actions);
    var done := plan.actions[..forward.count];
    assert forall a :: a in done ==> a in plan.actions;
    RollbackStaysOn(o, route, forward.world, done, nodes);
    StaysOnThrough(forward.world.sys.log, Rollback(o, route, forward.world, done).world.sys.log, |start.sys.log|, nodes);
  }

  // ---------------------------------------------------------------- a fallback held meanwhile

  predicate Holds(nodes: Nodes, n: Node, v: Value) { n in nodes && nodes[n] == v }

  /** The records of before are still held, with their nodes untouched. */
  ghost predicate Holding(before: World, now: World) {
    && Tidy(now.qos) && now.qos.fallback == before.qos.fallback && now.qos.saved == before.qos.saved
    && forall s :: s in before.qos.saved && s.node in before.sys.nodes ==>
         Holds(now.sys.nodes, s.node, before.sys.nodes[s.node])
  }

  /** They have been given back: nothing is recorded and every saved node holds its saved value. */
  ghost predicate GivenBack(before: World, now: World) {
    && Tidy(now.qos) && !now.qos.fallback
    && forall s :: s in before.qos.saved && s.node in before.sys.nodes ==> Holds(now.sys.nodes, s.node, s.value)
  }

  ghost predicate Settled(before: World, now: World) {
    now.sys.nodes.Keys == before.sys.nodes.Keys && (Holding(before, now) || GivenBack(before, now))
  }

  lemma ReleaseGivesBack(o: Oracle, before: World, w: World)
    requires o.UndoWorks() && Tidy(before.qos) && Settled(before, w)
    ensures var r := ReleaseLock(o, w, true).world; Settled(before, r) && GivenBack(before, r)
  {
    var sys := if w.qos.fd.Some? then Perform(o, Undo, w.sys, CloseDevice).sys else w.sys;
    SameKeys(before.sys.nodes, w.sys.nodes);
    WriteBackEverySaved(o, sys, w.qos.saved);
    SameKeys(w.sys.nodes, ReleaseLock(o, w, true).world.sys.nodes);
  }

  lemma LockSettles(o: Oracle, before: World, w: World, us: Option<int>)
    requires Tidy(before.qos) && Settled(before, w)
    ensures var r := LockDevice(o, w, us);
      Settled(before, r.world) && (r.ok && Holding(before, w) ==> Holding(before, r.world))
  {
  }

  lemma WriteSettles(o: Oracle, phase: Phase, route: Route, before: World, w: World, node: Node, v: Value)
    requires o.UndoWorks() && Tidy(before.qos) && Settled(before, w) && !SavedNode(before.qos.saved, node)
    ensures var r := WriteAction(o, phase, route, w, node, v);
      && Settled(before, r.world)
      && (r.ok && (IsDevice(route, node) ==> v != RELEASE) && Holding(before, w) ==> Holding(before, r.world))
  {
    WriteActionEffect(o, phase, route, w, node, v);
    if IsDevice(route, node) {
      ReleaseGivesBack(o, before, w);
      if ParseInt(v).Some? {
        LockSettles(o, before, w, ParseInt(v));
        ReleaseGivesBack(o, before, LockDevice(o, w, ParseInt(v)).world);
      }
    } else {
      SameKeys(w.sys.nodes, WriteAction(o, phase, route, w, node, v).world.sys.nodes);
    }
  }

  ghost predicate AvoidsSaved(saved: seq<Saved>, actions: seq<Action>) {
    forall a :: a in actions ==> !SavedNode(saved, a.node)
  }

  lemma {:induction false} ApplySettles(o: Oracle, route: Route, before: World, w: World, actions: seq<Action>)
    requires o.UndoWorks() && Tidy(before.qos) && Settled(before, w)
    requires AvoidsSaved(before.qos.saved, actions) && DeviceReleases(route, actions)
    ensures var r := ApplyActions(o, route, w, actions);
      && Settled(before, r.world)
      && (r.count == |actions| && Holding(before, w) ==> Holding(before, r.world))
    decreases actions
  {
    if actions != [] {
      var a := actions[0];
      assert a in actions && forall b :: b in actions[1..] ==> b in actions;
      WriteSettles(o, Forward, route, before, w, a.node, a.value);
      var step := WriteAction(o, Forward, route, w, a.node, a.value);
      if step.ok { ApplySettles(o, route, before, step.world, actions[1..]); }
    }
  }

  lemma {:induction false} RollbackSettles(o: Oracle, route: Route, before: World, w: World, completed: seq<Action>)
    requires o.UndoWorks() && Tidy(before.qos) && Settled(before, w) && AvoidsSaved(before.qos.saved, completed)
    ensures Settled(before, Rollback(o, route, w, completed).world)
    decreases completed
  {
    if completed != [] {
      var k := |completed| - 1;
      var a := completed[k];
      assert a in completed && forall b :: b in completed[..k] ==> b in completed;
      WriteSettles(o, Undo, route, before, w, a.node, a.original);
      RollbackSettles(o, route, before, WriteAction(o, Undo, route, w, a.node, a.original).world, completed[..k]);
    }
  }

  /**
   A transaction that stays off the saved nodes keeps a held fallback as it is when it applies,
   and otherwise keeps it or gives its nodes back.
   */
  lemma ExecuteSettles(o: Oracle, route: Route, w: World, plan: Plan)
    requires o.UndoWorks() && Tidy(w.qos)
    requires AvoidsSaved(w.qos.saved, plan.actions) && DeviceReleases(route, plan.actions)
    ensures var r := Execute(o, route, w, plan);
      Settled(w, r.world) && (r.result.Applied? ==> Holding(w, r.world))
  {
    PreflightWritesNothing(o, w.sys, plan.preflight);
    var start := w.(sys := PreflightAll(o, w.sys, plan.preflight).sys);
    ApplySettles(o, route, w, start, plan.actions);
    var forward := ApplyActions(o, route, start, plan.actions);
    assert forall a :: a in plan.actions[..forward.count] ==> a in plan.actions;
    RollbackSettles(o, route, w, forward.world, plan.actions[..forward.count]);
  }

  // ---------------------------------------------------------------- the executor

  /** Compensating the last of k completed actions leaves the first k - 1 to compensate. */
  lemma RollbackLast(o: Oracle, route: Route, w: World, completed: seq<Action>, k: nat, errors: seq<Node>)
    requires 0 < k <= |completed|
    ensures var a := completed[k - 1]; var step := WriteAction(o, Undo, route, w, a.node, a.original);
      var rest := Rollback(o, route, w, completed[..k]);
      var inner := Rollback(o, route, step.world, completed[..k - 1]);
      && rest.world == inner.world
      && errors + rest.errors == (if step.ok then errors else errors + [a.node]) + inner.errors
  {
    assert completed[..k][..k - 1] == completed[..k - 1];
  }

  class TransactionExecutor {
    const machine: Machine
    const qos: PmQosController

    constructor (machine: Machine, qos: PmQosController)
      requires qos.machine == machine
      ensures this.machine == machine && this.qos == qos
    {
      this.machine := machine;
      this.qos := qos;
    }

    predicate Valid() { qos.machine == machine }

    method WriteOne(phase: Phase, route: Route, node: Node, value: Value) returns (ok: bool)
      requires Valid()
      modifies machine, qos
      ensures WriteAction(machine.oracle, phase, route, old(qos.View()), node, value) == Step(qos.View(), ok)
    {
      if IsDevice(route, node) {
        if value == RELEASE {
          ok := qos.Release(true);
          return;
        }
        ok := false;
        if ParseInt(value).Some? {
          ok := qos.Lock(ParseInt(value));
        }
        if !ok {
          var _ := qos.Release(true);
        }
        return;
      }
      ok := machine.Attempt(phase, Write(node, value));
    }

    method PreflightPolicyApplyPlan(paths: seq<Node>) returns (refused: Option<Node>)
      requires Valid()
      modifies machine
      ensures PreflightAll(machine.oracle, old(machine.View()), paths) == Checked(machine.View(), refused)
    {
      for i := 0 to |paths|
        invariant PreflightAll(machine.oracle, old(machine.View()), paths)
                  == PreflightAll(machine.oracle, machine.View(), paths[i..])
      {
        DropStep(paths, i);
        var open := machine.Attempt(Forward, Preflight(paths[i]));
        if !open {
          return Some(paths[i]);
        }
      }
      return None;
    }

    /** Write the actions in order until one fails. */
    method WriteForward(route: Route, actions: seq<Action>) returns (completed: seq<Action>)
      requires Valid()
      modifies machine, qos
      ensures completed <= actions
      ensures ApplyActions(machine.oracle, route, old(qos.View()), actions)
              == Progressed(qos.View(), |completed|)
    {
      completed := [];
      for i := 0 to |actions|
        invariant completed == actions[..i]
        invariant
          var rest := ApplyActions(machine.oracle, route, qos.View(), actions[i..]);
          ApplyActions(machine.oracle, route, old(qos.View()), actions) == Progressed(rest.world, rest.count + i)
      {
        DropStep(actions, i);
        var ok := WriteOne(Forward, route, actions[i].node, actions[i].value);
        if !ok {
          return;
        }
        completed := completed + [actions[i]];
      }
    }

    method CompensateInReverse(route: Route, completed: seq<Action>) returns (errors: seq<Node>)
      requires Valid()
      modifies machine, qos
      ensures Rollback(machine.oracle, route, old(qos.View()), completed) == Undone(qos.View(), errors)
    {
      errors := [];
      var k := |completed|;
      assert completed[..k] == completed;
      while k > 0
        invariant 0 <= k <= |completed|
        invariant
          var rest := Rollback(machine.oracle, route, qos.View(), completed[..k]);
          Rollback(machine.oracle, route, old(qos.View()), completed) == Undone(rest.world, errors + rest.errors)
      {
        var action := completed[k - 1];
        RollbackLast(machine.oracle, route, qos.View(), completed, k, errors);
        var ok := WriteOne(Undo, route, action.node, action.original);
        if !ok {
          errors := errors + [action.node];
        }
        k := k - 1;
      }
      assert completed[..k] == [] && errors + [] == errors;
    }

    method ExecutePolicyApplyPlan(route: Route, plan: Plan) returns (result: Result)
      requires Valid()
      modifies machine, qos
      ensures Execute(machine.oracle, route, old(qos.View()), plan) == Executed(qos.View(), result)
    {
      var refused := PreflightPolicyApplyPlan(plan.preflight);
      if refused.Some? {
        return PreflightFailed(refused.value);
      }
      var completed := WriteForward(route, plan.actions);
      if |completed| == |plan.actions| {
        return Applied;
      }
      assert completed == plan.actions[..|completed|];
      var errors := CompensateInReverse(route, completed);
      return RolledBack(|completed|, errors);
    }
  }
}
