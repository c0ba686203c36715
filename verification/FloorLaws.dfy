/**
 Planning again in a tree where a plan has been applied: floors compose, never drop, and the same
 request plans only values the nodes already hold.
 */
module FloorLaws {
  import opened Kernel
  import opened Policies
  import opened Planning
  import opened PlanLaws
  import opened RelockLaws

  /** now is pre with a plan applied, and nothing else changed but idle states. */
  ghost predicate PlanApplied(pre: Nodes, now: Nodes, actions: seq<Action>) {
    && now.Keys == pre.Keys
    && (forall a :: a in actions ==> a.node in now && now[a.node] == a.value)
    && forall n :: n in pre && !PlannedNode(actions, n) && !n.CpuIdleDisable? ==> now[n] == pre[n]
  }

  lemma AppliedDrifts(pre: Nodes, now: Nodes, actions: seq<Action>)
    requires PlanApplied(pre, now, actions)
    ensures Drifted(pre, now, actions)
  {
  }

  /** The one action that serves a wanted floor. */
  lemma FloorAction(pre: Nodes, cs: seq<Candidate>, req: Request, actions: seq<Action>, c: Candidate)
    returns (a: Action)
    requires FirstPlan(pre, cs, req, actions) && c in Kept(cs, {}) && Wants(Inventory(pre, c), req, ActiveMin)
    ensures a in actions && a.node == PolicyFile(c.dir, ScalingMinFreq)
    ensures a.value == Number(EffectiveTarget(Inventory(pre, c).limits, req.target).value)
  {
    var p := Inventory(pre, c);
    DiscoveredFromKept(pre, cs, p);
    var i := ExactlyOneFloor(pre, cs, req, [], p);
    a := actions[i];
    OwnerIsServed(pre, cs, req, [], p, a);
    InventoryControlOk(pre, c, ActiveMin);
  }

  /** Files of a policy that no plan ever writes. */
  lemma BoundFileKept(
    pre: Nodes, now: Nodes, cs: seq<Candidate>, req: Request, actions: seq<Action>, c: Candidate, file: File)
    requires FirstPlan(pre, cs, req, actions) && c in Kept(cs, {}) && PlanApplied(pre, now, actions)
    requires file in {ScalingMaxFreq, CpuinfoMinFreq, CpuinfoMaxFreq}
    ensures ReadInt(now, PolicyFile(c.dir, file)) == ReadInt(pre, PolicyFile(c.dir, file))
  {
    AppliedDrifts(pre, now, actions);
    NoBoundWanted(Inventory(pre, c), req, c.dir, file);
    UnplannedFileKept(pre, now, cs, req, actions, c, file);
  }

  lemma NoBoundWanted(p: Policy, req: Request, dir: Dir, file: File)
    requires file in {ScalingMaxFreq, CpuinfoMinFreq, CpuinfoMaxFreq}
    ensures forall k :: Wants(p, req, k) ==> !Shape(dir, k, PolicyFile(dir, file))
  {
  }

  /** Applying a plan moves the floor of a policy to its target, and no other limit. */
  lemma LimitsAfter(pre: Nodes, now: Nodes, cs: seq<Candidate>, req: Request, actions: seq<Action>, c: Candidate)
    requires FirstPlan(pre, cs, req, actions) && c in Kept(cs, {}) && PlanApplied(pre, now, actions)
    requires Wants(Inventory(pre, c), req, ActiveMin)
    ensures var l := Inventory(pre, c).limits;
      Inventory(now, c).limits == l.(activeMin := EffectiveTarget(l, req.target))
  {
    var a := FloorAction(pre, cs, req, actions, c);
    assert now[PolicyFile(c.dir, ScalingMinFreq)] == a.value;
    BoundFileKept(pre, now, cs, req, actions, c, ScalingMaxFreq);
    BoundFileKept(pre, now, cs, req, actions, c, CpuinfoMinFreq);
    BoundFileKept(pre, now, cs, req, actions, c, CpuinfoMaxFreq);
  }

  /** What a plan writes to a governor file is one governor. */
  lemma GovernorWritten(pre: Nodes, now: Nodes, cs: seq<Candidate>, req: Request, actions: seq<Action>, dir: Dir)
    requires FirstPlan(pre, cs, req, actions) && PlanApplied(pre, now, actions)
    requires PlannedNode(actions, PolicyFile(dir, ScalingGovernor))
    ensures var n := PolicyFile(dir, ScalingGovernor); n in now && now[n].Text? && now[n].tokens != []
  {
    var n := PolicyFile(dir, ScalingGovernor);
    var a :| a in actions && a.node == n;
    var d := ServesWhere(pre, cs, req, a);
    ShapeDetermines(d.dir, dir, a.owner.control, Governor, n);
  }

  lemma GovernorStaysReadable(
    pre: Nodes, now: Nodes, cs: seq<Candidate>, req: Request, actions: seq<Action>, c: Candidate)
    requires FirstPlan(pre, cs, req, actions) && c in Kept(cs, {}) && PlanApplied(pre, now, actions)
    requires Inventory(pre, c).usable
    ensures Inventory(now, c).Offers(Governor)
  {
    if PlannedNode(actions, PolicyFile(c.dir, ScalingGovernor)) {
      GovernorWritten(pre, now, cs, req, actions, c.dir);
      InventoryControl(now, c, Governor);
    } else {
      InventoryControlOk(pre, c, Governor);
      SameNodeSameCapability(pre, now, c, Governor);
    }
  }

  lemma UsableAfter(pre: Nodes, now: Nodes, cs: seq<Candidate>, req: Request, actions: seq<Action>, c: Candidate)
    requires FirstPlan(pre, cs, req, actions) && c in Kept(cs, {}) && PlanApplied(pre, now, actions)
    requires Wants(Inventory(pre, c), req, ActiveMin)
    ensures Inventory(now, c).usable
  {
    GovernorStaysReadable(pre, now, cs, req, actions, c);
    var a := FloorAction(pre, cs, req, actions, c);
    InventoryControl(now, c, ActiveMin);
    InventoryControl(pre, c, ActiveMax);
    InventoryControl(now, c, ActiveMax);
    if PlannedNode(actions, PolicyFile(c.dir, ScalingMaxFreq)) {
      var k := PlannedFileIsWanted(pre, cs, req, actions, c, ScalingMaxFreq);
    }
    SameNodeSameCapability(pre, now, c, ActiveMax);
  }

  /**
   Floors compose. After a plan for one request has been applied, planning a second request gives
   every policy exactly one floor: the one the larger of the two requests would have given in
   the original tree. It is never below the floor in force, and equals it for the same request.
   */
  lemma FloorsCompose(
    pre: Nodes, now: Nodes, cs: seq<Candidate>, req: Request, later: Request, actions: seq<Action>, c: Candidate)
    returns (i: nat)
    requires FirstPlan(pre, cs, req, actions) && c in Kept(cs, {}) && PlanApplied(pre, now, actions)
    requires Wants(Inventory(pre, c), req, ActiveMin)
    ensures BuildPlan(now, cs, later, []).Success?
    ensures var again := BuildPlan(now, cs, later, []).value.actions; var l := Inventory(pre, c).limits;
      var composed := EffectiveTarget(l, LargerRequest(req.target, later.target));
      && OnlyOwnerAt(again, Cpufreq(Inventory(now, c).id, ActiveMin), i)
      && composed.Some? && again[i].value == Number(composed.value)
      && again[i].original == Number(EffectiveTarget(l, req.target).value)
      && composed.value >= EffectiveTarget(l, req.target).value
      && (later.target == req.target ==> again[i].value == again[i].original)
  {
    var p, q := Inventory(pre, c), Inventory(now, c);
    UsableAfter(pre, now, cs, req, actions, c);
    LimitsAfter(pre, now, cs, req, actions, c);
    TargetsCompose(p.limits, req.target, later.target);
    DiscoveredFromKept(now, cs, q);
    assert AnyUsable(DiscoverPolicies(now, cs));
    i := ExactlyOneFloor(now, cs, later, [], q);
    var again := BuildPlan(now, cs, later, []).value.actions;
    OwnerIsServed(now, cs, later, [], q, again[i]);
    InventoryControlOk(now, c, ActiveMin);
    var a := FloorAction(pre, cs, req, actions, c);
    assert again[i].node == a.node;
  }

  /** Replanning is idempotent: the same request plans, everywhere, the value already in place. */
  lemma ReplanIsIdempotent(
    pre: Nodes, now: Nodes, cs: seq<Candidate>, req: Request, actions: seq<Action>, a: Action)
    requires FirstPlan(pre, cs, req, actions) && PlanApplied(pre, now, actions)
    requires BuildPlan(now, cs, req, []).Success? && a in BuildPlan(now, cs, req, []).value.actions
    ensures a.value == a.original
  {
    AppliedDrifts(pre, now, actions);
    RelockStaysCaptured(pre, now, cs, req, req, actions, a.node);
    var first :| first in actions && first.node == a.node;
    var c := ServesWhere(now, cs, req, a);
    var d := ServesWhere(pre, cs, req, first);
    ShapeDetermines(c.dir, d.dir, a.owner.control, first.owner.control, a.node);
    assert a.original == now[a.node] == first.value;
    if a.owner.control.ActiveMin? {
      KeptOnce(cs, {});
      SameDirSameCandidate(Kept(cs, {}), c, d);
      LimitsAfter(pre, now, cs, req, actions, c);
      TargetsCompose(Inventory(pre, c).limits, req.target, req.target);
    }
  }

  // ---------------------------------------------------------------- relocking after a start

  /** An offered governor is still wanted after a plan has been applied, whatever the new target. */
  lemma GovernorWantedAfter(
    pre: Nodes, now: Nodes, cs: seq<Candidate>, req: Request, later: Request, actions: seq<Action>, c: Candidate)
    requires FirstPlan(pre, cs, req, actions) && c in Kept(cs, {}) && PlanApplied(pre, now, actions)
    requires Wants(Inventory(pre, c), req, ActiveMin)
    requires Wants(Inventory(pre, c), later.(target := req.target), Governor)
    ensures Wants(Inventory(now, c), later, Governor)
  {
    AppliedDrifts(pre, now, actions);
    UsableAfter(pre, now, cs, req, actions, c);
    LimitsAfter(pre, now, cs, req, actions, c);
    TargetsCompose(Inventory(pre, c).limits, req.target, later.target);
    GovernorsStay(pre, now, cs, req, actions, c);
  }

  /**
   The condition is exact: in the tree a start has left, a later request, whatever its target, plans
   captured nodes only if and only if its governor is covered. An uncovered governor is planned on a
   node the snapshot does not hold.
   */
  lemma RelockCapturedExactly(
    pre: Nodes, now: Nodes, cs: seq<Candidate>, req: Request, later: Request, actions: seq<Action>)
    requires FirstPlan(pre, cs, req, actions) && PlanApplied(pre, now, actions) && SameSwitches(req, later)
    requires BuildPlan(now, cs, later, []).Success?
    ensures (forall n :: PlannedNode(BuildPlan(now, cs, later, []).value.actions, n) ==> PlannedNode(actions, n))
            <==> GovernorCovered(pre, cs, req, later)
  {
    var again := BuildPlan(now, cs, later, []).value.actions;
    AppliedDrifts(pre, now, actions);
    if GovernorCovered(pre, cs, req, later) {
      forall n | PlannedNode(again, n) ensures PlannedNode(actions, n) {
        RelockStaysCaptured(pre, now, cs, req, later, actions, n);
      }
    }
    if forall n :: PlannedNode(again, n) ==> PlannedNode(actions, n) {
      forall c | c in Kept(cs, {}) && Wants(Inventory(pre, c), req, ActiveMin)
          && Wants(Inventory(pre, c), later.(target := req.target), Governor)
        ensures Wants(Inventory(pre, c), req, Governor)
      {
        GovernorWantedAfter(pre, now, cs, req, later, actions, c);
        assert PlannedNode(again, PolicyFile(c.dir, ScalingGovernor)) by {
          WantedGovernorPlanned(now, cs, later, c);
        }
        var w := PlannedFileIsWanted(pre, cs, req, actions, c, ScalingGovernor);
      }
    }
  }

  lemma WantedGovernorPlanned(nodes: Nodes, cs: seq<Candidate>, req: Request, c: Candidate)
    requires Coherent(cs) && BuildPlan(nodes, cs, req, []).Success? && c in Kept(cs, {})
    requires Wants(Inventory(nodes, c), req, Governor)
    ensures PlannedNode(BuildPlan(nodes, cs, req, []).value.actions, PolicyFile(c.dir, ScalingGovernor))
  {
    var p := Inventory(nodes, c);
    InventoryControlOk(nodes, c, Governor);
    DiscoveredFromKept(nodes, cs, p);
    assert p.writable[Governor] == PolicyFile(c.dir, ScalingGovernor);
    PlanWritesWantedNodes(nodes, cs, req, [], p.writable[Governor]);
  }

  /** What a later plan does with a governor that is not covered. */
  lemma UncoveredGovernorPlanned(
    pre: Nodes, now: Nodes, cs: seq<Candidate>, req: Request, later: Request, actions: seq<Action>, c: Candidate)
    returns (a: Action)
    requires FirstPlan(pre, cs, req, actions) && c in Kept(cs, {}) && PlanApplied(pre, now, actions)
    requires Wants(Inventory(pre, c), req, ActiveMin) && !Wants(Inventory(pre, c), req, Governor)
    requires Wants(Inventory(pre, c), later.(target := req.target), Governor)
    ensures BuildPlan(now, cs, later, []).Success? && a in BuildPlan(now, cs, later, []).value.actions
    ensures a.node == PolicyFile(c.dir, ScalingGovernor) && a.value == Text([later.governor.value])
    ensures !PlannedNode(actions, a.node) && a.node in pre && a.original == pre[a.node]
  {
    var n := PolicyFile(c.dir, ScalingGovernor);
    var i := FloorsCompose(pre, now, cs, req, later, actions, c);
    GovernorWantedAfter(pre, now, cs, req, later, actions, c);
    WantedGovernorPlanned(now, cs, later, c);
    if PlannedNode(actions, n) {
      var k := PlannedFileIsWanted(pre, cs, req, actions, c, ScalingGovernor);
    }
    a :| a in BuildPlan(now, cs, later, []).value.actions && a.node == n;
    GovernorAction(now, cs, later, a, c.dir);
    assert n in pre.Keys;
  }

  lemma GovernorAction(nodes: Nodes, cs: seq<Candidate>, req: Request, a: Action, dir: Dir)
    requires Coherent(cs) && BuildPlan(nodes, cs, req, []).Success?
    requires a in BuildPlan(nodes, cs, req, []).value.actions && a.node == PolicyFile(dir, ScalingGovernor)
    ensures req.governor.Some? && a.value == Text([req.governor.value])
    ensures a.node in nodes && a.original == nodes[a.node]
  {
    var d := ServesWhere(nodes, cs, req, a);
    ShapeDetermines(d.dir, dir, a.owner.control, Governor, a.node);
  }
}
