/**
 Why one snapshot is enough: while only captured nodes and idle states have drifted, a later plan
 for a covered governor touches captured nodes only, and the snapshot still restores everything.
 */
module RelockLaws {
  import opened Common
  import opened Kernel
  import opened Policies
  import opened Planning
  import opened PlanLaws
  import opened Snapshots
  import opened SnapshotLaws
  import opened CaptureLaws

  /** now differs from pre only on the nodes some actions plan and on cpuidle nodes. */
  ghost predicate Drifted(pre: Nodes, now: Nodes, actions: seq<Action>) {
    && now.Keys == pre.Keys
    && forall n :: n in pre && !PlannedNode(actions, n) && !n.CpuIdleDisable? ==> now[n] == pre[n]
  }

  /** The first plan of a run, built in the tree as it was before. */
  ghost predicate FirstPlan(pre: Nodes, cs: seq<Candidate>, req: Request, actions: seq<Action>) {
    Coherent(cs) && BuildPlan(pre, cs, req, []).Success? && actions == BuildPlan(pre, cs, req, []).value.actions
  }

  /** What a policy is made of besides the values of its nodes survives any drift. */
  lemma DriftKeepsLayout(pre: Nodes, now: Nodes, c: Candidate, k: Control)
    requires now.Keys == pre.Keys
    ensures ControlNode(now, c, k) == ControlNode(pre, c, k)
    ensures PathOf(Inventory(now, c), k) == PathOf(Inventory(pre, c), k)
    ensures Inventory(now, c).id == Inventory(pre, c).id
  {
    InventoryControl(pre, c, k);
    InventoryControl(now, c, k);
    assert forall n :: n in now <==> n in pre by {
      assert forall n :: n in now.Keys <==> n in pre.Keys;
    }
  }

  /** A control is determined by the node it resolves to, apart from the directory. */
  lemma ShapeDetermines(d: Dir, e: Dir, k: Control, l: Control, n: Node)
    requires Shape(d, k, n) && Shape(e, l, n)
    ensures k == l && (n.PolicyFile? ==> d == e)
  {
  }

  lemma ServesWhere(nodes: Nodes, cs: seq<Candidate>, req: Request, a: Action) returns (c: Candidate)
    requires Coherent(cs) && BuildPlan(nodes, cs, req, []).Success?
    requires a in BuildPlan(nodes, cs, req, []).value.actions
    ensures c in Kept(cs, {}) && Serves(nodes, req, Inventory(nodes, c), a)
    ensures Shape(c.dir, a.owner.control, a.node)
  {
    var q := ServedPolicy(nodes, cs, req, [], a);
    DiscoveredFromKept(nodes, cs, q);
    c :| c in Kept(cs, {}) && q == Inventory(nodes, c);
    InventoryControlOk(nodes, c, a.owner.control);
  }

  /** A planned file of a kept directory serves a wanted control of that directory's policy. */
  lemma PlannedFileIsWanted(
    pre: Nodes, cs: seq<Candidate>, req: Request, actions: seq<Action>, c: Candidate, file: File)
    returns (k: Control)
    requires FirstPlan(pre, cs, req, actions) && c in Kept(cs, {})
    requires PlannedNode(actions, PolicyFile(c.dir, file))
    ensures Wants(Inventory(pre, c), req, k) && Shape(c.dir, k, PolicyFile(c.dir, file))
  {
    var a :| a in actions && a.node == PolicyFile(c.dir, file);
    var d := ServesWhere(pre, cs, req, a);
    k := a.owner.control;
    KeptOnce(cs, {});
    SameDirSameCandidate(Kept(cs, {}), c, d);
  }

  lemma SameDirSameCandidate(cs: seq<Candidate>, a: Candidate, b: Candidate)
    requires DistinctCandidateDirs(cs) && a in cs && b in cs && a.dir == b.dir
    ensures a == b
  {
  }

  /** A file no plan touches reads as before. */
  lemma UnplannedFileKept(
    pre: Nodes, now: Nodes, cs: seq<Candidate>, req: Request, actions: seq<Action>, c: Candidate, file: File)
    requires FirstPlan(pre, cs, req, actions) && c in Kept(cs, {}) && Drifted(pre, now, actions)
    requires forall k :: Wants(Inventory(pre, c), req, k) ==> !Shape(c.dir, k, PolicyFile(c.dir, file))
    ensures Read(now, PolicyFile(c.dir, file)) == Read(pre, PolicyFile(c.dir, file))
    ensures ReadInt(now, PolicyFile(c.dir, file)) == ReadInt(pre, PolicyFile(c.dir, file))
  {
    var n := PolicyFile(c.dir, file);
    if PlannedNode(actions, n) {
      var k := PlannedFileIsWanted(pre, cs, req, actions, c, file);
    } else {
      assert n in now <==> n in pre by { assert n in now.Keys <==> n in pre.Keys; }
    }
  }

  /** The capability of a control depends on its node alone. */
  lemma SameNodeSameCapability(pre: Nodes, now: Nodes, c: Candidate, k: Control)
    requires now.Keys == pre.Keys
    requires var n := ControlNode(pre, c, k); n.Some? && n.value in pre ==> now[n.value] == pre[n.value]
    ensures Inventory(now, c).Offers(k) <==> Inventory(pre, c).Offers(k)
  {
    DriftKeepsLayout(pre, now, c, k);
    InventoryControl(pre, c, k);
    InventoryControl(now, c, k);
    var n := ControlNode(pre, c, k);
    if n.Some? { assert n.value in now <==> n.value in pre by { assert n.value in now.Keys <==> n.value in pre.Keys; } }
  }

  lemma UsableStays(pre: Nodes, now: Nodes, cs: seq<Candidate>, req: Request, actions: seq<Action>, c: Candidate)
    requires FirstPlan(pre, cs, req, actions) && c in Kept(cs, {}) && Drifted(pre, now, actions)
    requires Inventory(now, c).usable
    ensures Inventory(pre, c).usable
  {
    var p := Inventory(pre, c);
    if !p.usable {
      RequiredKept(pre, now, cs, req, actions, c, Governor, ScalingGovernor);
      RequiredKept(pre, now, cs, req, actions, c, ActiveMin, ScalingMinFreq);
      RequiredKept(pre, now, cs, req, actions, c, ActiveMax, ScalingMaxFreq);
    }
  }

  lemma RequiredKept(
    pre: Nodes, now: Nodes, cs: seq<Candidate>, req: Request, actions: seq<Action>, c: Candidate,
    k: Control, file: File)
    requires FirstPlan(pre, cs, req, actions) && c in Kept(cs, {}) && Drifted(pre, now, actions)
    requires !Inventory(pre, c).usable && ControlNode(pre, c, k) == Some(PolicyFile(c.dir, file))
    ensures Inventory(now, c).Offers(k) <==> Inventory(pre, c).Offers(k)
  {
    if PlannedNode(actions, PolicyFile(c.dir, file)) {
      var w := PlannedFileIsWanted(pre, cs, req, actions, c, file);
    } else {
      SameNodeSameCapability(pre, now, c, k);
    }
  }

  lemma LimitKept(
    pre: Nodes, now: Nodes, cs: seq<Candidate>, req: Request, actions: seq<Action>, c: Candidate, file: File)
    requires FirstPlan(pre, cs, req, actions) && c in Kept(cs, {}) && Drifted(pre, now, actions)
    requires file in {ScalingMinFreq, ScalingMaxFreq, CpuinfoMinFreq, CpuinfoMaxFreq}
    requires !Wants(Inventory(pre, c), req, ActiveMin)
    ensures ReadInt(now, PolicyFile(c.dir, file)) == ReadInt(pre, PolicyFile(c.dir, file))
  {
    NoLimitWanted(Inventory(pre, c), req, c.dir, file);
    UnplannedFileKept(pre, now, cs, req, actions, c, file);
  }

  lemma NoLimitWanted(p: Policy, req: Request, dir: Dir, file: File)
    requires file in {ScalingMinFreq, ScalingMaxFreq, CpuinfoMinFreq, CpuinfoMaxFreq}
    requires !Wants(p, req, ActiveMin)
    ensures forall k :: Wants(p, req, k) ==> !Shape(dir, k, PolicyFile(dir, file))
  {
  }

  lemma FloorStays(
    pre: Nodes, now: Nodes, cs: seq<Candidate>, req: Request, actions: seq<Action>, c: Candidate, t: Option<int>)
    requires FirstPlan(pre, cs, req, actions) && c in Kept(cs, {}) && Drifted(pre, now, actions)
    requires Inventory(pre, c).usable && EffectiveTarget(Inventory(now, c).limits, t).Some?
    ensures Wants(Inventory(pre, c), req, ActiveMin)
  {
    if !Wants(Inventory(pre, c), req, ActiveMin) {
      LimitKept(pre, now, cs, req, actions, c, ScalingMinFreq);
      LimitKept(pre, now, cs, req, actions, c, ScalingMaxFreq);
      LimitKept(pre, now, cs, req, actions, c, CpuinfoMinFreq);
      LimitKept(pre, now, cs, req, actions, c, CpuinfoMaxFreq);
      SameLimits(pre, now, c);
    }
  }

  lemma SameLimits(pre: Nodes, now: Nodes, c: Candidate)
    requires ReadInt(now, PolicyFile(c.dir, ScalingMinFreq)) == ReadInt(pre, PolicyFile(c.dir, ScalingMinFreq))
    requires ReadInt(now, PolicyFile(c.dir, ScalingMaxFreq)) == ReadInt(pre, PolicyFile(c.dir, ScalingMaxFreq))
    requires ReadInt(now, PolicyFile(c.dir, CpuinfoMinFreq)) == ReadInt(pre, PolicyFile(c.dir, CpuinfoMinFreq))
    requires ReadInt(now, PolicyFile(c.dir, CpuinfoMaxFreq)) == ReadInt(pre, PolicyFile(c.dir, CpuinfoMaxFreq))
    ensures Inventory(now, c).limits == Inventory(pre, c).limits
  {
  }

  lemma GovernorsStay(pre: Nodes, now: Nodes, cs: seq<Candidate>, req: Request, actions: seq<Action>, c: Candidate)
    requires FirstPlan(pre, cs, req, actions) && c in Kept(cs, {}) && Drifted(pre, now, actions)
    ensures Inventory(now, c).governors == Inventory(pre, c).governors
  {
    NoListWanted(Inventory(pre, c), req, c.dir);
    UnplannedFileKept(pre, now, cs, req, actions, c, ScalingAvailableGovernors);
    SameGovernors(pre, now, c);
  }

  lemma NoListWanted(p: Policy, req: Request, dir: Dir)
    ensures forall k :: Wants(p, req, k) ==> !Shape(dir, k, PolicyFile(dir, ScalingAvailableGovernors))
  {
  }

  lemma SameGovernors(pre: Nodes, now: Nodes, c: Candidate)
    requires Read(now, PolicyFile(c.dir, ScalingAvailableGovernors)) == Read(pre, PolicyFile(c.dir, ScalingAvailableGovernors))
    ensures Inventory(now, c).governors == Inventory(pre, c).governors
  {
  }

  lemma OptionalStays(
    pre: Nodes, now: Nodes, cs: seq<Candidate>, req: Request, actions: seq<Action>, c: Candidate, k: Control)
    requires FirstPlan(pre, cs, req, actions) && c in Kept(cs, {}) && Drifted(pre, now, actions)
    requires k.Boost? || k.Cpb? || k.Epp?
    requires Inventory(now, c).Offers(k)
    ensures Inventory(pre, c).Offers(k)
  {
    var p := Inventory(pre, c);
    DriftKeepsLayout(pre, now, c, k);
    InventoryControl(now, c, k);
    InventoryControlOk(now, c, k);
    var n := ControlNode(pre, c, k).value;
    if !PlannedNode(actions, n) {
      SameNodeSameCapability(pre, now, c, k);
    } else if n == SharedBoost {
      SharedBoostOffered(pre, cs, req, actions, c);
    } else {
      var w := PlannedFileIsWanted(pre, cs, req, actions, c, n.file);
      assert w == k;
    }
  }

  /** A shared boost switch planned for one policy is offered to every policy that falls back to it. */
  lemma SharedBoostOffered(pre: Nodes, cs: seq<Candidate>, req: Request, actions: seq<Action>, c: Candidate)
    requires FirstPlan(pre, cs, req, actions) && PlannedNode(actions, SharedBoost)
    requires ControlNode(pre, c, Boost) == Some(SharedBoost)
    ensures Inventory(pre, c).Offers(Boost)
  {
    var a :| a in actions && a.node == SharedBoost;
    var d := ServesWhere(pre, cs, req, a);
    SharedBoostReadable(pre, req, d, c, a);
  }

  lemma SharedBoostReadable(pre: Nodes, req: Request, d: Candidate, c: Candidate, a: Action)
    requires Serves(pre, req, Inventory(pre, d), a) && a.node == SharedBoost && Shape(d.dir, a.owner.control, a.node)
    requires ControlNode(pre, c, Boost) == Some(SharedBoost)
    ensures Inventory(pre, c).Offers(Boost)
  {
    InventoryControl(pre, d, Boost);
    InventoryControl(pre, c, Boost);
  }

  // ---------------------------------------------------------------- relocking

  /**
   Wherever a policy takes a floor, a governor requested later is available only if the governor
   requested first was; a caller can check it against the available governors before relocking.
   */
  ghost predicate GovernorCovered(pre: Nodes, cs: seq<Candidate>, req: Request, later: Request) {
    forall c | c in Kept(cs, {}) && Wants(Inventory(pre, c), req, ActiveMin)
        && Wants(Inventory(pre, c), later.(target := req.target), Governor) ::
      Wants(Inventory(pre, c), req, Governor)
  }

  /** Both requests ask for the same optional controls, as every daemon request does. */
  predicate SameSwitches(req: Request, later: Request) {
    forall k: Control :: RequestedValue(later, k).Some? ==> RequestedValue(req, k).Some?
  }

  lemma RelockWants(
    pre: Nodes, now: Nodes, cs: seq<Candidate>, req: Request, later: Request, actions: seq<Action>,
    c: Candidate, k: Control)
    requires FirstPlan(pre, cs, req, actions) && c in Kept(cs, {}) && Drifted(pre, now, actions)
    requires SameSwitches(req, later) && GovernorCovered(pre, cs, req, later)
    requires Wants(Inventory(now, c), later, k)
    ensures Wants(Inventory(pre, c), req, k)
  {
    UsableStays(pre, now, cs, req, actions, c);
    if k.Governor? || k.ActiveMin? {
      FloorStays(pre, now, cs, req, actions, c, later.target);
      GovernorsStay(pre, now, cs, req, actions, c);
    } else {
      assert RequestedValue(req, k).Some?;
      OptionalStays(pre, now, cs, req, actions, c, k);
    }
  }

  /** A later plan writes only nodes the first plan wrote. */
  lemma RelockStaysCaptured(
    pre: Nodes, now: Nodes, cs: seq<Candidate>, req: Request, later: Request, actions: seq<Action>, n: Node)
    requires FirstPlan(pre, cs, req, actions) && Drifted(pre, now, actions)
    requires SameSwitches(req, later) && GovernorCovered(pre, cs, req, later)
    requires BuildPlan(now, cs, later, []).Success?
    requires PlannedNode(BuildPlan(now, cs, later, []).value.actions, n)
    ensures PlannedNode(actions, n)
  {
    var a :| a in BuildPlan(now, cs, later, []).value.actions && a.node == n;
    var q := ServedPolicy(now, cs, later, [], a);
    DiscoveredFromKept(now, cs, q);
    var c :| c in Kept(cs, {}) && q == Inventory(now, c);
    var k := a.owner.control;
    RelockWants(pre, now, cs, req, later, actions, c, k);
    DriftKeepsLayout(pre, now, c, k);
    var p := Inventory(pre, c);
    assert PathOf(q, k) == Some(n) && PathOf(p, k) == Some(n);
    DiscoveredFromKept(pre, cs, p);
    PlanWritesWantedNodes(pre, cs, req, [], n);
  }

  // ---------------------------------------------------------------- restoring

  /** The values the first plan captured. */
  ghost function CapturedValues(pre: Nodes, actions: seq<Action>): Nodes {
    map n | n in pre && PlannedNode(actions, n) :: pre[n]
  }

  /** A saved control is live again, on the node it was captured from. */
  lemma SavedControlLive(
    pre: Nodes, now: Nodes, cs: seq<Candidate>, req: Request, actions: seq<Action>, s: PolicySnapshot, c: Control)
    returns (p: Policy)
    requires FirstPlan(pre, cs, req, actions) && now.Keys == pre.Keys
    requires s in CreateSnapshot(pre, cs, actions) && c in s.saved
    ensures Live(DiscoverPolicies(now, cs), s.id) == Some(p) && c in p.writable && !c.ActiveMax?
    ensures p.writable[c] in pre && PlannedNode(actions, p.writable[c]) && s.saved[c] == pre[p.writable[c]]
  {
    SnapshotHoldsPlan(pre, cs, req, []);
    var a :| a in actions && a.owner == Cpufreq(s.id, c) && a.original == s.saved[c];
    var q := ServedPolicy(pre, cs, req, [], a);
    DiscoveredFromKept(pre, cs, q);
    var d :| d in Kept(cs, {}) && q == Inventory(pre, d);
    p := Inventory(now, d);
    DriftKeepsLayout(pre, now, d, c);
    assert PathOf(q, c) == Some(a.node) && PathOf(p, c) == Some(a.node);
    DiscoveredFromKept(now, cs, p);
    LiveById(now, cs, p);
  }

  lemma LiveById(nodes: Nodes, cs: seq<Candidate>, p: Policy)
    requires Coherent(cs) && p in DiscoverPolicies(nodes, cs)
    ensures Live(DiscoverPolicies(nodes, cs), p.id) == Some(p)
  {
    assert DistinctPolicyIds(DiscoverPolicies(nodes, cs)) by { DiscoveryIsUnique(nodes, cs); }
    SameIdSamePolicy(DiscoverPolicies(nodes, cs), p, Live(DiscoverPolicies(nodes, cs), p.id).value);
  }

  /**
   Restoring the snapshot of the first plan, through whatever drift of captured nodes, gives back
   every node as it was, when no write is refused.
   */
  lemma RestoreReturns(
    o: Oracle, pre: Nodes, sys: Sys, cs: seq<Candidate>, req: Request, actions: seq<Action>)
    requires o.UndoWorks() && FirstPlan(pre, cs, req, actions)
    requires sys.nodes.Keys == pre.Keys
    requires forall n :: n in pre && !PlannedNode(actions, n) ==> sys.nodes[n] == pre[n]
    ensures RestoreSnapshot(o, sys, Some(cs), CreateSnapshot(pre, cs, actions)).sys.nodes == pre
  {
    var snap := CreateSnapshot(pre, cs, actions);
    var live := DiscoverPolicies(sys.nodes, cs);
    var st := RestoreAll(o, Restoring(sys, {}, []), live, snap);
    SnapshotAims(pre, sys.nodes, cs, req, actions);
    AllStage(o, Restoring(sys, {}, []), live, snap, CapturedValues(pre, actions));
    SnapshotRestorable(pre, sys.nodes, cs, req, actions);
    RestoreWorks(o, Restoring(sys, {}, []), live, snap);
    forall n | n in pre ensures n in st.sys.nodes && st.sys.nodes[n] == pre[n] {
      assert n in st.sys.nodes.Keys;
      if PlannedNode(actions, n) {
        PlannedNodeReturns(pre, st, live, sys.nodes, cs, req, actions, n);
      }
    }
    assert st.sys.nodes.Keys == pre.Keys;
  }

  lemma PlannedNodeReturns(
    pre: Nodes, st: Restoring, live: seq<Policy>, now: Nodes, cs: seq<Candidate>, req: Request,
    actions: seq<Action>, n: Node)
    requires FirstPlan(pre, cs, req, actions) && now.Keys == pre.Keys && live == DiscoverPolicies(now, cs)
    requires AllRestoredOrReported(st, live, CreateSnapshot(pre, cs, actions), CapturedValues(pre, actions))
    requires st.errors == [] && PlannedNode(actions, n)
    ensures n in pre && n in st.sys.nodes && st.sys.nodes[n] == pre[n]
  {
    var snap := CreateSnapshot(pre, cs, actions);
    SnapshotHoldsPlan(pre, cs, req, []);
    var a :| a in actions && a.node == n;
    var s, c := snap[IndexOf(snap, a.owner.id)], a.owner.control;
    assert s in snap && c in s.saved && !Reported(st.errors, s.id, c);
    var p := SavedControlLive(pre, now, cs, req, actions, s, c);
    CapturedWhere(pre, now, cs, req, a, p);
  }

  /** The live policy with the owner of an action still has the action's node behind the control. */
  lemma CapturedWhere(pre: Nodes, now: Nodes, cs: seq<Candidate>, req: Request, a: Action, p: Policy)
    requires Coherent(cs) && BuildPlan(pre, cs, req, []).Success? && now.Keys == pre.Keys
    requires a in BuildPlan(pre, cs, req, []).value.actions && a.owner.Cpufreq?
    requires Live(DiscoverPolicies(now, cs), a.owner.id) == Some(p)
    ensures PathOf(p, a.owner.control) == Some(a.node)
  {
    var q := ServedPolicy(pre, cs, req, [], a);
    DiscoveredFromKept(pre, cs, q);
    var d :| d in Kept(cs, {}) && q == Inventory(pre, d);
    DriftKeepsLayout(pre, now, d, a.owner.control);
    DiscoveredFromKept(now, cs, Inventory(now, d));
    LiveById(now, cs, Inventory(now, d));
  }

  lemma SnapshotAims(pre: Nodes, now: Nodes, cs: seq<Candidate>, req: Request, actions: seq<Action>)
    requires FirstPlan(pre, cs, req, actions) && now.Keys == pre.Keys
    ensures AimsAll(DiscoverPolicies(now, cs), CreateSnapshot(pre, cs, actions), CapturedValues(pre, actions))
  {
    var snap := CreateSnapshot(pre, cs, actions);
    SnapshotHoldsPlan(pre, cs, req, []);
    var live := DiscoverPolicies(now, cs);
    forall s | s in snap && Live(live, s.id).Some?
      ensures Aims(Live(live, s.id).value, s, CapturedValues(pre, actions))
    {
      forall c | c in s.saved && c in Live(live, s.id).value.writable
        ensures Live(live, s.id).value.writable[c] in CapturedValues(pre, actions)
             && CapturedValues(pre, actions)[Live(live, s.id).value.writable[c]] == s.saved[c]
      {
        var p := SavedControlLive(pre, now, cs, req, actions, s, c);
      }
    }
  }

  lemma SnapshotRestorable(pre: Nodes, now: Nodes, cs: seq<Candidate>, req: Request, actions: seq<Action>)
    requires FirstPlan(pre, cs, req, actions) && now.Keys == pre.Keys
    ensures forall s :: s in CreateSnapshot(pre, cs, actions) ==>
              SoundPolicySnapshot(s) && Live(DiscoverPolicies(now, cs), s.id).Some?
              && Restorable(now, Live(DiscoverPolicies(now, cs), s.id).value, s)
  {
    var snap := CreateSnapshot(pre, cs, actions);
    SnapshotHoldsPlan(pre, cs, req, []);
    var live := DiscoverPolicies(now, cs);
    forall s | s in snap ensures Live(live, s.id).Some? && Restorable(now, Live(live, s.id).value, s) {
      EntryHasControl(pre, cs, req, actions, s);
      var w :| w in s.saved;
      var q := SavedControlLive(pre, now, cs, req, actions, s, w);
      forall c | c in s.saved ensures c in q.writable && q.writable[c] in now && !c.ActiveMax? {
        var p := SavedControlLive(pre, now, cs, req, actions, s, c);
        assert q.writable[c] in pre.Keys;
      }
      assert ActiveMax !in s.saved;
    }
  }

  /** Every entry of a plan's snapshot was made for some captured control. */
  lemma EntryHasControl(pre: Nodes, cs: seq<Candidate>, req: Request, actions: seq<Action>, s: PolicySnapshot)
    requires FirstPlan(pre, cs, req, actions) && s in CreateSnapshot(pre, cs, actions)
    ensures exists c :: c in s.saved
  {
    forall a | a in actions ensures a.owner.Cpufreq? && Captures(a.owner.control, a.original).Some? {
      PlannedOriginalCaptured(pre, cs, req, [], a);
    }
    EntriesFilled(Members(DiscoverPolicies(pre, cs)), [], actions);
  }

  lemma {:induction false} EntriesFilled(members: map<PolicyId, seq<nat>>, snap: Snapshot, actions: seq<Action>)
    requires forall s :: s in snap ==> exists c :: c in s.saved
    requires forall a :: a in actions ==> a.owner.Cpufreq? && Captures(a.owner.control, a.original).Some?
    ensures forall s :: s in CaptureAll(members, snap, actions) ==> exists c :: c in s.saved
    decreases actions
  {
    if actions != [] {
      var a := actions[0];
      assert a in actions && forall b :: b in actions[1..] ==> b in actions;
      var next := CaptureAction(members, snap, a);
      if a.owner.id in members {
        var base := WithEntry(snap, a.owner.id, members[a.owner.id]);
        var k := IndexOf(snap, a.owner.id);
        forall s | s in next ensures exists c :: c in s.saved {
          var j :| 0 <= j < |next| && next[j] == s;
          if j == k { assert a.owner.control in s.saved; } else { assert s == snap[j]; }
        }
      }
      EntriesFilled(members, next, actions[1..]);
    }
  }
}
