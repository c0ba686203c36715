/**
 What a plan asks for, in the terms of the tree and the request alone: which file gets which value.
 */
module PlanMeaning {
  import opened Common
  import opened Kernel
  import opened Policies
  import opened Planning
  import opened PlanLaws

  // ---------------------------------------------------------------- the tree's own terms

  /** A file that can be read and holds at least one token. */
  predicate Filled(nodes: Nodes, n: Node) { n in nodes && nodes[n].Text? && nodes[n].tokens != [] }

  /** A directory with members, a governor, and both frequency bounds as integers. */
  predicate UsableDir(nodes: Nodes, c: Candidate) {
    && c.cpus != [] && Filled(nodes, PolicyFile(c.dir, ScalingGovernor))
    && ReadInt(nodes, PolicyFile(c.dir, ScalingMinFreq)).Some?
    && ReadInt(nodes, PolicyFile(c.dir, ScalingMaxFreq)).Some?
  }

  /** The frequency the four limit files allow for a request. */
  function TargetOf(nodes: Nodes, c: Candidate, requested: Option<int>): Option<int> {
    EffectiveTarget(Limits(ReadInt(nodes, PolicyFile(c.dir, CpuinfoMinFreq)), ReadInt(nodes, PolicyFile(c.dir, CpuinfoMaxFreq)),
                           ReadInt(nodes, PolicyFile(c.dir, ScalingMinFreq)), ReadInt(nodes, PolicyFile(c.dir, ScalingMaxFreq))),
                    requested)
  }

  predicate OffersGovernor(nodes: Nodes, c: Candidate, g: Token) {
    var list := PolicyFile(c.dir, ScalingAvailableGovernors);
    list in nodes && nodes[list].Text? && g in nodes[list].tokens
  }

  /** The boost switch of a directory: its own file, or the shared one when it has none. */
  predicate IsBoostSwitch(nodes: Nodes, c: Candidate, n: Node) {
    n == PolicyFile(c.dir, LocalBoost) || (n == SharedBoost && PolicyFile(c.dir, LocalBoost) !in nodes)
  }

  predicate AsksGovernor(nodes: Nodes, req: Request, c: Candidate, n: Node, v: Value) {
    && n == PolicyFile(c.dir, ScalingGovernor) && TargetOf(nodes, c, req.target).Some?
    && req.governor.Some? && OffersGovernor(nodes, c, req.governor.value) && v == Text([req.governor.value])
  }

  predicate AsksFloor(nodes: Nodes, req: Request, c: Candidate, n: Node, v: Value) {
    && n == PolicyFile(c.dir, ScalingMinFreq) && TargetOf(nodes, c, req.target).Some?
    && v == Text([Int(TargetOf(nodes, c, req.target).value)])
  }

  predicate AsksBoost(nodes: Nodes, req: Request, c: Candidate, n: Node, v: Value) {
    && IsBoostSwitch(nodes, c, n) && Filled(nodes, n)
    && req.boost.Some? && v == Text([Int(if req.boost.value then 1 else 0)])
  }

  predicate AsksCpb(nodes: Nodes, req: Request, c: Candidate, n: Node, v: Value) {
    && n == PolicyFile(c.dir, LocalCpb) && Filled(nodes, n)
    && req.cpb.Some? && v == Text([Int(if req.cpb.value then 1 else 0)])
  }

  predicate AsksPreference(nodes: Nodes, req: Request, c: Candidate, n: Node, v: Value) {
    && n == PolicyFile(c.dir, LocalEpp) && Filled(nodes, n)
    && req.epp.Some? && v == Text(req.epp.value)
  }

  /** The request asks for v in file n on behalf of a usable directory. */
  predicate AsksFor(nodes: Nodes, req: Request, c: Candidate, n: Node, v: Value) {
    UsableDir(nodes, c) &&
    (|| AsksGovernor(nodes, req, c, n, v) || AsksFloor(nodes, req, c, n, v) || AsksBoost(nodes, req, c, n, v)
     || AsksCpb(nodes, req, c, n, v) || AsksPreference(nodes, req, c, n, v))
  }

  ghost predicate PlansValue(actions: seq<Action>, n: Node, v: Value) {
    exists a :: a in actions && a.node == n && a.value == v
  }

  // ---------------------------------------------------------------- the inventory means this

  lemma UsableMeans(nodes: Nodes, c: Candidate)
    ensures Inventory(nodes, c).usable <==> UsableDir(nodes, c)
  {
    InventoryControl(nodes, c, Governor);
    InventoryControl(nodes, c, ActiveMin);
    InventoryControl(nodes, c, ActiveMax);
  }

  lemma SwitchMeans(nodes: Nodes, c: Candidate, k: Control)
    requires k.Cpb? || k.Epp?
    ensures var n := PolicyFile(c.dir, if k.Cpb? then LocalCpb else LocalEpp); var p := Inventory(nodes, c);
      && (p.Offers(k) <==> Filled(nodes, n))
      && (p.Offers(k) ==> k in p.writable && p.writable[k] == n)
  {
    InventoryControl(nodes, c, k);
  }

  lemma BoostMeans(nodes: Nodes, c: Candidate, n: Node)
    ensures var p := Inventory(nodes, c);
      p.Offers(Boost) && Boost in p.writable && p.writable[Boost] == n <==> IsBoostSwitch(nodes, c, n) && Filled(nodes, n)
  {
    InventoryControl(nodes, c, Boost);
  }

  lemma RequiredMeans(nodes: Nodes, c: Candidate)
    requires UsableDir(nodes, c)
    ensures var p := Inventory(nodes, c);
      && Governor in p.writable && p.writable[Governor] == PolicyFile(c.dir, ScalingGovernor)
      && ActiveMin in p.writable && p.writable[ActiveMin] == PolicyFile(c.dir, ScalingMinFreq)
  {
    InventoryControl(nodes, c, Governor);
    InventoryControl(nodes, c, ActiveMin);
  }

  /** A wanted control asks for its value, on its node. */
  lemma WantsMeans(nodes: Nodes, req: Request, c: Candidate, k: Control)
    requires var p := Inventory(nodes, c); Wants(p, req, k) && k in p.writable
    ensures var p := Inventory(nodes, c); AsksFor(nodes, req, c, p.writable[k], WantedValue(p, req, k))
  {
    var p := Inventory(nodes, c);
    UsableMeans(nodes, c);
    RequiredMeans(nodes, c);
    if k.Boost? { BoostMeans(nodes, c, p.writable[k]); }
    if k.Cpb? || k.Epp? { SwitchMeans(nodes, c, k); }
  }

  /** And whatever is asked for is a wanted control with that node and value. */
  lemma AsksMeans(nodes: Nodes, req: Request, c: Candidate, n: Node, v: Value) returns (k: Control)
    requires AsksFor(nodes, req, c, n, v)
    ensures var p := Inventory(nodes, c);
      Wants(p, req, k) && k in p.writable && p.writable[k] == n && WantedValue(p, req, k) == v
  {
    UsableMeans(nodes, c);
    RequiredMeans(nodes, c);
    if AsksGovernor(nodes, req, c, n, v) { return Governor; }
    if AsksFloor(nodes, req, c, n, v) { return ActiveMin; }
    if AsksBoost(nodes, req, c, n, v) { BoostMeans(nodes, c, n); return Boost; }
    if AsksCpb(nodes, req, c, n, v) { SwitchMeans(nodes, c, Cpb); return Cpb; }
    SwitchMeans(nodes, c, Epp);
    return Epp;
  }

  // ---------------------------------------------------------------- the whole inventory

  /** The file behind a control, where the tree has it. */
  predicate Behind(nodes: Nodes, c: Candidate, k: Control, n: Node) {
    n in nodes &&
    match k
    case Governor => n == PolicyFile(c.dir, ScalingGovernor)
    case ActiveMin => n == PolicyFile(c.dir, ScalingMinFreq)
    case ActiveMax => n == PolicyFile(c.dir, ScalingMaxFreq)
    case Boost => IsBoostSwitch(nodes, c, n)
    case Cpb => n == PolicyFile(c.dir, LocalCpb)
    case Epp => n == PolicyFile(c.dir, LocalEpp)
    case Epb =>
      n == PolicyFile(c.dir, LocalEpb)
      || (PolicyFile(c.dir, LocalEpb) !in nodes && c.cpus != [] && n == PowerEpb(c.cpus[0]))
  }

  /** It can be used: a bound as an integer, anything else with at least one token. */
  predicate Serviceable(nodes: Nodes, k: Control, n: Node) {
    if k.ActiveMin? || k.ActiveMax? then ReadInt(nodes, n).Some? else Filled(nodes, n)
  }

  /**
   What discovery records of a directory: the name of the policy directory it resolves to, or its own;
   its members, governors and limits; for every control the file behind it; and, for an optional one
   that cannot be used, whether there is no file or an unusable one.
   */
  lemma InventoryMeans(nodes: Nodes, c: Candidate, k: Control, n: Node)
    ensures var p := Inventory(nodes, c); var list := PolicyFile(c.dir, ScalingAvailableGovernors);
      && p.id == (match c.dir case PolicyDir(i) => PolicyName(i) case CpuDir(_) => c.name)
      && p.dir == c.dir && p.cpus == c.cpus
      && p.governors == (if list in nodes && nodes[list].Text? then nodes[list].tokens else [])
      && p.limits == Limits(ReadInt(nodes, PolicyFile(c.dir, CpuinfoMinFreq)), ReadInt(nodes, PolicyFile(c.dir, CpuinfoMaxFreq)),
                            ReadInt(nodes, PolicyFile(c.dir, ScalingMinFreq)), ReadInt(nodes, PolicyFile(c.dir, ScalingMaxFreq)))
      && (k in p.writable && p.writable[k] == n <==> Behind(nodes, c, k, n))
      && (Behind(nodes, c, k, n) ==> (p.Offers(k) <==> Serviceable(nodes, k, n)))
      && (k !in p.writable ==> !p.Offers(k))
      && (k in p.skipped <==> IsOptional(k) && !p.Offers(k))
      && (k in p.skipped ==> p.skipped[k] == if k in p.writable then NodeUnusable else NodeUnavailable)
  {
    InventoryControl(nodes, c, k);
    SkippedBecause(nodes, c, k);
  }

  lemma SkippedBecause(nodes: Nodes, c: Candidate, k: Control)
    ensures var p := Inventory(nodes, c);
      k in p.skipped ==> p.skipped[k] == SkipReasonOf(CapabilityOf(nodes, c, k))
  {
    assert k in ALL_CONTROLS;
  }

  // ---------------------------------------------------------------- why a control is skipped

  /** Whether the request says anything about an optional control. */
  predicate Requested(req: Request, k: Control) {
    match k
    case Boost => req.boost.Some?
    case Cpb => req.cpb.Some?
    case Epp => req.epp.Some?
    case _ => false
  }

  /** Why a control of a policy is skipped, and whether it is at all; boost says what becomes of a wanted boost. */
  function Why(p: Policy, req: Request, k: Control, boost: Option<SkipReason>): Option<SkipReason> {
    var target := EffectiveTarget(p.limits, req.target);
    if IsOptional(k) && !p.Offers(k) then Some(if k in p.writable then NodeUnusable else NodeUnavailable)
    else if !p.usable then if IsOptional(k) then Some(PolicyUnusable) else None
    else if k.Governor? then
      if target.Some? && req.governor.Some? && req.governor.value !in p.governors then Some(GovernorUnavailable) else None
    else if k.ActiveMin? then if target.None? then Some(LimitsUnavailable) else None
    else if IsOptional(k) && !Requested(req, k) then Some(NoConfiguredValue)
    else if k.Boost? then boost else None
  }

  function At(skips: map<Control, SkipReason>, k: Control): Option<SkipReason> {
    if k in skips then Some(skips[k]) else None
  }

  /** What the inventory alone skips. */
  function Lacking(p: Policy, k: Control): Option<SkipReason> {
    if IsOptional(k) && !p.Offers(k) then Some(if k in p.writable then NodeUnusable else NodeUnavailable) else None
  }

  /** A wanted boost is planned, for this policy or for another that shares the switch. */
  predicate Explains(p: Policy, req: Request, k: Control, why: Option<SkipReason>) {
    why == Why(p, req, k, None) || why == Why(p, req, k, Some(SharedAlreadyPlanned))
  }

  lemma HandleSkips(nodes: Nodes, p: Policy, req: Request, c: Control, d: Draft, k: Control)
    requires WellFormed(nodes, p) && p.usable
    ensures var after := Handle(nodes, p, req, c, d);
      && (k != c ==> At(after.skips, k) == At(d.skips, k))
      && (k == c && !c.ActiveMax? && At(d.skips, k) == Lacking(p, k) ==> Explains(p, req, k, At(after.skips, k)))
  {
    assert ControlOk(nodes, p, c);
    if IsOptional(c) && p.Offers(c) { assert Requested(req, c) <==> RequestedValue(req, c).Some?; }
  }

  lemma {:induction false} HandleAllSkips(nodes: Nodes, p: Policy, req: Request, cs: seq<Control>, d: Draft, k: Control)
    requires WellFormed(nodes, p) && p.usable && Distinct(cs) && ActiveMax !in cs
    ensures var after := HandleAll(nodes, p, req, cs, d);
      && (k !in cs ==> At(after.skips, k) == At(d.skips, k))
      && (k in cs && At(d.skips, k) == Lacking(p, k) ==> Explains(p, req, k, At(after.skips, k)))
    decreases cs
  {
    if cs != [] {
      assert Distinct(cs[1..]) && cs[0] !in cs[1..];
      assert k in cs <==> k == cs[0] || k in cs[1..];
      HandleSkips(nodes, p, req, cs[0], d, k);
      HandleAllSkips(nodes, p, req, cs[1..], Handle(nodes, p, req, cs[0], d), k);
    }
  }

  /** Why a plan skips one control of one policy. */
  function SkipOf(skipped: map<PolicyId, Skips>, id: PolicyId, k: Control): Option<SkipReason> {
    if id in skipped then At(skipped[id].controls, k) else None
  }

  /** What a plan says about one policy, and one of its controls. */
  ghost predicate Recorded(skipped: map<PolicyId, Skips>, p: Policy, req: Request, k: Control) {
    && (p.id in skipped ==> skipped[p.id].wholePolicy == !p.usable)
    && (!p.usable ==> p.id in skipped)
    && (p.id in skipped && p.usable ==> skipped[p.id].controls != map[])
    && Explains(p, req, k, SkipOf(skipped, p.id, k))
  }

  lemma UsableRecorded(nodes: Nodes, p: Policy, req: Request, acc: Progress, k: Control)
    requires WellFormed(nodes, p) && p.usable && p.id !in acc.skipped && At(p.skipped, k) == Lacking(p, k)
    ensures Recorded(PlanPolicy(nodes, p, req, acc).skipped, p, req, k)
  {
    assert Distinct(PLAN_ORDER) && (k in PLAN_ORDER <==> !k.ActiveMax?);
    HandleAllSkips(nodes, p, req, PLAN_ORDER, Draft(acc.actions, acc.boosts, p.skipped), k);
    var d := HandleAll(nodes, p, req, PLAN_ORDER, Draft(acc.actions, acc.boosts, p.skipped));
    assert Explains(p, req, k, At(d.skips, k));
  }

  lemma UnusableRecorded(nodes: Nodes, p: Policy, req: Request, acc: Progress, k: Control)
    requires WellFormed(nodes, p) && !p.usable && At(p.skipped, k) == Lacking(p, k)
    ensures Recorded(PlanPolicy(nodes, p, req, acc).skipped, p, req, k)
  {
    assert k in OPTIONAL_CONTROLS <==> IsOptional(k);
    assert At(UnusableSkips(p), k) == Why(p, req, k, None);
  }

  lemma PolicyRecorded(nodes: Nodes, p: Policy, req: Request, acc: Progress, k: Control)
    requires WellFormed(nodes, p) && p.id !in acc.skipped && At(p.skipped, k) == Lacking(p, k)
    ensures Recorded(PlanPolicy(nodes, p, req, acc).skipped, p, req, k)
  {
    if p.usable { UsableRecorded(nodes, p, req, acc, k); } else { UnusableRecorded(nodes, p, req, acc, k); }
  }

  predicate SameAt(before: map<PolicyId, Skips>, after: map<PolicyId, Skips>, id: PolicyId) {
    (id in after <==> id in before) && (id in after ==> after[id] == before[id])
  }

  lemma OthersUnrecorded(nodes: Nodes, p: Policy, req: Request, acc: Progress, id: PolicyId)
    requires WellFormed(nodes, p) && id != p.id
    ensures SameAt(acc.skipped, PlanPolicy(nodes, p, req, acc).skipped, id)
  {
  }

  lemma {:induction false} LaterUnrecorded(nodes: Nodes, ps: seq<Policy>, req: Request, acc: Progress, id: PolicyId)
    requires forall q :: q in ps ==> WellFormed(nodes, q) && q.id != id
    ensures SameAt(acc.skipped, PlanAll(nodes, ps, req, acc).skipped, id)
    decreases ps
  {
    if ps != [] {
      assert ps[0] in ps && forall q :: q in ps[1..] ==> q in ps;
      OthersUnrecorded(nodes, ps[0], req, acc, id);
      LaterUnrecorded(nodes, ps[1..], req, PlanPolicy(nodes, ps[0], req, acc), id);
    }
  }

  lemma {:induction false} AllRecorded(nodes: Nodes, ps: seq<Policy>, req: Request, acc: Progress, i: nat, k: Control)
    requires i < |ps| && (forall q :: q in ps ==> WellFormed(nodes, q)) && At(ps[i].skipped, k) == Lacking(ps[i], k)
    requires DistinctPolicyIds(ps) && ps[i].id !in acc.skipped
    ensures Recorded(PlanAll(nodes, ps, req, acc).skipped, ps[i], req, k)
    decreases ps
  {
    assert ps[0] in ps && forall q :: q in ps[1..] ==> q in ps;
    var next := PlanPolicy(nodes, ps[0], req, acc);
    if i > 0 {
      OthersUnrecorded(nodes, ps[0], req, acc, ps[i].id);
      AllRecorded(nodes, ps[1..], req, next, i - 1, k);
    } else {
      forall q | q in ps[1..] ensures q.id != ps[0].id {
        var j :| 0 <= j < |ps[1..]| && ps[1..][j] == q;
        assert ps[j + 1] == q;
      }
      PolicyRecorded(nodes, ps[0], req, acc, k);
      LaterUnrecorded(nodes, ps[1..], req, next, ps[0].id);
    }
  }

  lemma PlanRecords(nodes: Nodes, cs: seq<Candidate>, req: Request, extra: seq<Node>, c: Candidate, k: Control)
    requires Coherent(cs) && BuildPlan(nodes, cs, req, extra).Success? && c in Kept(cs, {})
    ensures Recorded(BuildPlan(nodes, cs, req, extra).value.skipped, Inventory(nodes, c), req, k)
  {
    var ps, p := DiscoverPolicies(nodes, cs), Inventory(nodes, c);
    DiscoveredFromKept(nodes, cs, p);
    DiscoveryIsUnique(nodes, cs);
    PoliciesWellFormed(nodes, cs);
    InventoryMeans(nodes, c, k, DmaDevice);
    var i :| 0 <= i < |ps| && ps[i] == p;
    AllRecorded(nodes, ps, req, Progress([], {}, map[]), i, k);
  }

  /**
   Why a plan skips what it skips. A policy that is not usable is skipped as a whole. Of a usable one an
   optional control is skipped when there is no file, no usable file, or no requested value; the floor
   when there is no target; the governor when it is not offered; and a wanted boost exactly when its
   switch is planned for another policy. Nothing else is skipped.
   */
  lemma SkipsMeanReasons(nodes: Nodes, cs: seq<Candidate>, req: Request, extra: seq<Node>, c: Candidate, k: Control)
    requires Coherent(cs) && BuildPlan(nodes, cs, req, extra).Success? && c in Kept(cs, {})
    ensures var plan := BuildPlan(nodes, cs, req, extra).value; var p := Inventory(nodes, c);
      var boost := if PlannedAs(plan.actions, Cpufreq(p.id, Boost)) then None else Some(SharedAlreadyPlanned);
      Recorded(plan.skipped, p, req, k) && SkipOf(plan.skipped, p.id, k) == Why(p, req, k, boost)
  {
    PlanRecords(nodes, cs, req, extra, c, k);
    if k.Boost? { BoostSkippedOrPlanned(nodes, cs, req, extra, c); }
  }

  lemma BoostSkippedOrPlanned(nodes: Nodes, cs: seq<Candidate>, req: Request, extra: seq<Node>, c: Candidate)
    requires Coherent(cs) && BuildPlan(nodes, cs, req, extra).Success? && c in Kept(cs, {})
    ensures var plan := BuildPlan(nodes, cs, req, extra).value; var id := Inventory(nodes, c).id;
      PlannedAs(plan.actions, Cpufreq(id, Boost)) <==> SkipOf(plan.skipped, id, Boost).None?
  {
    var p := Inventory(nodes, c);
    DiscoveredFromKept(nodes, cs, p);
    PlanIsWellFormed(nodes, cs, req, extra);
    var plan := BuildPlan(nodes, cs, req, extra).value;
    assert p in DiscoverPolicies(nodes, cs) && IsOptional(Boost);
    assert PlannedAs(plan.actions, Cpufreq(p.id, Boost)) <==> !SkippedIn(plan.skipped, p.id, Boost);
  }

  /** What is opened before a plan is applied: its own files and the extra ones, once each. */
  lemma PreflightMeans(nodes: Nodes, cs: seq<Candidate>, req: Request, extra: seq<Node>, n: Node)
    requires Coherent(cs) && BuildPlan(nodes, cs, req, extra).Success?
    ensures var plan := BuildPlan(nodes, cs, req, extra).value;
      Distinct(plan.preflight) && (n in plan.preflight <==> PlannedNode(plan.actions, n) || n in extra)
  {
    var plan := BuildPlan(nodes, cs, req, extra).value;
    UniqueNodesOnce(ActionNodes(plan.actions) + extra, {});
    NodesOfActions(plan.actions, n);
  }

  lemma NodesOfActions(actions: seq<Action>, n: Node)
    ensures n in ActionNodes(actions) <==> PlannedNode(actions, n)
  {
    if a :| a in actions && a.node == n {
      var i :| 0 <= i < |actions| && actions[i] == a;
      assert ActionNodes(actions)[i] == n;
    }
    if n in ActionNodes(actions) {
      var i :| 0 <= i < |actions| && ActionNodes(actions)[i] == n;
      assert actions[i] in actions;
    }
  }

  // ---------------------------------------------------------------- what a plan asks for

  /** A plan exists exactly when a directory that discovery keeps is usable. */
  lemma PlanExists(nodes: Nodes, cs: seq<Candidate>, req: Request, extra: seq<Node>)
    requires Coherent(cs)
    ensures BuildPlan(nodes, cs, req, extra).Success? <==> exists c :: c in Kept(cs, {}) && UsableDir(nodes, c)
  {
    PlanIsWellFormed(nodes, cs, req, extra);
    if p :| p in DiscoverPolicies(nodes, cs) && p.usable {
      DiscoveredFromKept(nodes, cs, p);
      var c :| c in Kept(cs, {}) && p == Inventory(nodes, c);
      UsableMeans(nodes, c);
    }
    if c :| c in Kept(cs, {}) && UsableDir(nodes, c) {
      UsableMeans(nodes, c);
      DiscoveredFromKept(nodes, cs, Inventory(nodes, c));
    }
  }

  /**
   A plan writes v to n exactly when the request asks for that on behalf of some kept directory: the
   offered governor where a target exists, the nearest allowed floor, 1 or 0 to the boost switch and
   to cpb, and the preference as requested, each where its file can be read.
   */
  lemma PlanMeansRequest(nodes: Nodes, cs: seq<Candidate>, req: Request, extra: seq<Node>, n: Node, v: Value)
    requires Coherent(cs) && BuildPlan(nodes, cs, req, extra).Success?
    ensures PlansValue(BuildPlan(nodes, cs, req, extra).value.actions, n, v) <==>
            exists c :: c in Kept(cs, {}) && AsksFor(nodes, req, c, n, v)
  {
    var actions := BuildPlan(nodes, cs, req, extra).value.actions;
    if PlansValue(actions, n, v) {
      var a :| a in actions && a.node == n && a.value == v;
      var p := ServedPolicy(nodes, cs, req, extra, a);
      DiscoveredFromKept(nodes, cs, p);
      var c :| c in Kept(cs, {}) && p == Inventory(nodes, c);
      WantsMeans(nodes, req, c, a.owner.control);
    }
    if c :| c in Kept(cs, {}) && AsksFor(nodes, req, c, n, v) { AskedIsPlanned(nodes, cs, req, extra, c, n, v); }
  }

  lemma AskedIsPlanned(nodes: Nodes, cs: seq<Candidate>, req: Request, extra: seq<Node>, c: Candidate, n: Node, v: Value)
    requires Coherent(cs) && BuildPlan(nodes, cs, req, extra).Success?
    requires c in Kept(cs, {}) && AsksFor(nodes, req, c, n, v)
    ensures PlansValue(BuildPlan(nodes, cs, req, extra).value.actions, n, v)
  {
    var actions, p := BuildPlan(nodes, cs, req, extra).value.actions, Inventory(nodes, c);
    var k := AsksMeans(nodes, req, c, n, v);
    DiscoveredFromKept(nodes, cs, p);
    PlanIsWellFormed(nodes, cs, req, extra);
    assert Taken(actions, p, k);
    var a :| a in actions && a.node == n;
    var q := ServedPolicy(nodes, cs, req, extra, a);
    DiscoveredFromKept(nodes, cs, q);
    var d :| d in Kept(cs, {}) && q == Inventory(nodes, d);
    SameNodeSameValue(nodes, cs, req, c, k, d, a.owner.control);
  }

  /** Two wanted controls on one node ask for one value. */
  lemma SameNodeSameValue(nodes: Nodes, cs: seq<Candidate>, req: Request, c: Candidate, k: Control, d: Candidate, l: Control)
    requires c in Kept(cs, {}) && d in Kept(cs, {})
    requires var p, q := Inventory(nodes, c), Inventory(nodes, d);
      Wants(p, req, k) && Wants(q, req, l) && k in p.writable && l in q.writable && p.writable[k] == q.writable[l]
    ensures WantedValue(Inventory(nodes, c), req, k) == WantedValue(Inventory(nodes, d), req, l)
  {
    InventoryControlOk(nodes, c, k);
    InventoryControlOk(nodes, d, l);
    KeptOnce(cs, {});
    if c.dir == d.dir { OneOfDir(Kept(cs, {}), c, d); }
  }

  lemma OneOfDir(cs: seq<Candidate>, c: Candidate, d: Candidate)
    requires DistinctCandidateDirs(cs) && c in cs && d in cs && c.dir == d.dir
    ensures c == d
  {
  }
}
