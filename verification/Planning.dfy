/**
 Target clamping and the reversible apply plan (boostlock/sysfs.py).
 */
module Planning {
  import opened Common
  import opened Kernel
  import opened Policies

  // ---------------------------------------------------------------- targets

  predicate IsPositive(limit: Option<int>) { limit.Some? && limit.value > 0 }

  function MaxPositive(a: Option<int>, b: Option<int>): Option<int> {
    if IsPositive(a) && IsPositive(b) then Some(if a.value >= b.value then a.value else b.value)
    else if IsPositive(a) then a
    else if IsPositive(b) then b
    else None
  }

  function MinPositive(a: Option<int>, b: Option<int>): Option<int> {
    if IsPositive(a) && IsPositive(b) then Some(if a.value <= b.value then a.value else b.value)
    else if IsPositive(a) then a
    else if IsPositive(b) then b
    else None
  }

  function Clamp(x: int, lower: int, upper: int): int {
    var raised := if x < lower then lower else x;
    if raised > upper then upper else raised
  }

  /** One request inside the interval the policy currently allows; None asks for the maximum. */
  function EffectiveTarget(l: Limits, target: Option<int>): Option<int> {
    var lower := MaxPositive(l.hardwareMin, l.activeMin);
    var upper := MinPositive(l.hardwareMax, l.activeMax);
    if lower.None? || upper.None? || lower.value > upper.value then None
    else Some(Clamp(if target.Some? then target.value else upper.value, lower.value, upper.value))
  }

  /** The larger of two requests, where None is the largest request of all. */
  function LargerRequest(a: Option<int>, b: Option<int>): Option<int> {
    if a.None? || b.None? then None else if a.value >= b.value then a else b
  }

  /** A resolved target lies inside both the hardware interval and the active interval. */
  lemma TargetInsideLimits(l: Limits, target: Option<int>)
    requires EffectiveTarget(l, target).Some?
    ensures var t := EffectiveTarget(l, target).value;
      && t > 0
      && (l.hardwareMin.Some? ==> l.hardwareMin.value <= t)
      && (l.activeMin.Some? ==> l.activeMin.value <= t)
      && (l.hardwareMax.Some? && l.hardwareMax.value > 0 ==> t <= l.hardwareMax.value)
      && (l.activeMax.Some? && l.activeMax.value > 0 ==> t <= l.activeMax.value)
  {
  }

  /** A frequency every known limit of a policy allows. */
  predicate Allowed(l: Limits, khz: int) {
    && (IsPositive(l.hardwareMin) ==> l.hardwareMin.value <= khz)
    && (IsPositive(l.activeMin) ==> l.activeMin.value <= khz)
    && (IsPositive(l.hardwareMax) ==> khz <= l.hardwareMax.value)
    && (IsPositive(l.activeMax) ==> khz <= l.activeMax.value)
  }

  /** The distance between two frequencies. */
  function Apart(a: int, b: int): int { if a < b then b - a else a - b }

  /**
   A target exists exactly when some lower and some upper limit are known and a frequency satisfies
   them all. It is then the allowed frequency nearest to the request, and the largest one when
   nothing is requested.
   */
  lemma TargetIsNearest(l: Limits, target: Option<int>, khz: int)
    ensures EffectiveTarget(l, target).Some? <==>
              && (IsPositive(l.hardwareMin) || IsPositive(l.activeMin))
              && (IsPositive(l.hardwareMax) || IsPositive(l.activeMax))
              && exists x :: Allowed(l, x)
    ensures EffectiveTarget(l, target).Some? ==> Allowed(l, EffectiveTarget(l, target).value)
    ensures EffectiveTarget(l, target).Some? && Allowed(l, khz) ==>
              var t := EffectiveTarget(l, target).value;
              if target.Some? then Apart(t, target.value) <= Apart(khz, target.value) else khz <= t
  {
    var lower := MaxPositive(l.hardwareMin, l.activeMin);
    if EffectiveTarget(l, target).Some? {
      assert Allowed(l, EffectiveTarget(l, target).value);
    }
    if x :| Allowed(l, x) {
      assert lower.Some? ==> lower.value <= x;
    }
  }

  /**
   Raising the floor to one target and resolving a second request gives the floor the larger
   of the two requests would have given: replanning composes, is idempotent and never lowers.
   */
  lemma TargetsCompose(l: Limits, first: Option<int>, second: Option<int>)
    requires EffectiveTarget(l, first).Some?
    ensures var raised := l.(activeMin := EffectiveTarget(l, first));
      && EffectiveTarget(raised, second) == EffectiveTarget(l, LargerRequest(first, second))
      && EffectiveTarget(raised, second).Some?
      && EffectiveTarget(raised, second).value >= EffectiveTarget(l, first).value
      && EffectiveTarget(raised, first) == EffectiveTarget(l, first)
  {
  }

  // ---------------------------------------------------------------- actions and plans

  datatype Owner = Cpufreq(id: PolicyId, control: Control) | QosDevice | QosIdle

  datatype Action = Action(owner: Owner, node: Node, value: Value, original: Value)

  datatype Skips = Skips(controls: map<Control, SkipReason>, wholePolicy: bool)

  datatype Plan = Plan(actions: seq<Action>, skipped: map<PolicyId, Skips>, preflight: seq<Node>)

  datatype PlanError = NoUsablePolicy | NotWritable(id: PolicyId, control: Control) | CannotSnapshot(node: Node)

  datatype Request = Request(
    target: Option<int>, governor: Option<Token>,
    boost: Option<bool>, cpb: Option<bool>, epp: Option<seq<Token>>)

  function Switch(on: Option<bool>): Option<Value> {
    match on
    case None => None
    case Some(b) => Some(Number(if b then 1 else 0))
  }

  /** The value requested for an optional control; nothing ever requests the energy bias. */
  function RequestedValue(req: Request, c: Control): Option<Value> {
    match c
    case Boost => Switch(req.boost)
    case Cpb => Switch(req.cpb)
    case Epp => if req.epp.Some? then Some(Text(req.epp.value)) else None
    case _ => None
  }

  function ActionNodes(actions: seq<Action>): seq<Node> {
    seq(|actions|, i requires 0 <= i < |actions| => actions[i].node)
  }

  ghost predicate DistinctNodes(actions: seq<Action>) {
    forall i, j :: 0 <= i < j < |actions| ==> actions[i].node != actions[j].node
  }

  ghost predicate PlannedNode(actions: seq<Action>, node: Node) {
    exists a :: a in actions && a.node == node
  }

  /** Paths once each, in order of first occurrence. */
  function UniqueNodes(nodes: seq<Node>, seen: set<Node>): seq<Node>
    decreases nodes
  {
    if nodes == [] then []
    else if nodes[0] in seen then UniqueNodes(nodes[1..], seen)
    else [nodes[0]] + UniqueNodes(nodes[1..], seen + {nodes[0]})
  }

  lemma {:induction false} UniqueNodesOnce(nodes: seq<Node>, seen: set<Node>)
    ensures Distinct(UniqueNodes(nodes, seen))
    ensures forall n :: n in UniqueNodes(nodes, seen) <==> n in nodes && n !in seen
    decreases nodes
  {
    if nodes == [] {
    } else {
      assert forall n :: n in nodes <==> n == nodes[0] || n in nodes[1..];
      UniqueNodesOnce(nodes[1..], if nodes[0] in seen then seen else seen + {nodes[0]});
    }
  }

  // ---------------------------------------------------------------- planning one policy

  /** Which resolved nodes a control of a policy can be. */
  predicate Shape(dir: Dir, c: Control, node: Node) {
    match c
    case Governor => node == PolicyFile(dir, ScalingGovernor)
    case ActiveMin => node == PolicyFile(dir, ScalingMinFreq)
    case ActiveMax => node == PolicyFile(dir, ScalingMaxFreq)
    case Cpb => node == PolicyFile(dir, LocalCpb)
    case Epp => node == PolicyFile(dir, LocalEpp)
    case Boost => node == PolicyFile(dir, LocalBoost) || node == SharedBoost
    case Epb => node == PolicyFile(dir, LocalEpb) || node.PowerEpb?
  }

  /** What inventory guarantees about one control. */
  predicate ControlOk(nodes: Nodes, p: Policy, c: Control) {
    && (p.Offers(c) ==> c in p.writable && p.writable[c] in nodes && nodes[p.writable[c]].Text?)
    && (c in p.skipped <==> IsOptional(c) && !p.Offers(c))
    && (c in p.writable ==> Shape(p.dir, c, p.writable[c]))
    && (p.usable && (c.Governor? || c.ActiveMin? || c.ActiveMax?) ==> p.Offers(c))
  }

  /** What inventory guarantees to the planner. */
  ghost predicate WellFormed(nodes: Nodes, p: Policy) {
    forall c: Control :: ControlOk(nodes, p, c)
  }

  lemma InventoryControlOk(nodes: Nodes, c: Candidate, control: Control)
    ensures ControlOk(nodes, Inventory(nodes, c), control)
  {
    InventoryControl(nodes, c, control);
    assert Inventory(nodes, c).dir == c.dir;
  }

  /** Every usable control found by inventory has a path that can be read before it is written. */
  lemma InventoryWellFormed(nodes: Nodes, c: Candidate)
    ensures WellFormed(nodes, Inventory(nodes, c))
  {
    forall control: Control ensures ControlOk(nodes, Inventory(nodes, c), control) {
      InventoryControlOk(nodes, c, control);
    }
  }

  datatype Draft = Draft(actions: seq<Action>, boosts: set<Node>, skips: map<Control, SkipReason>)

  function Schedule(nodes: Nodes, p: Policy, c: Control, v: Value, d: Draft): Draft
    requires c in p.writable && p.writable[c] in nodes
  {
    d.(actions := d.actions + [Action(Cpufreq(p.id, c), p.writable[c], v, nodes[p.writable[c]])])
  }

  /** Plan, skip or ignore one control of a usable policy. */
  function Handle(nodes: Nodes, p: Policy, req: Request, c: Control, d: Draft): Draft
    requires WellFormed(nodes, p) && p.usable
  {
    var target := EffectiveTarget(p.limits, req.target);
    assert ControlOk(nodes, p, c);
    if c.ActiveMax? then d
    else if c.Governor? then
      if target.None? || req.governor.None? then d
      else if req.governor.value in p.governors then
        Schedule(nodes, p, c, Text([req.governor.value]), d)
      else d.(skips := d.skips[c := GovernorUnavailable])
    else if c.ActiveMin? then
      if target.None? then d.(skips := d.skips[c := LimitsUnavailable])
      else Schedule(nodes, p, c, Number(target.value), d)
    else if !p.Offers(c) then d
    else if RequestedValue(req, c).None? then d.(skips := d.skips[c := NoConfiguredValue])
    else if c.Boost? && p.writable[c] in d.boosts then d.(skips := d.skips[c := SharedAlreadyPlanned])
    else
      var scheduled := Schedule(nodes, p, c, RequestedValue(req, c).value, d);
      if c.Boost? then scheduled.(boosts := d.boosts + {p.writable[c]}) else scheduled
  }

  function HandleAll(nodes: Nodes, p: Policy, req: Request, cs: seq<Control>, d: Draft): Draft
    requires WellFormed(nodes, p) && p.usable
    decreases cs
  {
    if cs == [] then d else HandleAll(nodes, p, req, cs[1..], Handle(nodes, p, req, cs[0], d))
  }

  const PLAN_ORDER: seq<Control> := [Governor, ActiveMin] + OPTIONAL_CONTROLS

  datatype Progress = Progress(actions: seq<Action>, boosts: set<Node>, skipped: map<PolicyId, Skips>)

  function UnusableSkips(p: Policy): map<Control, SkipReason> {
    p.skipped + map c | c in OPTIONAL_CONTROLS && p.Offers(c) :: PolicyUnusable
  }

  function PlanPolicy(nodes: Nodes, p: Policy, req: Request, acc: Progress): Progress
    requires WellFormed(nodes, p)
  {
    if !p.usable then
      acc.(skipped := acc.skipped[p.id := Skips(UnusableSkips(p), true)])
    else
      var d := HandleAll(nodes, p, req, PLAN_ORDER, Draft(acc.actions, acc.boosts, p.skipped));
      Progress(d.actions, d.boosts,
               if d.skips == map[] then acc.skipped else acc.skipped[p.id := Skips(d.skips, false)])
  }

  function PlanAll(nodes: Nodes, ps: seq<Policy>, req: Request, acc: Progress): Progress
    requires forall p :: p in ps ==> WellFormed(nodes, p)
    decreases ps
  {
    if ps == [] then acc else PlanAll(nodes, ps[1..], req, PlanPolicy(nodes, ps[0], req, acc))
  }

  predicate AnyUsable(ps: seq<Policy>) { exists p :: p in ps && p.usable }

  lemma PoliciesWellFormed(nodes: Nodes, cs: seq<Candidate>)
    ensures forall p :: p in DiscoverPolicies(nodes, cs) ==> WellFormed(nodes, p)
  {
    DiscoveryIsUnique(nodes, cs);
    forall p | p in DiscoverPolicies(nodes, cs) ensures WellFormed(nodes, p) {
      var c :| c in cs && p == Inventory(nodes, c);
      InventoryWellFormed(nodes, c);
    }
  }

  /** The plan for everything discovered in the current tree, or the error of a tree with no usable policy. */
  function BuildPlan(nodes: Nodes, cs: seq<Candidate>, req: Request, extra: seq<Node>): Result<Plan, PlanError> {
    var ps := DiscoverPolicies(nodes, cs);
    if !AnyUsable(ps) then Failure(NoUsablePolicy)
    else
      PoliciesWellFormed(nodes, cs);
      var done := PlanAll(nodes, ps, req, Progress([], {}, map[]));
      Success(Plan(done.actions, done.skipped, UniqueNodes(ActionNodes(done.actions) + extra, {})))
  }
}
