/**
 What an apply plan promises: each wanted control is planned, on a node of its own, with the
 value the node held; everything else optional has a reason.
 */
module PlanLaws {
  import opened Common
  import opened Kernel
  import opened Policies
  import opened Planning

  /** The controls of a policy that a request asks for and that the policy can take. */
  predicate Wants(p: Policy, req: Request, c: Control) {
    p.usable &&
    match c
    case Governor =>
      EffectiveTarget(p.limits, req.target).Some? && req.governor.Some? && req.governor.value in p.governors
    case ActiveMin => EffectiveTarget(p.limits, req.target).Some?
    case ActiveMax => false
    case _ => p.Offers(c) && RequestedValue(req, c).Some?
  }

  function WantedValue(p: Policy, req: Request, c: Control): Value
    requires Wants(p, req, c)
  {
    if c.Governor? then Text([req.governor.value])
    else if c.ActiveMin? then Number(EffectiveTarget(p.limits, req.target).value)
    else RequestedValue(req, c).value
  }

  /** a is the action that serves one wanted control of p in the tree the plan was built from. */
  predicate Serves(nodes: Nodes, req: Request, p: Policy, a: Action) {
    && a.owner.Cpufreq?
    && a.owner.id == p.id
    && Wants(p, req, a.owner.control)
    && a.owner.control in p.writable
    && a.node == p.writable[a.owner.control]
    && a.node in nodes
    && a.value == WantedValue(p, req, a.owner.control)
    && a.original == nodes[a.node]
  }

  ghost predicate PlannedAs(actions: seq<Action>, owner: Owner) {
    exists a :: a in actions && a.owner == owner
  }

  /** The node of a wanted control is written; only a boost node may be written for another policy. */
  ghost predicate Taken(actions: seq<Action>, p: Policy, c: Control) {
    && c in p.writable
    && PlannedNode(actions, p.writable[c])
    && (!c.Boost? ==> PlannedAs(actions, Cpufreq(p.id, c)))
  }

  // ---------------------------------------------------------------- one policy

  /** State of planning p after the controls in handled, behind the policies in done. */
  ghost predicate DraftInv(
    nodes: Nodes, req: Request, done: seq<Policy>, p: Policy, handled: set<Control>, d: Draft) {
    && DistinctNodes(d.actions)
    && (forall a :: a in d.actions ==> ServedBy(nodes, req, done, p, handled, a))
    && (forall q, c :: q in done && Wants(q, req, c) ==> Taken(d.actions, q, c))
    && (forall c :: c in handled && Wants(p, req, c) ==> Taken(d.actions, p, c))
    && (forall a :: a in d.actions && a.owner.control.Boost? ==> a.node in d.boosts)
    && (forall n :: n in d.boosts ==> PlannedNode(d.actions, n))
    && (forall c :: IsOptional(c) ==>
          (c in d.skips <==> if c in handled then !PlannedAs(d.actions, Cpufreq(p.id, c)) else !p.Offers(c)))
  }

  ghost predicate ServedBy(
    nodes: Nodes, req: Request, done: seq<Policy>, p: Policy, handled: set<Control>, a: Action) {
    || (Serves(nodes, req, p, a) && a.owner.control in handled)
    || (exists q :: q in done && Serves(nodes, req, q, a))
  }

  ghost predicate Apart(nodes: Nodes, done: seq<Policy>, p: Policy) {
    && WellFormed(nodes, p)
    && (forall q :: q in done ==> WellFormed(nodes, q) && q.dir != p.dir && q.id != p.id)
  }

  /** A control handled for the first time meets its node for the first time, or it is a shared boost. */
  lemma FreshNode(
    nodes: Nodes, req: Request, done: seq<Policy>, p: Policy, handled: set<Control>, d: Draft, c: Control)
    requires DraftInv(nodes, req, done, p, handled, d) && Apart(nodes, done, p)
    requires c !in handled && Wants(p, req, c) && c in p.writable
    requires c.Boost? ==> p.writable[c] !in d.boosts
    ensures !PlannedNode(d.actions, p.writable[c])
  {
    assert ControlOk(nodes, p, c);
    forall a | a in d.actions ensures a.node != p.writable[c] {
      assert ServedBy(nodes, req, done, p, handled, a);
      if Serves(nodes, req, p, a) && a.owner.control in handled {
        assert ControlOk(nodes, p, a.owner.control);
      } else {
        var q :| q in done && Serves(nodes, req, q, a);
        assert ControlOk(nodes, q, a.owner.control);
      }
    }
  }

  lemma HandleKeeps(
    nodes: Nodes, req: Request, done: seq<Policy>, p: Policy, handled: set<Control>, d: Draft, c: Control)
    requires DraftInv(nodes, req, done, p, handled, d) && Apart(nodes, done, p) && p.usable
    requires c !in handled && !c.ActiveMax?
    ensures DraftInv(nodes, req, done, p, handled + {c}, Handle(nodes, p, req, c, d))
  {
    assert ControlOk(nodes, p, c);
    var e := Handle(nodes, p, req, c, d);
    NotYetPlanned(nodes, req, done, p, handled, d, c);
    if Wants(p, req, c) && !(c.Boost? && p.writable[c] in d.boosts) {
      FreshNode(nodes, req, done, p, handled, d, c);
      var a := Action(Cpufreq(p.id, c), p.writable[c], WantedValue(p, req, c), nodes[p.writable[c]]);
      assert e.actions == d.actions + [a];
      assert Serves(nodes, req, p, a);
      ScheduleKeeps(nodes, req, done, p, handled, d, a, e);
    } else {
      assert e.actions == d.actions && e.boosts == d.boosts;
    }
  }

  lemma NotYetPlanned(
    nodes: Nodes, req: Request, done: seq<Policy>, p: Policy, handled: set<Control>, d: Draft, c: Control)
    requires DraftInv(nodes, req, done, p, handled, d) && Apart(nodes, done, p)
    requires c !in handled
    ensures !PlannedAs(d.actions, Cpufreq(p.id, c))
  {
    forall a | a in d.actions ensures a.owner != Cpufreq(p.id, c) {
      assert ServedBy(nodes, req, done, p, handled, a);
    }
  }

  lemma ScheduleKeeps(
    nodes: Nodes, req: Request, done: seq<Policy>, p: Policy, handled: set<Control>, d: Draft,
    a: Action, e: Draft)
    requires DraftInv(nodes, req, done, p, handled, d)
    requires Serves(nodes, req, p, a) && a.owner.control !in handled
    requires !PlannedNode(d.actions, a.node) && !PlannedAs(d.actions, a.owner)
    requires e == Draft(
      d.actions + [a], if a.owner.control.Boost? then d.boosts + {a.node} else d.boosts, d.skips)
    requires p.Offers(a.owner.control) || !IsOptional(a.owner.control)
    ensures DraftInv(nodes, req, done, p, handled + {a.owner.control}, e)
  {
    var c := a.owner.control;
    assert a in e.actions && forall b :: b in e.actions <==> b in d.actions || b == a;
    forall i, j | 0 <= i < j < |e.actions| ensures e.actions[i].node != e.actions[j].node {
      assert e.actions[i] in d.actions;
    }
    forall b | b in e.actions ensures ServedBy(nodes, req, done, p, handled + {c}, b) {
      if b != a { assert ServedBy(nodes, req, done, p, handled, b); }
    }
    forall q, k | q in done && Wants(q, req, k) ensures Taken(e.actions, q, k) {
      assert Taken(d.actions, q, k);
    }
    forall k | k in handled + {c} && Wants(p, req, k) ensures Taken(e.actions, p, k) {
      if k != c { assert Taken(d.actions, p, k); }
    }
    forall n | n in e.boosts ensures PlannedNode(e.actions, n) {
      if n in d.boosts { assert PlannedNode(d.actions, n); }
    }
    forall k | IsOptional(k) && k != c && k in handled
      ensures PlannedAs(e.actions, Cpufreq(p.id, k)) <==> PlannedAs(d.actions, Cpufreq(p.id, k)) {
    }
  }

  lemma {:induction false} HandleAllKeeps(
    nodes: Nodes, req: Request, done: seq<Policy>, p: Policy, handled: set<Control>,
    cs: seq<Control>, d: Draft)
    requires DraftInv(nodes, req, done, p, handled, d) && Apart(nodes, done, p) && p.usable
    requires Distinct(cs) && forall c :: c in cs ==> c !in handled && !c.ActiveMax?
    ensures DraftInv(nodes, req, done, p, handled + (set c | c in cs), HandleAll(nodes, p, req, cs, d))
    decreases cs
  {
    if cs == [] {
      assert handled + (set c | c in cs) == handled;
    } else {
      HandleKeeps(nodes, req, done, p, handled, d, cs[0]);
      HandleAllKeeps(nodes, req, done, p, handled + {cs[0]}, cs[1..], Handle(nodes, p, req, cs[0], d));
      assert handled + {cs[0]} + (set c | c in cs[1..]) == handled + (set c | c in cs);
    }
  }

  /** after only adds actions owned by id to before. */
  predicate Extends(before: seq<Action>, after: seq<Action>, id: PolicyId) {
    before <= after && forall i :: |before| <= i < |after| ==> after[i].owner.Cpufreq? && after[i].owner.id == id
  }

  lemma {:induction false} HandleAllExtends(nodes: Nodes, p: Policy, req: Request, cs: seq<Control>, d: Draft)
    requires WellFormed(nodes, p) && p.usable
    ensures Extends(d.actions, HandleAll(nodes, p, req, cs, d).actions, p.id)
    decreases cs
  {
    if cs != [] {
      HandleAllExtends(nodes, p, req, cs[1..], Handle(nodes, p, req, cs[0], d));
    }
  }

  // ---------------------------------------------------------------- all policies

  ghost predicate PlanInv(nodes: Nodes, req: Request, done: seq<Policy>, acc: Progress) {
    && DistinctNodes(acc.actions)
    && (forall a :: a in acc.actions ==> exists q :: q in done && Serves(nodes, req, q, a))
    && (forall q, c :: q in done && Wants(q, req, c) ==> Taken(acc.actions, q, c))
    && (forall a :: a in acc.actions && a.owner.control.Boost? ==> a.node in acc.boosts)
    && (forall n :: n in acc.boosts ==> PlannedNode(acc.actions, n))
    && (forall q, c :: q in done && IsOptional(c) ==> Explained(acc, q, c))
    && (forall id :: id in acc.skipped ==> exists q :: q in done && q.id == id)
  }

  /** An optional control is either planned or has a skip reason, and never both. */
  ghost predicate Explained(acc: Progress, q: Policy, c: Control) {
    PlannedAs(acc.actions, Cpufreq(q.id, c)) <==> !SkippedIn(acc.skipped, q.id, c)
  }

  predicate SkippedIn(skipped: map<PolicyId, Skips>, id: PolicyId, c: Control) {
    id in skipped && c in skipped[id].controls
  }

  lemma PlanPolicyKeeps(nodes: Nodes, req: Request, done: seq<Policy>, p: Policy, acc: Progress)
    requires PlanInv(nodes, req, done, acc) && Apart(nodes, done, p)
    ensures PlanInv(nodes, req, done + [p], PlanPolicy(nodes, p, req, acc))
  {
    if p.usable {
      PlanUsableKeeps(nodes, req, done, p, acc);
    } else {
      PlanUnusableKeeps(nodes, req, done, p, acc);
    }
  }

  lemma PlanUnusableKeeps(nodes: Nodes, req: Request, done: seq<Policy>, p: Policy, acc: Progress)
    requires PlanInv(nodes, req, done, acc) && Apart(nodes, done, p) && !p.usable
    ensures PlanInv(nodes, req, done + [p], PlanPolicy(nodes, p, req, acc))
  {
    var now := PlanPolicy(nodes, p, req, acc);
    forall a | a in now.actions ensures exists q :: q in done + [p] && Serves(nodes, req, q, a) {
      var q :| q in done && Serves(nodes, req, q, a);
      assert q in done + [p];
    }
    forall q, c | q in done + [p] && IsOptional(c) ensures Explained(now, q, c) {
      if q in done {
        assert Explained(acc, q, c);
      } else {
        assert ControlOk(nodes, p, c);
        assert c in OPTIONAL_CONTROLS;
        forall a | a in now.actions ensures a.owner != Cpufreq(p.id, c) {
          var r :| r in done && Serves(nodes, req, r, a);
        }
      }
    }
    forall id | id in now.skipped ensures exists q :: q in done + [p] && q.id == id {
      if id in acc.skipped {
        var q :| q in done && q.id == id;
        assert q in done + [p];
      } else {
        assert p in done + [p];
      }
    }
  }

  const HANDLED: set<Control> := {Governor, ActiveMin, Boost, Cpb, Epp, Epb}

  function FinalDraft(nodes: Nodes, p: Policy, req: Request, acc: Progress): Draft
    requires WellFormed(nodes, p) && p.usable
  {
    HandleAll(nodes, p, req, PLAN_ORDER, Draft(acc.actions, acc.boosts, p.skipped))
  }

  lemma UsableDraft(nodes: Nodes, req: Request, done: seq<Policy>, p: Policy, acc: Progress)
    requires PlanInv(nodes, req, done, acc) && Apart(nodes, done, p) && p.usable
    ensures DraftInv(nodes, req, done, p, HANDLED, FinalDraft(nodes, p, req, acc))
  {
    var start := Draft(acc.actions, acc.boosts, p.skipped);
    forall c | IsOptional(c) ensures c in start.skips <==> !p.Offers(c) {
      assert ControlOk(nodes, p, c);
    }
    assert DraftInv(nodes, req, done, p, {}, start);
    assert Distinct(PLAN_ORDER);
    HandleAllKeeps(nodes, req, done, p, {}, PLAN_ORDER, start);
    assert {} + (set c | c in PLAN_ORDER) == HANDLED;
  }

  lemma ExplainedAfter(
    nodes: Nodes, req: Request, done: seq<Policy>, p: Policy, acc: Progress, q: Policy, c: Control)
    requires PlanInv(nodes, req, done, acc) && Apart(nodes, done, p) && p.usable
    requires q in done + [p] && IsOptional(c)
    ensures Explained(PlanPolicy(nodes, p, req, acc), q, c)
  {
    var now := PlanPolicy(nodes, p, req, acc);
    if q in done {
      assert Explained(acc, q, c);
      HandleAllExtends(nodes, p, req, PLAN_ORDER, Draft(acc.actions, acc.boosts, p.skipped));
      assert PlannedAs(now.actions, Cpufreq(q.id, c)) <==> PlannedAs(acc.actions, Cpufreq(q.id, c));
    } else {
      UsableDraft(nodes, req, done, p, acc);
      assert c in HANDLED;
      assert p.id !in acc.skipped;
    }
  }

  lemma PlanUsableKeeps(nodes: Nodes, req: Request, done: seq<Policy>, p: Policy, acc: Progress)
    requires PlanInv(nodes, req, done, acc) && Apart(nodes, done, p) && p.usable
    ensures PlanInv(nodes, req, done + [p], PlanPolicy(nodes, p, req, acc))
  {
    var now := PlanPolicy(nodes, p, req, acc);
    UsableDraft(nodes, req, done, p, acc);
    forall a | a in now.actions ensures exists q :: q in done + [p] && Serves(nodes, req, q, a) {
      assert ServedBy(nodes, req, done, p, HANDLED, a);
      if Serves(nodes, req, p, a) { assert p in done + [p]; }
      else { var q :| q in done && Serves(nodes, req, q, a); assert q in done + [p]; }
    }
    forall q, c | q in done + [p] && Wants(q, req, c) ensures Taken(now.actions, q, c) {
      assert q in done || (q == p && c in HANDLED);
    }
    forall q, c | q in done + [p] && IsOptional(c) ensures Explained(now, q, c) {
      ExplainedAfter(nodes, req, done, p, acc, q, c);
    }
    forall id | id in now.skipped ensures exists q :: q in done + [p] && q.id == id {
      if id in acc.skipped { var q :| q in done && q.id == id; assert q in done + [p]; }
      else { assert p in done + [p]; }
    }
  }

  lemma {:induction false} PlanAllKeeps(
    nodes: Nodes, req: Request, done: seq<Policy>, ps: seq<Policy>, acc: Progress)
    requires PlanInv(nodes, req, done, acc)
    requires forall p :: p in done + ps ==> WellFormed(nodes, p)
    requires DistinctDirs(done + ps) && DistinctPolicyIds(done + ps)
    ensures PlanInv(nodes, req, done + ps, PlanAll(nodes, ps, req, acc))
    decreases ps
  {
    if ps == [] {
      assert done + ps == done;
    } else {
      var p := ps[0];
      assert (done + ps)[|done|] == p;
      assert Apart(nodes, done, p) by {
        forall q | q in done ensures WellFormed(nodes, q) && q.dir != p.dir && q.id != p.id {
          var i :| 0 <= i < |done| && done[i] == q;
          assert (done + ps)[i] == q && q in done + ps;
        }
      }
      PlanPolicyKeeps(nodes, req, done, p, acc);
      assert done + [p] + ps[1..] == done + ps;
      PlanAllKeeps(nodes, req, done + [p], ps[1..], PlanPolicy(nodes, p, req, acc));
    }
  }

  // ---------------------------------------------------------------- main results

  /**
   A plan can be built exactly when some discovered policy is usable. Its actions are on
   pairwise distinct nodes and record the value each node holds; each serves one wanted control
   of a discovered policy; every wanted control is served; and every optional control of every
   policy is either planned or has a skip reason, never both.
   */
  lemma PlanIsWellFormed(nodes: Nodes, cs: seq<Candidate>, req: Request, extra: seq<Node>)
    requires Coherent(cs)
    ensures var ps := DiscoverPolicies(nodes, cs); var r := BuildPlan(nodes, cs, req, extra);
      && (r.Success? <==> exists p :: p in ps && p.usable)
      && (r.Success? ==>
            && DistinctNodes(r.value.actions)
            && (forall a :: a in r.value.actions ==>
                  && a.node in nodes && a.original == nodes[a.node]
                  && exists p :: p in ps && Serves(nodes, req, p, a))
            && (forall p, c :: p in ps && Wants(p, req, c) ==> Taken(r.value.actions, p, c))
            && (forall p, c :: p in ps && IsOptional(c) ==>
                  (PlannedAs(r.value.actions, Cpufreq(p.id, c)) <==> !SkippedIn(r.value.skipped, p.id, c))))
  {
    var ps := DiscoverPolicies(nodes, cs);
    DiscoveryIsUnique(nodes, cs);
    PoliciesWellFormed(nodes, cs);
    if AnyUsable(ps) {
      assert [] + ps == ps;
      PlanAllKeeps(nodes, req, [], ps, Progress([], {}, map[]));
      var done := PlanAll(nodes, ps, req, Progress([], {}, map[]));
      forall p, c | p in ps && IsOptional(c)
        ensures PlannedAs(done.actions, Cpufreq(p.id, c)) <==> !SkippedIn(done.skipped, p.id, c)
      {
        assert Explained(done, p, c);
      }
    }
  }

  /** An action owned by a policy serves that policy. */
  lemma OwnerIsServed(nodes: Nodes, cs: seq<Candidate>, req: Request, extra: seq<Node>, p: Policy, a: Action)
    requires Coherent(cs) && BuildPlan(nodes, cs, req, extra).Success?
    requires p in DiscoverPolicies(nodes, cs) && a in BuildPlan(nodes, cs, req, extra).value.actions
    requires a.owner.Cpufreq? && a.owner.id == p.id
    ensures Serves(nodes, req, p, a)
  {
    var q := ServedPolicy(nodes, cs, req, extra, a);
    assert DistinctPolicyIds(DiscoverPolicies(nodes, cs)) by { DiscoveryIsUnique(nodes, cs); }
    SameIdSamePolicy(DiscoverPolicies(nodes, cs), p, q);
  }

  lemma ServedPolicy(nodes: Nodes, cs: seq<Candidate>, req: Request, extra: seq<Node>, a: Action)
    returns (q: Policy)
    requires Coherent(cs) && BuildPlan(nodes, cs, req, extra).Success?
    requires a in BuildPlan(nodes, cs, req, extra).value.actions
    ensures q in DiscoverPolicies(nodes, cs) && Serves(nodes, req, q, a)
  {
    PlanIsWellFormed(nodes, cs, req, extra);
    q :| q in DiscoverPolicies(nodes, cs) && Serves(nodes, req, q, a);
  }

  /** The action at i is the only one with its owner. */
  predicate OnlyOwnerAt(actions: seq<Action>, owner: Owner, i: nat) {
    i < |actions| && actions[i].owner == owner
    && forall j :: 0 <= j < |actions| && actions[j].owner == owner ==> j == i
  }

  /**
   Each usable policy with compatible bounds gets exactly one floor action, with the resolved
   target (which TargetInsideLimits places inside both intervals); no other policy gets one.
   */
  lemma ExactlyOneFloor(nodes: Nodes, cs: seq<Candidate>, req: Request, extra: seq<Node>, p: Policy)
    returns (i: nat)
    requires Coherent(cs) && BuildPlan(nodes, cs, req, extra).Success?
    requires p in DiscoverPolicies(nodes, cs)
    ensures var actions := BuildPlan(nodes, cs, req, extra).value.actions;
      var target := EffectiveTarget(p.limits, req.target);
      if p.usable && target.Some? then
        OnlyOwnerAt(actions, Cpufreq(p.id, ActiveMin), i) && actions[i].value == Number(target.value)
      else !PlannedAs(actions, Cpufreq(p.id, ActiveMin))
  {
    i := 0;
    var actions := BuildPlan(nodes, cs, req, extra).value.actions;
    if p.usable && EffectiveTarget(p.limits, req.target).Some? {
      i := FloorIndex(nodes, cs, req, extra, p);
      OwnerIsServed(nodes, cs, req, extra, p, actions[i]);
    } else {
      forall a | a in actions ensures a.owner != Cpufreq(p.id, ActiveMin) {
        if a.owner == Cpufreq(p.id, ActiveMin) { OwnerIsServed(nodes, cs, req, extra, p, a); }
      }
    }
  }

  lemma FloorIndex(nodes: Nodes, cs: seq<Candidate>, req: Request, extra: seq<Node>, p: Policy)
    returns (i: nat)
    requires Coherent(cs) && BuildPlan(nodes, cs, req, extra).Success?
    requires p in DiscoverPolicies(nodes, cs) && Wants(p, req, ActiveMin)
    ensures OnlyOwnerAt(BuildPlan(nodes, cs, req, extra).value.actions, Cpufreq(p.id, ActiveMin), i)
  {
    PlanIsWellFormed(nodes, cs, req, extra);
    var actions := BuildPlan(nodes, cs, req, extra).value.actions;
    assert Taken(actions, p, ActiveMin);
    var a :| a in actions && a.owner == Cpufreq(p.id, ActiveMin);
    i :| 0 <= i < |actions| && actions[i] == a;
    forall j | 0 <= j < |actions| && actions[j].owner == a.owner ensures j == i {
      OwnerIsServed(nodes, cs, req, extra, p, actions[j]);
      OwnerIsServed(nodes, cs, req, extra, p, actions[i]);
    }
  }

  lemma SameIdSamePolicy(ps: seq<Policy>, p: Policy, q: Policy)
    requires DistinctPolicyIds(ps) && p in ps && q in ps && p.id == q.id
    ensures p == q
  {
  }

  /** A boost switch wanted by any policy, shared or not, is written by exactly one action. */
  lemma BoostPlannedOnce(nodes: Nodes, cs: seq<Candidate>, req: Request, extra: seq<Node>, p: Policy)
    requires Coherent(cs) && BuildPlan(nodes, cs, req, extra).Success?
    requires p in DiscoverPolicies(nodes, cs) && Wants(p, req, Boost)
    ensures var actions := BuildPlan(nodes, cs, req, extra).value.actions;
      Boost in p.writable
      && exists i :: 0 <= i < |actions| && actions[i].node == p.writable[Boost]
                     && forall j :: 0 <= j < |actions| && actions[j].node == p.writable[Boost] ==> j == i
  {
    PlanIsWellFormed(nodes, cs, req, extra);
    var actions := BuildPlan(nodes, cs, req, extra).value.actions;
    assert Taken(actions, p, Boost);
    var a :| a in actions && a.node == p.writable[Boost];
    var i :| 0 <= i < |actions| && actions[i] == a;
  }

  /** Which nodes a plan writes: exactly the nodes of wanted controls. */
  lemma PlanWritesWantedNodes(nodes: Nodes, cs: seq<Candidate>, req: Request, extra: seq<Node>, n: Node)
    requires Coherent(cs) && BuildPlan(nodes, cs, req, extra).Success?
    ensures PlannedNode(BuildPlan(nodes, cs, req, extra).value.actions, n)
            <==> exists p, c :: p in DiscoverPolicies(nodes, cs) && Wants(p, req, c)
                                && c in p.writable && p.writable[c] == n
  {
    PlanIsWellFormed(nodes, cs, req, extra);
    var actions := BuildPlan(nodes, cs, req, extra).value.actions;
    if PlannedNode(actions, n) {
      var a :| a in actions && a.node == n;
      var p :| p in DiscoverPolicies(nodes, cs) && Serves(nodes, req, p, a);
      assert Wants(p, req, a.owner.control);
    }
    if p, c :| p in DiscoverPolicies(nodes, cs) && Wants(p, req, c) && c in p.writable && p.writable[c] == n {
      assert Taken(actions, p, c);
    }
  }
}
