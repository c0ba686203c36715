/**
 The order a plan is applied in: policies as discovered, and for each of them governor, floor, boost,
 cpb and preference.
 */
module PlanOrder {
  import opened Common
  import opened Kernel
  import opened Policies
  import opened Planning

  /** The place of a control among those of one policy. */
  function Place(k: Control): nat {
    match k
    case Governor => 0
    case ActiveMin => 1
    case Boost => 2
    case Cpb => 3
    case Epp => 4
    case Epb => 5
    case ActiveMax => 6
  }

  /** The position of the first policy with an identifier. */
  function Position(ps: seq<Policy>, id: PolicyId): (k: nat)
    ensures k <= |ps| && (k < |ps| ==> ps[k].id == id) && forall j :: 0 <= j < k ==> ps[j].id != id
  {
    if ps == [] || ps[0].id == id then 0 else 1 + Position(ps[1..], id)
  }

  /** a belongs to an earlier policy than b, or to the same and an earlier control. */
  predicate Before(ps: seq<Policy>, a: Action, b: Action) {
    && a.owner.Cpufreq? && b.owner.Cpufreq?
    && (Position(ps, a.owner.id) < Position(ps, b.owner.id)
        || (a.owner.id == b.owner.id && Place(a.owner.control) < Place(b.owner.control)))
  }

  ghost predicate InOrder(ps: seq<Policy>, actions: seq<Action>) {
    forall i, j :: 0 <= i < j < |actions| ==> Before(ps, actions[i], actions[j])
  }

  /** Actions of one policy, for controls among some, in order. */
  ghost predicate Run(id: PolicyId, cs: seq<Control>, actions: seq<Action>) {
    && (forall a :: a in actions ==> a.owner.Cpufreq? && a.owner.id == id && a.owner.control in cs)
    && forall i, j :: 0 <= i < j < |actions| ==> Place(actions[i].owner.control) < Place(actions[j].owner.control)
  }

  ghost predicate Rising(cs: seq<Control>) { forall i, j :: 0 <= i < j < |cs| ==> Place(cs[i]) < Place(cs[j]) }

  lemma HandleAdds(nodes: Nodes, p: Policy, req: Request, c: Control, d: Draft) returns (added: seq<Action>)
    requires WellFormed(nodes, p) && p.usable
    ensures Handle(nodes, p, req, c, d).actions == d.actions + added && Run(p.id, [c], added) && |added| <= 1
  {
    assert ControlOk(nodes, p, c);
    added := Handle(nodes, p, req, c, d).actions[|d.actions|..];
  }

  lemma {:induction false} HandleAllAdds(nodes: Nodes, p: Policy, req: Request, cs: seq<Control>, d: Draft)
    returns (added: seq<Action>)
    requires WellFormed(nodes, p) && p.usable && Rising(cs)
    ensures HandleAll(nodes, p, req, cs, d).actions == d.actions + added && Run(p.id, cs, added)
    decreases cs
  {
    added := [];
    if cs != [] {
      var first := HandleAdds(nodes, p, req, cs[0], d);
      var rest := HandleAllAdds(nodes, p, req, cs[1..], Handle(nodes, p, req, cs[0], d));
      added := first + rest;
      assert d.actions + added == d.actions + first + rest;
      RunsJoin(p.id, cs, first, rest);
    }
  }

  lemma RunsJoin(id: PolicyId, cs: seq<Control>, first: seq<Action>, rest: seq<Action>)
    requires cs != [] && Rising(cs) && Run(id, [cs[0]], first) && |first| <= 1 && Run(id, cs[1..], rest)
    ensures Run(id, cs, first + rest)
  {
    var all := first + rest;
    forall i, j | 0 <= i < j < |all| ensures Place(all[i].owner.control) < Place(all[j].owner.control) {
      if i < |first| {
        assert all[i] in first && all[j] == rest[j - |first|] && all[j] in rest;
        var k :| 0 <= k < |cs[1..]| && cs[1..][k] == all[j].owner.control;
        assert cs[k + 1] == all[j].owner.control;
      }
    }
  }

  /** The actions of the first n policies, in order. */
  ghost predicate UpTo(ps: seq<Policy>, n: nat, actions: seq<Action>) {
    InOrder(ps, actions) && forall a :: a in actions ==> a.owner.Cpufreq? && Position(ps, a.owner.id) < n
  }

  lemma PolicyInOrder(nodes: Nodes, ps: seq<Policy>, n: nat, req: Request, acc: Progress)
    requires n < |ps| && DistinctPolicyIds(ps) && WellFormed(nodes, ps[n]) && UpTo(ps, n, acc.actions)
    ensures UpTo(ps, n + 1, PlanPolicy(nodes, ps[n], req, acc).actions)
  {
    var p := ps[n];
    if p.usable {
      assert Rising(PLAN_ORDER);
      var added := HandleAllAdds(nodes, p, req, PLAN_ORDER, Draft(acc.actions, acc.boosts, p.skipped));
      assert PlanPolicy(nodes, p, req, acc).actions == acc.actions + added;
      assert Position(ps, p.id) == n;
      Extended(ps, n, acc.actions, added);
    }
  }

  lemma Extended(ps: seq<Policy>, n: nat, actions: seq<Action>, added: seq<Action>)
    requires n < |ps| && Position(ps, ps[n].id) == n && UpTo(ps, n, actions) && Run(ps[n].id, PLAN_ORDER, added)
    ensures UpTo(ps, n + 1, actions + added)
  {
    var all := actions + added;
    forall i, j | 0 <= i < j < |all| ensures Before(ps, all[i], all[j]) {
      if j >= |actions| {
        assert all[j] in added;
        if i < |actions| { assert all[i] in actions; } else { assert all[i] in added; }
      }
    }
  }

  lemma {:induction false} AllInOrder(nodes: Nodes, ps: seq<Policy>, n: nat, req: Request, acc: Progress)
    requires n <= |ps| && DistinctPolicyIds(ps) && (forall p :: p in ps ==> WellFormed(nodes, p)) && UpTo(ps, n, acc.actions)
    ensures forall p :: p in ps[n..] ==> WellFormed(nodes, p)
    ensures UpTo(ps, |ps|, PlanAll(nodes, ps[n..], req, acc).actions)
    decreases |ps| - n
  {
    if n < |ps| {
      DropStep(ps, n);
      PolicyInOrder(nodes, ps, n, req, acc);
      AllInOrder(nodes, ps, n + 1, req, PlanPolicy(nodes, ps[n], req, acc));
    }
  }

  /** Policy by policy in the order of discovery, and for each governor, floor, boost, cpb, preference. */
  lemma PlanIsInOrder(nodes: Nodes, cs: seq<Candidate>, req: Request, extra: seq<Node>)
    requires Coherent(cs) && BuildPlan(nodes, cs, req, extra).Success?
    ensures InOrder(DiscoverPolicies(nodes, cs), BuildPlan(nodes, cs, req, extra).value.actions)
  {
    var ps := DiscoverPolicies(nodes, cs);
    DiscoveryIsUnique(nodes, cs);
    PoliciesWellFormed(nodes, cs);
    assert ps[0..] == ps;
    AllInOrder(nodes, ps, 0, req, Progress([], {}, map[]));
  }

  /** Discovery keeps the order of the directory entries. */
  lemma DiscoveryInOrder(nodes: Nodes, cs: seq<Candidate>, i: nat)
    requires i < |Kept(cs, {})|
    ensures |DiscoverPolicies(nodes, cs)| == |Kept(cs, {})|
    ensures DiscoverPolicies(nodes, cs)[i] == Inventory(nodes, Kept(cs, {})[i])
  {
    InventoryAllAt(nodes, Kept(cs, {}), i);
  }
}
