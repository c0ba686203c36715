/**
 The discovering and planning loops of the sysfs controller (boostlock/sysfs.py), proved
 against the planning functions.
 */
module SysfsControllers {
  import opened Common
  import opened Kernel
  import opened Policies
  import opened Planning

  lemma InventoryOneMore(nodes: Nodes, cs: seq<Candidate>, c: Candidate)
    ensures InventoryAll(nodes, cs + [c]) == InventoryAll(nodes, cs) + [Inventory(nodes, c)]
  {
    assert (cs + [c])[..|cs|] == cs;
  }

  class SysfsController {
    const machine: Machine

    constructor (machine: Machine)
      ensures this.machine == machine
    {
      this.machine := machine;
    }

    method DiscoverCpufreqPolicies(candidates: seq<Candidate>) returns (policies: seq<Policy>)
      ensures policies == DiscoverPolicies(machine.nodes, candidates)
    {
      policies := [];
      var seenPaths: set<Dir> := {};
      ghost var kept: seq<Candidate> := [];
      for i := 0 to |candidates|
        invariant Kept(candidates, {}) == kept + Kept(candidates[i..], seenPaths)
        invariant policies == InventoryAll(machine.nodes, kept)
      {
        DropStep(candidates, i);
        if candidates[i].dir !in seenPaths {
          seenPaths := seenPaths + {candidates[i].dir};
          policies := policies + [Inventory(machine.nodes, candidates[i])];
          InventoryOneMore(machine.nodes, kept, candidates[i]);
          HeadMoves(kept, candidates[i], Kept(candidates[i + 1..], seenPaths));
          kept := kept + [candidates[i]];
        }
      }
      assert kept == Kept(candidates, {});
    }

    static method UniquePaths(paths: seq<Node>) returns (unique: seq<Node>)
      ensures unique == UniqueNodes(paths, {})
      ensures Distinct(unique) && forall n :: n in unique <==> n in paths
    {
      unique := [];
      var seen: set<Node> := {};
      for i := 0 to |paths|
        invariant UniqueNodes(paths, {}) == unique + UniqueNodes(paths[i..], seen)
      {
        DropStep(paths, i);
        if paths[i] !in seen {
          seen := seen + {paths[i]};
          HeadMoves(unique, paths[i], UniqueNodes(paths[i + 1..], seen));
          unique := unique + [paths[i]];
        }
      }
      UniqueNodesOnce(paths, {});
    }

    /** Snapshot a writable node before its mutation is scheduled. */
    method PlannedPolicyAction(policy: Policy, control: Control, value: Value)
      returns (r: Result<Action, PlanError>)
      ensures control !in policy.writable ==> r == Failure(NotWritable(policy.id, control))
      ensures control in policy.writable && Read(machine.nodes, policy.writable[control]).None? ==>
                r == Failure(CannotSnapshot(policy.writable[control]))
      ensures control in policy.writable && Read(machine.nodes, policy.writable[control]).Some? ==>
                r == Success(Action(Cpufreq(policy.id, control), policy.writable[control], value,
                                    machine.nodes[policy.writable[control]]))
    {
      if control !in policy.writable {
        return Failure(NotWritable(policy.id, control));
      }
      var original := Read(machine.nodes, policy.writable[control]);
      if original.None? {
        return Failure(CannotSnapshot(policy.writable[control]));
      }
      return Success(Action(Cpufreq(policy.id, control), policy.writable[control], value, original.value));
    }

    /** Plan one usable policy; inventory guarantees that no planned action can fail. */
    method PlanUsablePolicy(policy: Policy, req: Request, draft: Draft) returns (d: Draft)
      requires WellFormed(machine.nodes, policy) && policy.usable
      ensures d == HandleAll(machine.nodes, policy, req, PLAN_ORDER, draft)
    {
      d := draft;
      var target := EffectiveTarget(policy.limits, req.target);
      ghost var nodes := machine.nodes;
      assert ControlOk(nodes, policy, Governor) && ControlOk(nodes, policy, ActiveMin);
      if target.None? {
        d := d.(skips := d.skips[ActiveMin := LimitsUnavailable]);
      } else {
        if req.governor.Some? {
          if req.governor.value in policy.governors {
            var r := PlannedPolicyAction(policy, Governor, Text([req.governor.value]));
            d := d.(actions := d.actions + [r.value]);
          } else {
            d := d.(skips := d.skips[Governor := GovernorUnavailable]);
          }
        }
        var r := PlannedPolicyAction(policy, ActiveMin, Number(target.value));
        d := d.(actions := d.actions + [r.value]);
      }
      assert PLAN_ORDER[1..][1..] == OPTIONAL_CONTROLS;
      assert d == Handle(nodes, policy, req, ActiveMin, Handle(nodes, policy, req, Governor, draft));
      for i := 0 to |OPTIONAL_CONTROLS|
        invariant HandleAll(nodes, policy, req, PLAN_ORDER, draft)
                  == HandleAll(nodes, policy, req, OPTIONAL_CONTROLS[i..], d)
      {
        DropStep(OPTIONAL_CONTROLS, i);
        var control := OPTIONAL_CONTROLS[i];
        assert ControlOk(nodes, policy, control);
        ghost var before := d;
        if policy.Offers(control) {
          var value := RequestedValue(req, control);
          if value.None? {
            d := d.(skips := d.skips[control := NoConfiguredValue]);
          } else if control.Boost? && policy.writable[control] in d.boosts {
            d := d.(skips := d.skips[control := SharedAlreadyPlanned]);
          } else {
            var r := PlannedPolicyAction(policy, control, value.value);
            d := d.(actions := d.actions + [r.value]);
            if control.Boost? {
              d := d.(boosts := d.boosts + {policy.writable[control]});
            }
          }
        }
        assert d == Handle(nodes, policy, req, control, before);
      }
    }

    method BuildPolicyApplyPlan(candidates: seq<Candidate>, req: Request, extra: seq<Node>)
      returns (r: Result<Plan, PlanError>)
      ensures r == BuildPlan(machine.nodes, candidates, req, extra)
    {
      var policies := DiscoverCpufreqPolicies(candidates);
      if !AnyUsable(policies) {
        return Failure(NoUsablePolicy);
      }
      PoliciesWellFormed(machine.nodes, candidates);
      ghost var nodes := machine.nodes;
      var acc := Progress([], {}, map[]);
      for i := 0 to |policies|
        invariant PlanAll(nodes, policies, req, Progress([], {}, map[]))
                  == PlanAll(nodes, policies[i..], req, acc)
      {
        DropStep(policies, i);
        var policy := policies[i];
        if !policy.usable {
          acc := acc.(skipped := acc.skipped[policy.id := Skips(UnusableSkips(policy), true)]);
        } else {
          var d := PlanUsablePolicy(policy, req, Draft(acc.actions, acc.boosts, policy.skipped));
          acc := Progress(d.actions, d.boosts,
            if d.skips == map[] then acc.skipped else acc.skipped[policy.id := Skips(d.skips, false)]);
        }
      }
      var preflight := UniquePaths(ActionNodes(acc.actions) + extra);
      return Success(Plan(acc.actions, acc.skipped, preflight));
    }
  }
}
