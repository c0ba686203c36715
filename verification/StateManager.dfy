/**
 The snapshot manager: it captures planned originals and restores them through rediscovered
 policies, collecting errors (boostlock/state.py).
 */
module StateManagers {
  import opened Common
  import opened Kernel
  import opened Policies
  import opened Planning
  import opened Snapshots
  import opened SysfsControllers

  class StateSnapshotManager {
    const machine: Machine
    const sysfs: SysfsController
    var snapshot: Option<Snapshot>

    constructor (machine: Machine, sysfs: SysfsController)
      requires sysfs.machine == machine
      ensures this.machine == machine && this.sysfs == sysfs && snapshot == None
    {
      this.machine := machine;
      this.sysfs := sysfs;
      snapshot := None;
    }

    predicate Valid() { sysfs.machine == machine }

    /** Capture the originals of the actions of policies that are still discovered. */
    method CreatePolicySnapshot(candidates: seq<Candidate>, actions: seq<Action>)
      requires Valid()
      modifies this
      ensures snapshot == Some(CreateSnapshot(machine.nodes, candidates, actions))
    {
      var discovered := sysfs.DiscoverCpufreqPolicies(candidates);
      var members := Members(discovered);
      var snap: Snapshot := [];
      for i := 0 to |actions|
        invariant CaptureAll(members, [], actions) == CaptureAll(members, snap, actions[i..])
      {
        DropStep(actions, i);
        snap := CaptureAction(members, snap, actions[i]);
      }
      snapshot := Some(snap);
    }

    method WriteLivePolicyPath(path: Option<Node>, value: Value) returns (ok: bool)
      modifies machine
      ensures WriteLive(machine.oracle, old(machine.View()), path, value) == Outcome(machine.View(), ok)
    {
      if path.None? || path.value !in machine.nodes {
        return false;
      }
      ok := machine.Attempt(Undo, Write(path.value, value));
    }

    /** Write both bounds in an order the current maximum accepts; false stands for a raised error. */
    method RestorePolicyBounds(policy: Policy, saved: PolicySnapshot) returns (ok: bool)
      modifies machine
      ensures RestoreBounds(machine.oracle, old(machine.View()), policy, saved) == Outcome(machine.View(), ok)
    {
      var minPath := PathOf(policy, ActiveMin);
      var maxPath := PathOf(policy, ActiveMax);
      var snapMin := SavedInt(saved, ActiveMin);
      var snapMax := SavedInt(saved, ActiveMax);
      if snapMin.None? && snapMax.None? {
        return true;
      }
      if snapMin.Some? && snapMax.Some? && snapMin.value > snapMax.value {
        return false;
      }
      if snapMin.None? {
        ok := WriteLivePolicyPath(maxPath, Number(snapMax.value));
        return;
      }
      if snapMax.None? {
        ok := WriteLivePolicyPath(minPath, Number(snapMin.value));
        return;
      }
      if policy.limits.activeMin.None? || policy.limits.activeMax.None? {
        return false;
      }
      if snapMin.value > policy.limits.activeMax.value {
        ok := WriteLivePolicyPath(maxPath, Number(snapMax.value));
        if ok {
          ok := WriteLivePolicyPath(minPath, Number(snapMin.value));
        }
      } else {
        ok := WriteLivePolicyPath(minPath, Number(snapMin.value));
        if ok {
          ok := WriteLivePolicyPath(maxPath, Number(snapMax.value));
        }
      }
    }

    method RestorePolicyValue(
        policy: Policy, saved: PolicySnapshot, control: Control,
        restored: set<Node>, errors: seq<RestoreError>)
      returns (ok: bool, errors': seq<RestoreError>)
      modifies machine
      ensures RestoreValue(machine.oracle, Restoring(old(machine.View()), restored, errors), policy, saved, control)
              == Wrote(Restoring(machine.View(), restored, errors'), ok)
    {
      errors' := errors;
      if control !in saved.saved {
        return false, errors;
      }
      ok := WriteLivePolicyPath(PathOf(policy, control), saved.saved[control]);
      if !ok {
        errors' := errors + [ControlFailed(policy.id, control)];
      }
    }

    method RestoreOnePolicy(
        policy: Policy, saved: PolicySnapshot, restored: set<Node>, errors: seq<RestoreError>)
      returns (restored': set<Node>, errors': seq<RestoreError>)
      modifies machine
      ensures RestoreOne(machine.oracle, Restoring(old(machine.View()), restored, errors), policy, saved)
              == Restoring(machine.View(), restored', errors')
    {
      restored', errors' := restored, errors;
      ghost var begin := Restoring(machine.View(), restored, errors);
      var ok := RestorePolicyBounds(policy, saved);
      if !ok {
        errors' := errors' + [BoundsFailed(policy.id)];
      }
      ok, errors' := RestorePolicyValue(policy, saved, Governor, restored', errors');
      for i := 0 to |OPTIONAL_CONTROLS|
        invariant RestoreOne(machine.oracle, begin, policy, saved)
                  == RestoreOptionals(machine.oracle, Restoring(machine.View(), restored', errors'),
                                      policy, saved, OPTIONAL_CONTROLS[i..])
      {
        DropStep(OPTIONAL_CONTROLS, i);
        var control := OPTIONAL_CONTROLS[i];
        var path := PathOf(policy, control);
        if !(path.Some? && path.value in restored') {
          ok, errors' := RestorePolicyValue(policy, saved, control, restored', errors');
          if ok && path.Some? {
            restored' := restored' + {path.value};
          }
        }
      }
    }

    /** Restore every saved policy independently; no candidates stand for a failed discovery. */
    method RestorePolicySnapshot(candidates: Option<seq<Candidate>>, saved: Snapshot)
      returns (errors: seq<RestoreError>)
      requires Valid()
      modifies machine, this
      ensures RestoreSnapshot(machine.oracle, old(machine.View()), candidates, saved).sys == machine.View()
      ensures RestoreSnapshot(machine.oracle, old(machine.View()), candidates, saved).errors == errors
      ensures snapshot == None
    {
      errors := [];
      var restored: set<Node> := {};
      var current: seq<Policy> := [];
      if candidates.Some? {
        current := sysfs.DiscoverCpufreqPolicies(candidates.value);
      } else {
        errors := [DiscoveryFailed];
      }
      ghost var goal := RestoreSnapshot(machine.oracle, old(machine.View()), candidates, saved);
      for i := 0 to |saved|
        invariant goal == RestoreAll(machine.oracle, Restoring(machine.View(), restored, errors), current, saved[i..])
      {
        DropStep(saved, i);
        var policy := Live(current, saved[i].id);
        if policy.None? {
          errors := errors + [Vanished(saved[i].id)];
        } else {
          restored, errors := RestoreOnePolicy(policy.value, saved[i], restored, errors);
        }
      }
      snapshot := None;
    }
  }
}
