/**
 The supervising daemon: its methods coordinate the subsystems and are proved against the
 life-cycle steps (boostlock/daemon.py).
 */
module BoostLockDaemons {
  import opened Common
  import opened Kernel
  import opened Policies
  import opened Planning
  import opened PmQos
  import opened Transaction
  import opened SysfsControllers
  import opened StateManagers
  import opened Daemons

  class BoostLockDaemon {
    ghost const env: Env
    const candidates: seq<Candidate>
    const idleNodes: seq<Node>
    const unrecorded: Nodes -> Nodes
    const machine: Machine
    const sysfs: SysfsController
    const pmQos: PmQosController
    const executor: TransactionExecutor
    const stateManager: StateSnapshotManager

    var state: DaemonState
    var isLockedBoost: bool
    var engine: EngineStatus
    var guardRunning: bool
    var serverRunning: bool
    var pidHeld: bool
    var config: Config

    constructor (machine: Machine, candidates: seq<Candidate>, idleNodes: seq<Node>,
                 unrecorded: Nodes -> Nodes, config: Config)
      ensures Valid() && fresh(pmQos) && fresh(stateManager) && this.machine == machine
      ensures env == Env(machine.oracle, candidates, idleNodes, unrecorded)
      ensures View() == Initial(config, machine.nodes).(world := Initial(config, machine.nodes).world.(sys := machine.View()))
    {
      this.env := Env(machine.oracle, candidates, idleNodes, unrecorded);
      this.candidates := candidates;
      this.idleNodes := idleNodes;
      this.unrecorded := unrecorded;
      this.machine := machine;
      this.config := config;
      state := Stopped;
      isLockedBoost := false;
      engine := EngineStopped;
      guardRunning := false;
      serverRunning := false;
      pidHeld := false;
      var controller := new SysfsController(machine);
      var qos := new PmQosController(machine, config.latencyUs);
      sysfs := controller;
      pmQos := qos;
      executor := new TransactionExecutor(machine, qos);
      stateManager := new StateSnapshotManager(machine, controller);
    }

    ghost predicate Valid() {
      && env == Env(machine.oracle, candidates, idleNodes, unrecorded)
      && sysfs.machine == machine && pmQos.machine == machine
      && executor.machine == machine && executor.qos == pmQos
      && stateManager.machine == machine && stateManager.sysfs == sysfs
    }

    function View(): Daemon
      reads this, pmQos, pmQos.machine, stateManager
    {
      Daemon(state, isLockedBoost, engine, guardRunning, serverRunning, pidHeld,
             stateManager.snapshot, config, pmQos.View())
    }

    /** The cpuidle nodes eligible for a planned fallback. */
    method DiscoverFallbackPaths() returns (paths: seq<Node>)
      ensures paths == FallbackPaths(machine.nodes, idleNodes)
    {
      paths := [];
      for i := 0 to |idleNodes|
        invariant FallbackPaths(machine.nodes, idleNodes) == paths + FallbackPaths(machine.nodes, idleNodes[i..])
      {
        DropStep(idleNodes, i);
        var node := idleNodes[i];
        ghost var rest := FallbackPaths(machine.nodes, idleNodes[i + 1..]);
        if node.CpuIdleDisable? && node.idleState >= 1 && Read(machine.nodes, node).Some? {
          HeadMoves(paths, node, rest);
          paths := paths + [node];
        } else {
          assert [] + rest == rest;
        }
      }
    }

    /** The route, with the values its nodes hold now. */
    method SelectPlannedRoute(deviceExists: bool) returns (r: Routed)
      requires Valid()
      ensures r == SelectRoute(env, machine.nodes, deviceExists)
    {
      if deviceExists {
        return Routed(DeviceRoute, []);
      }
      FallbackPathsRead(machine.nodes, idleNodes);
      var paths := DiscoverFallbackPaths();
      var saved: seq<Saved> := [];
      for i := 0 to |paths|
        invariant |saved| == i && forall j :: 0 <= j < i ==> paths[j] in machine.nodes && saved[j] == Saved(paths[j], machine.nodes[paths[j]])
      {
        assert paths[i] in paths;
        saved := saved + [Saved(paths[i], machine.nodes[paths[i]])];
      }
      assert saved == SaveAll(machine.nodes, paths);
      return Routed(if saved == [] then NoRoute else IdleRoute, saved);
    }

    method ApplyStartupPolicyTransaction(plan: Plan, deviceExists: bool) returns (ok: bool)
      requires Valid()
      modifies machine, pmQos
      ensures StartupTransaction(env, old(pmQos.View()), config, plan, deviceExists) == Step(pmQos.View(), ok)
    {
      var routed := SelectPlannedRoute(deviceExists);
      var actions := plan.actions + QosActions(routed, config);
      var preflight := SysfsController.UniquePaths(ActionNodes(actions));
      var result := executor.ExecutePolicyApplyPlan(
        routed.route, plan.(actions := actions, preflight := preflight));
      ok := result.Applied?;
      if ok && routed.route.IdleRoute? {
        pmQos.ActivatePlannedFallback(routed.saved);
      }
    }

    method RestoreInitialState(readable: bool)
      requires Valid()
      modifies machine, stateManager
      ensures View() == RestoreState(env, old(View()), readable)
    {
      if stateManager.snapshot.Some? {
        var _ := stateManager.RestorePolicySnapshot(
          if readable then Some(candidates) else None, stateManager.snapshot.value);
      } else {
        machine.Replace(unrecorded(machine.nodes));
      }
    }

    method EmergencyRollback(final: DaemonState, restore: bool, readable: bool)
      requires Valid()
      modifies this, machine, pmQos, stateManager
      ensures View() == Daemons.EmergencyRollback(env, old(View()), final, restore, readable)
    {
      engine := StopEngine(engine).status;
      guardRunning := false;
      var _ := pmQos.Release(false);
      if restore {
        RestoreInitialState(readable);
      }
      serverRunning := false;
      pidHeld := false;
      state := final;
      isLockedBoost := false;
    }

    method Start(f: StartFaults) returns (ok: bool)
      requires Valid()
      modifies this, machine, pmQos, stateManager
      ensures View() == Daemons.Start(env, old(View()), f)
      ensures ok ==> View().state.Running?
    {
      if state.Running? {
        return true;
      }
      if pidHeld || !f.pidFree {
        EmergencyRollback(Error, true, f.restoreReads);
        return false;
      }
      state := Initializing;
      pidHeld := true;
      var plan := sysfs.BuildPolicyApplyPlan(candidates, RequestOf(config), []);
      if !f.planReads || plan.Failure? || !f.snapshotReads {
        EmergencyRollback(Stopped, false, f.restoreReads);
        return false;
      }
      ok := StartPlanned(plan.value, f);
    }

    method StartPlanned(plan: Plan, f: StartFaults) returns (ok: bool)
      requires Valid()
      modifies this, machine, pmQos, stateManager
      ensures View() == Daemons.StartPlanned(env, old(View()), plan, f)
      ensures ok ==> View().state.Running?
    {
      stateManager.CreatePolicySnapshot(candidates, plan.actions);
      if !f.routeReads {
        EmergencyRollback(Stopped, false, f.restoreReads);
        return false;
      }
      var applied := ApplyStartupPolicyTransaction(plan, f.deviceExists);
      if !applied {
        EmergencyRollback(Stopped, false, f.restoreReads);
        return false;
      }
      ok := StartServices(f);
    }

    method StartServices(f: StartFaults) returns (ok: bool)
      requires Valid()
      modifies this, machine, pmQos, stateManager
      ensures View() == Daemons.StartServices(env, old(View()), f)
      ensures ok ==> View().state.Running?
    {
      if !f.guardStarts {
        EmergencyRollback(Error, true, f.restoreReads);
        return false;
      }
      guardRunning := true;
      var started := StartEngine(engine, f.engine);
      engine := started.status;
      if !started.ok || !f.serverStarts {
        EmergencyRollback(Error, true, f.restoreReads);
        return false;
      }
      serverRunning := true;
      state := Running;
      isLockedBoost := true;
      return true;
    }

    method Stop(readable: bool)
      requires Valid()
      modifies this, machine, pmQos, stateManager
      ensures View() == Daemons.Stop(env, old(View()), readable)
    {
      if state.Stopped? {
        return;
      }
      state := Stopped;
      isLockedBoost := false;
      engine := StopEngine(engine).status;
      guardRunning := false;
      var _ := pmQos.Release(false);
      RestoreInitialState(readable);
      serverRunning := false;
      pidHeld := false;
    }

    method Pause()
      requires Valid()
      modifies this
      ensures View() == Do(env, old(View()), PauseCommand)
    {
      if state.Running? {
        engine := PauseEngine(engine);
        state := Paused;
      }
    }

    method Resume()
      requires Valid()
      modifies this
      ensures View() == Do(env, old(View()), ResumeCommand)
    {
      if state.Paused? {
        engine := ResumeEngine(engine);
        state := Running;
      }
    }

    method Lock(f: LockFaults) returns (ok: bool)
      requires Valid()
      modifies this, machine, pmQos
      ensures View() == Daemons.Lock(env, old(View()), f)
      ensures ok <==> isLockedBoost
    {
      if isLockedBoost {
        return true;
      }
      var plan := sysfs.BuildPolicyApplyPlan(candidates, RequestOf(config), []);
      if !f.planReads || plan.Failure? || !f.routeReads {
        return false;
      }
      ok := LockWith(plan.value, f);
    }

    /** Apply the plan of a lock, then start the engine. */
    method LockWith(plan: Plan, f: LockFaults) returns (ok: bool)
      requires Valid() && !isLockedBoost
      modifies this, machine, pmQos
      ensures View() == LockPlanned(env, old(View()), plan, f)
      ensures ok <==> isLockedBoost
    {
      var applied := ApplyStartupPolicyTransaction(plan, f.deviceExists);
      if !applied {
        return false;
      }
      var started := StartEngine(engine, f.engine);
      engine := started.status;
      if !started.ok {
        return false;
      }
      isLockedBoost := true;
      if !state.Throttled? {
        state := Running;
      }
      return true;
    }

    method Unlock() returns (ok: bool)
      requires Valid()
      modifies this, machine, pmQos
      ensures View() == Daemons.Unlock(env, old(View()))
      ensures ok <==> !isLockedBoost
    {
      if !isLockedBoost {
        return true;
      }
      var stopped := StopEngine(engine);
      if !stopped.ok {
        return false;
      }
      engine := stopped.status;
      var _ := pmQos.Release(false);
      isLockedBoost := false;
      return true;
    }

    method Reconfigure(newConfig: Config)
      requires Valid()
      modifies this
      ensures View() == Do(env, old(View()), Command.Reconfigure(newConfig))
    {
      config := newConfig;
    }

    method OnThermalTripwire()
      requires Valid()
      modifies this
      ensures View() == Tripped(old(View()))
    {
      state := Throttled;
      engine := PauseEngine(engine);
    }

    method OnThermalRecovery()
      requires Valid()
      modifies this
      ensures View() == Recovered(old(View()))
    {
      if state.Throttled? {
        state := Running;
        engine := ResumeEngine(engine);
      }
    }
  }
}
