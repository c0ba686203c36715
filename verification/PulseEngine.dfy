/** The pulse worker and the pulse engine as the objects that are updated in place (boostlock/engine.py). */
module PulseEngines {
  import opened Arithmetic
  import opened Common
  import opened Policies
  import opened Duty
  import opened DutyControllers
  import opened Engines
  import opened EngineLaws
  import Daemons

  class PulseWorker {
    const cpuId: nat
    const waveform: Option<Waveform>
    var dutyCyclePct: real
    var policyId: Key
    var targetFreqKhz: int
    var curFreqKhz: Option<int>
    var paused: bool
    var pulsesExecuted: nat
    var activeTime: real
    var sleepTime: real

    ghost function View(): Worker reads this { Worker(cpuId, policyId, dutyCyclePct, targetFreqKhz) }

    constructor (cpuId: nat, duty: real, waveform: Option<Waveform>, policyId: Key, target: int)
      ensures this.waveform == waveform && View() == Worker(cpuId, policyId, duty, target)
      ensures !paused && pulsesExecuted == 0 && activeTime == 0.0 && sleepTime == 0.0 && curFreqKhz.None?
    {
      this.cpuId := cpuId;
      this.waveform := waveform;
      dutyCyclePct := duty;
      this.policyId := policyId;
      targetFreqKhz := target;
      curFreqKhz := None;
      paused := false;
      pulsesExecuted := 0;
      activeTime := 0.0;
      sleepTime := 0.0;
    }

    method SetDutyCycle(duty: real)
      modifies this`dutyCyclePct
      ensures dutyCyclePct == Cap(0.0, 100.0, duty)
    {
      dutyCyclePct := Cap(0.0, 100.0, duty);
    }

    /** One period of the worker's loop; bursting and sleeping are taken to last exactly as planned. */
    method RunOnePeriod(time: real, length: real)
      requires waveform.Some? ==> waveform.value.period > 0.0
      modifies this`pulsesExecuted, this`activeTime, this`sleepTime
      ensures match PeriodOf(paused, dutyCyclePct, waveform, time, length)
        case Idle =>
          pulsesExecuted == old(pulsesExecuted) && activeTime == old(activeTime) && sleepTime == old(sleepTime)
        case Pulse(active, rest) =>
          && pulsesExecuted == old(pulsesExecuted) + 1
          && activeTime == old(activeTime) + active && sleepTime == old(sleepTime) + rest
    {
      if paused {
        return;
      }
      if dutyCyclePct <= 0.0 {
        return;
      }
      var effective := dutyCyclePct;
      if waveform.Some? {
        effective := ComputeDuty(waveform.value, dutyCyclePct, time);
      }
      var active := length * effective / 100.0;
      var rest := Greater(0.0, length - active);
      assert PeriodOf(paused, dutyCyclePct, waveform, time, length) == Pulse(active, rest);
      pulsesExecuted := pulsesExecuted + 1;
      activeTime := activeTime + active;
      sleepTime := sleepTime + rest;
    }
  }

  /** No worker is listed twice. */
  ghost predicate Separate(workers: seq<PulseWorker>) {
    workers == [] || (workers[|workers| - 1] !in workers[..|workers| - 1] && Separate(workers[..|workers| - 1]))
  }

  lemma {:induction false} SeparateAt(workers: seq<PulseWorker>)
    requires Separate(workers)
    ensures forall i, j :: 0 <= i < j < |workers| ==> workers[i] != workers[j]
  {
    if workers != [] {
      var n := |workers| - 1;
      SeparateAt(workers[..n]);
      forall i, j | 0 <= i < j < |workers| ensures workers[i] != workers[j] {
        assert workers[i] == workers[..n][i];
        if j < n { assert workers[j] == workers[..n][j]; } else { assert workers[i] in workers[..n]; }
      }
    }
  }

  // ---------------------------------------------------------------- facts about one tick

  lemma {:induction false} NoneAreMine(e: Engine, input: Input, keys: seq<Key>, key: Key)
    requires |input.readings| == |e.workers| && key !in keys
    ensures Mine(Updates(e, input, keys), key) == []
  {
    if keys != [] {
      assert Updates(e, input, keys)[1..] == Updates(e, input, keys[1..]);
      NoneAreMine(e, input, keys[1..], key);
    }
  }

  /** Updates of other policies do not change what a policy is about to be given. */
  lemma UntouchedDuty(e: Engine, input: Input, keys: seq<Key>, key: Key)
    requires |input.readings| == |e.workers| && Consistent(e.controller) && key !in keys
    ensures OutputOf(Duty.Run(e.controller, Updates(e, input, keys)), key, FeedFor(e, input, key))
         == PolicyDuty(e, input, key)
  {
    NonInterference(e.controller, Updates(e, input, keys), key);
    NoneAreMine(e, input, keys, key);
    SoloGives(e.controller, key, FeedFor(e, input, key));
    SoloGives(Duty.Run(e.controller, Updates(e, input, keys)), key, FeedFor(e, input, key));
  }

  lemma SoloGives(c: Controller, key: Key, feed: Feed)
    requires Consistent(c)
    ensures var s := SoloOf(c, key);
      OutputOf(c, key, feed) == Output(s.settings, SoloTarget(s), SoloCell(s), feed)
  {
    assert key in c.cells <==> key in c.targets;
  }

  /** The duty controller once the first n policies of the order have been updated. */
  ghost function ControllerAfter(e: Engine, input: Input, n: nat): Controller
    requires |input.readings| == |e.workers| && Consistent(e.controller) && n <= |input.order|
  {
    Duty.Run(e.controller, Updates(e, input, input.order[..n]))
  }

  lemma ControllerStep(e: Engine, input: Input, n: nat)
    requires Consistent(e.controller) && ValidInput(e, input) && n < |input.order|
    ensures var key := input.order[n]; var feed := FeedFor(e, input, key);
      && key !in input.order[..n]
      && ControllerAfter(e, input, n + 1) == Do(ControllerAfter(e, input, n), Update(key, feed))
      && OutputOf(ControllerAfter(e, input, n), key, feed) == PolicyDuty(e, input, key)
  {
    OneMoreUpdate(e, input, input.order, n);
    UntouchedDuty(e, input, input.order[..n], input.order[n]);
  }

  lemma OneMoreUpdate(e: Engine, input: Input, keys: seq<Key>, i: nat)
    requires |input.readings| == |e.workers| && Consistent(e.controller) && i < |keys|
    ensures var before := Duty.Run(e.controller, Updates(e, input, keys[..i]));
      Duty.Run(e.controller, Updates(e, input, keys[..i + 1])) == Do(before, Update(keys[i], FeedFor(e, input, keys[i])))
  {
    var ops := Updates(e, input, keys[..i + 1]);
    RunLast(e.controller, ops);
    assert ops[..i] == Updates(e, input, keys[..i]);
  }

  lemma WorkersCovered(e: Engine, config: EngineConfig, discovered: seq<Policy>, a: Assignment)
    requires Whole(e) && a == Resolve(e.setup, config, discovered)
    ensures forall i :: 0 <= i < |e.workers| ==>
              e.workers[i].cpu in a.owners && a.owners[e.workers[i].cpu] in a.targets
  {
    ResolveCovers(e.setup, config, discovered);
    forall i | 0 <= i < |e.workers| ensures e.workers[i].cpu in e.setup.cores {
      assert e.workers[i] in e.workers;
    }
  }

  /** Turns after the policies in keys have been served. */
  ghost function TurnsAfter(e: Engine, keys: seq<Key>): map<Key, nat> {
    if !e.setup.roundRobin || keys == [] then e.turns
    else
      var key := keys[|keys| - 1];
      ServedTurn(TurnsAfter(e, keys[..|keys| - 1]), key, |Peers(e.workers, key)|)
  }

  ghost function ServedTurn(turns: map<Key, nat>, key: Key, n: nat): map<Key, nat> {
    if n == 0 then turns else turns[key := TurnOf(turns, key, n) + 1]
  }

  lemma OneMoreTurn(e: Engine, keys: seq<Key>, i: nat)
    requires i < |keys|
    ensures TurnsAfter(e, keys[..i + 1]) ==
            if e.setup.roundRobin then ServedTurn(TurnsAfter(e, keys[..i]), keys[i], |Peers(e.workers, keys[i])|)
            else TurnsAfter(e, keys[..i])
  {
    assert keys[..i + 1][..i] == keys[..i];
  }

  /** A key has been served once, or not at all. */
  lemma {:induction false} TurnsOfKey(e: Engine, keys: seq<Key>, key: Key)
    requires Distinct(keys)
    ensures var after := TurnsAfter(e, keys);
      if e.setup.roundRobin && key in keys && Peers(e.workers, key) != []
      then key in after && after[key] == TurnOf(e.turns, key, |Peers(e.workers, key)|) + 1
      else (key in after <==> key in e.turns) && (key in after ==> after[key] == e.turns[key])
    decreases |keys|
  {
    if e.setup.roundRobin && keys != [] {
      var i := |keys| - 1;
      TurnsOfKey(e, keys[..i], key);
      assert Distinct(keys[..i]) && keys[i] !in keys[..i];
      assert key in keys <==> key in keys[..i] || key == keys[i];
    }
  }

  /** Before a policy is served its turn is the one it had before the tick. */
  lemma TurnNotYet(e: Engine, input: Input, i: nat)
    requires ValidInput(e, input) && i < |input.order| && Peers(e.workers, input.order[i]) != []
    ensures var k := input.order[i]; var n := |Peers(e.workers, k)|;
      TurnOf(TurnsAfter(e, input.order[..i]), k, n) == TurnOf(e.turns, k, n)
  {
    TurnsOfKey(e, input.order[..i], input.order[i]);
  }

  lemma TurnsOfOrder(e: Engine, input: Input)
    requires ValidInput(e, input)
    ensures TurnsAfter(e, input.order) == NextTurns(e)
  {
    forall k ensures k in TurnsAfter(e, input.order) <==> k in NextTurns(e)
            ensures k in TurnsAfter(e, input.order) ==> TurnsAfter(e, input.order)[k] == NextTurns(e)[k]
    {
      TurnsOfKey(e, input.order, k);
    }
  }

  /** What worker i gets of a duty handed out to all, or to the active one only. */
  function Portion(active: Option<nat>, i: nat, duty: real): real {
    Cap(0.0, 100.0, if active.None? || active.value == i then duty else 0.0)
  }

  /** Workers after a duty has been handed out to some of them. */
  function Dealt(workers: seq<Worker>, peers: seq<nat>, active: Option<nat>, duty: real): seq<Worker> {
    seq(|workers|, i requires 0 <= i < |workers| =>
      if i in peers then workers[i].(duty := Portion(active, i, duty)) else workers[i])
  }

  /** The duty of worker i once the policies in keys have been served. */
  ghost function DutyAfter(e: Engine, input: Input, keys: seq<Key>, i: nat): real
    requires |input.readings| == |e.workers| && Consistent(e.controller) && i < |e.workers|
  {
    if e.workers[i].policy in keys then WorkerDuty(e, input, i) else e.workers[i].duty
  }

  /** The workers once the first n policies of the order have been served. */
  ghost function WorkersAfter(e: Engine, input: Input, n: nat): seq<Worker>
    requires |input.readings| == |e.workers| && Consistent(e.controller) && n <= |input.order|
  {
    seq(|e.workers|, i requires 0 <= i < |e.workers| =>
      e.workers[i].(duty := DutyAfter(e, input, input.order[..n], i)))
  }

  /** The one worker whose turn it is, when workers take turns. */
  function ActiveOf(e: Engine, key: Key): Option<nat> {
    var peers := Peers(e.workers, key);
    if e.setup.roundRobin && peers != [] then Some(peers[TurnOf(e.turns, key, |peers|)]) else None
  }

  /** Positions and samples of the workers, under their own policies only. */
  ghost predicate Filed(workers: seq<Worker>, readings: seq<Option<int>>,
                        peers: map<Key, seq<nat>>, samples: map<Key, seq<int>>)
    requires |readings| == |workers|
  {
    forall k :: Get(peers, k, []) == Peers(workers, k) && Get(samples, k, []) == SamplesOf(workers, readings, k)
  }

  lemma FiledUnder(workers: seq<Worker>, readings: seq<Option<int>>,
                   peers: map<Key, seq<nat>>, samples: map<Key, seq<int>>, key: Key)
    requires |readings| == |workers| && Filed(workers, readings, peers, samples)
    ensures Get(peers, key, []) == Peers(workers, key) && Get(samples, key, []) == SamplesOf(workers, readings, key)
  {
  }

  /** Filing one worker and its reading under its own policy. */
  lemma FiledStep(workers: seq<Worker>, readings: seq<Option<int>>, i: nat,
                  peers: map<Key, seq<nat>>, samples: map<Key, seq<int>>)
    requires |readings| == |workers| && i < |workers| && Filed(workers[..i], readings[..i], peers, samples)
    ensures var key := workers[i].policy;
      var read := if readings[i].Some? then [readings[i].value] else [];
      Filed(workers[..i + 1], readings[..i + 1],
            peers[key := Get(peers, key, []) + [i]], samples[key := Get(samples, key, []) + read])
  {
    assert workers[..i + 1][..i] == workers[..i] && readings[..i + 1][..i] == readings[..i];
    var key, read := workers[i].policy, if readings[i].Some? then [readings[i].value] else [];
    var shown, noted := workers[..i + 1], readings[..i + 1];
    var peers', samples' := peers[key := Get(peers, key, []) + [i]], samples[key := Get(samples, key, []) + read];
    forall k ensures Get(peers', k, []) == Peers(shown, k) && Get(samples', k, []) == SamplesOf(shown, noted, k) {
      FiledUnder(workers[..i], readings[..i], peers, samples, k);
      if key != k {
        assert Peers(workers[..i], k) + [] == Peers(workers[..i], k);
        assert SamplesOf(workers[..i], readings[..i], k) + [] == SamplesOf(workers[..i], readings[..i], k);
      }
    }
  }

  lemma NothingServed(e: Engine, input: Input)
    requires |input.readings| == |e.workers| && Consistent(e.controller)
    ensures ControllerAfter(e, input, 0) == e.controller
    ensures WorkersAfter(e, input, 0) == e.workers && TurnsAfter(e, input.order[..0]) == e.turns
  {
    assert Updates(e, input, input.order[..0]) == [];
  }

  lemma WorkersStep(e: Engine, input: Input, n: nat)
    requires ValidInput(e, input) && Consistent(e.controller) && n < |input.order|
    ensures var key := input.order[n];
      WorkersAfter(e, input, n + 1) ==
      Dealt(WorkersAfter(e, input, n), Peers(e.workers, key), ActiveOf(e, key), PolicyDuty(e, input, key))
  {
    var key := input.order[n];
    var dealt := Dealt(WorkersAfter(e, input, n), Peers(e.workers, key), ActiveOf(e, key), PolicyDuty(e, input, key));
    forall i | 0 <= i < |e.workers| ensures WorkersAfter(e, input, n + 1)[i] == dealt[i] {
      WorkerStep(e, input, n, i);
    }
  }

  lemma WorkerStep(e: Engine, input: Input, n: nat, i: nat)
    requires ValidInput(e, input) && Consistent(e.controller) && n < |input.order| && i < |e.workers|
    ensures var key := input.order[n];
      DutyAfter(e, input, input.order[..n + 1], i) ==
      if i in Peers(e.workers, key) then Portion(ActiveOf(e, key), i, PolicyDuty(e, input, key))
      else DutyAfter(e, input, input.order[..n], i)
  {
    PeersIncrease(e.workers, input.order[n]);
    assert forall k :: k in input.order[..n + 1] <==> k in input.order[..n] || k == input.order[n];
  }

  /** An engine after a tick, field by field. */
  lemma TickFields(e: Engine, input: Input, after: Engine)
    requires Consistent(e.controller) && ValidInput(e, input)
    requires after == e.(controller := after.controller, workers := after.workers, turns := after.turns)
    requires after.controller == ControllerAfter(e, input, |input.order|)
    requires after.turns == TurnsAfter(e, input.order)
    requires after.workers == WorkersAfter(e, input, |input.order|)
    ensures after == Tick(e, input)
  {
    assert input.order[..|input.order|] == input.order;
    TurnsOfOrder(e, input);
    assert after.workers == Tick(e, input).workers;
  }

  // ---------------------------------------------------------------- the engine

  class PulseEngine {
    const setup: Setup
    const waveform: Waveform
    const dutyController: AdaptiveDutyController
    var config: EngineConfig
    var cpuPolicyIds: map<nat, Key>
    var policyTargets: map<Key, int>
    var policyClampFactors: map<Key, real>
    var workers: seq<PulseWorker>
    var turns: map<Key, nat>
    var status: Daemons.EngineStatus

    /** An engine that has not been started; first is the first key of the resolved targets. */
    constructor (setup: Setup, config: EngineConfig, waveform: Waveform, discovered: seq<Policy>, first: Key)
      requires first in Resolve(setup, config, discovered).targets
      ensures Valid() && fresh(dutyController) && workers == [] && this.waveform == waveform
      ensures status.EngineStopped?
      ensures View() == Built(setup, config, discovered, first)
    {
      var a := Resolve(setup, config, discovered);
      BuiltInv(setup, config, discovered, first);
      this.setup := setup;
      this.waveform := waveform;
      this.dutyController := new AdaptiveDutyController(
        FallbackTarget(config), config.minDuty, config.maxDuty, config.step, 25.0, None, a.targets, first);
      this.config := config;
      cpuPolicyIds := a.owners;
      policyTargets := a.targets;
      policyClampFactors := map k | k in a.targets :: 1.0;
      workers := [];
      turns := map[];
      status := Daemons.EngineStopped;
      new;
      assert dutyController.View() == Built(setup, config, discovered, first).controller;
    }

    ghost predicate Linked()
      reads this, dutyController
    {
      dutyController.Valid() && Separate(workers) && (status.EngineStopped? ==> workers == [])
    }

    ghost predicate Valid()
      reads this, dutyController, workers
    {
      Linked() && EngineInv(View())
    }

    ghost function View(): (e: Engine)
      reads this, dutyController, workers
      ensures |e.workers| == |workers|
    {
      Engine(setup, config, cpuPolicyIds, policyTargets, policyClampFactors, dutyController.View(),
             Views(workers), turns)
    }

    static ghost function Views(workers: seq<PulseWorker>): (r: seq<Worker>)
      reads workers
      ensures |r| == |workers| && forall i :: 0 <= i < |r| ==> r[i] == workers[i].View()
    {
      seq(|workers|, i requires 0 <= i < |workers| reads workers => workers[i].View())
    }

    /** Map the selected cores to their owning policies and targets. */
    method ResolvePolicyTargets(discovered: seq<Policy>) returns (targets: map<Key, int>)
      modifies this`cpuPolicyIds
      ensures Assignment(cpuPolicyIds, targets) == Resolve(setup, config, discovered)
    {
      cpuPolicyIds := map[];
      targets := map[];
      var i := 0;
      while i < |discovered|
        invariant 0 <= i <= |discovered|
        invariant AdoptPolicies(setup, config, discovered, Assignment(map[], map[]))
               == AdoptPolicies(setup, config, discovered[i..], Assignment(cpuPolicyIds, targets))
      {
        DropStep(discovered, i);
        var policy := discovered[i];
        i := i + 1;
        var active := set cpu | cpu in policy.cpus && cpu in setup.cores;
        if active == {} {
          assert forall cpu :: cpu in policy.cpus && cpu in setup.cores ==> cpu in active;
          continue;
        }
        assert exists cpu :: cpu in policy.cpus && cpu in setup.cores by {
          var cpu :| cpu in active;
        }
        var key := PolicyKey(policy.id);
        var target := if key in setup.configured then Some(setup.configured[key])
                      else EngineTarget(policy.limits, Requested(config));
        if target.None? {
          continue;
        }
        targets := targets[key := target.value];
        cpuPolicyIds := cpuPolicyIds + (map cpu | cpu in policy.cpus && cpu in setup.cores :: key);
      }
      assert discovered[|discovered|..] == [];
      ghost var adopted := Assignment(cpuPolicyIds, targets);
      var j := 0;
      while j < |setup.cores|
        invariant 0 <= j <= |setup.cores|
        invariant AdoptCores(setup, config, setup.cores, adopted)
               == AdoptCores(setup, config, setup.cores[j..], Assignment(cpuPolicyIds, targets))
      {
        DropStep(setup.cores, j);
        var cpu := setup.cores[j];
        j := j + 1;
        if cpu in cpuPolicyIds {
          continue;
        }
        var key := PolicyKey(CpuName(cpu));
        cpuPolicyIds := cpuPolicyIds[cpu := key];
        targets := targets[key := if key in setup.configured then setup.configured[key] else FallbackTarget(config)];
      }
      assert setup.cores[|setup.cores|..] == [];
      if targets == map[] {
        targets := map[DefaultKey := FallbackTarget(config)];
      }
    }

    method BuildWorkers(duty: real) returns (created: seq<PulseWorker>)
      ensures fresh(created) && Separate(created)
      ensures Views(created) == NewWorkers(View(), duty)
    {
      created := [];
      ghost var e := View();
      var i := 0;
      while i < |setup.cores|
        invariant 0 <= i <= |setup.cores| && |created| == i && fresh(created) && Separate(created)
        invariant forall a :: 0 <= a < i ==> created[a].View() == NewWorker(e, setup.cores[a], duty)
      {
        var worker := BuildWorker(setup.cores[i], duty);
        assert (created + [worker])[..i] == created;
        created := created + [worker];
        i := i + 1;
      }
    }

    /** A worker for one core, with its owner's target. */
    method BuildWorker(cpu: nat, duty: real) returns (worker: PulseWorker)
      ensures fresh(worker) && worker.View() == NewWorker(View(), cpu, duty)
    {
      var key := OwnerOf(cpuPolicyIds, cpu);
      worker := new PulseWorker(cpu, duty, Some(waveform), key, Get(policyTargets, key, FallbackTarget(config)));
    }

    /**
     New workers for the selected cores, each with its owner's target, unless the engine runs
     already; then their threads and the controller's are started, as the outcome says.
     */
    method Start(duty: real, outcome: Daemons.EngineOutcome) returns (ok: bool)
      requires Valid()
      modifies this`workers, this`turns, this`status
      ensures Valid() && Daemons.StartEngine(old(status), outcome) == Daemons.EngineStep(status, ok)
      ensures old(status).EngineRunning? ==> View() == old(View()) && workers == old(workers)
      ensures !old(status).EngineRunning? ==> View() == Started(old(View()), duty) && fresh(workers)
    {
      if status.EngineRunning? {
        return true;
      }
      var step := Daemons.StartEngine(status, outcome);
      status := step.status;
      CreateWorkers(duty);
      return step.ok;
    }

    method CreateWorkers(duty: real)
      requires dutyController.Valid() && EngineInv(View()) && !status.EngineStopped?
      modifies this`workers, this`turns
      ensures Valid() && View() == Started(old(View()), duty) && fresh(workers)
    {
      StartKeepsInv(View(), duty);
      workers := BuildWorkers(duty);
      turns := map[];
    }

    /** Stopping clears the workers; a controller thread that never started cannot be joined. */
    method Stop() returns (ok: bool)
      requires Valid()
      modifies this`workers, this`status
      ensures Valid() && Daemons.StopEngine(old(status)) == Daemons.EngineStep(status, ok)
      ensures View() == if ok then old(View()).(workers := []) else old(View())
      ensures workers == if ok then [] else old(workers)
    {
      var step := Daemons.StopEngine(status);
      if step.ok {
        workers := [];
      }
      status := step.status;
      return step.ok;
    }

    /** Set or clear the pause of every worker. */
    method SetPaused(paused: bool)
      modifies workers`paused
      ensures forall w :: w in workers ==> w.paused == paused
      ensures Views(workers) == old(Views(workers))
    {
      var i := 0;
      while i < |workers|
        invariant 0 <= i <= |workers|
        invariant forall j :: 0 <= j < i ==> workers[j].paused == paused
        invariant Views(workers) == old(Views(workers))
      {
        workers[i].paused := paused;
        i := i + 1;
      }
    }

    /** A running engine pauses, and with it all its workers. */
    method Pause()
      requires Linked()
      modifies this`status, workers`paused
      ensures Linked() && View() == old(View()) && status == Daemons.PauseEngine(old(status))
      ensures old(status).EngineRunning? ==> forall w :: w in workers ==> w.paused
      ensures !old(status).EngineRunning? ==> forall w :: w in workers ==> w.paused == old(w.paused)
    {
      if status.EngineRunning? {
        status := Daemons.EnginePaused;
        SetPaused(true);
      }
    }

    /** A paused engine resumes, and with it all its workers. */
    method Resume()
      requires Linked()
      modifies this`status, workers`paused
      ensures Linked() && View() == old(View()) && status == Daemons.ResumeEngine(old(status))
      ensures old(status).EnginePaused? ==> forall w :: w in workers ==> !w.paused
      ensures !old(status).EnginePaused? ==> forall w :: w in workers ==> w.paused == old(w.paused)
    {
      if status.EnginePaused? {
        status := Daemons.EngineRunning;
        SetPaused(false);
      }
    }

    /** Move every worker to the policy that now owns its core. */
    method ReassignWorkers()
      requires Separate(workers)
      requires forall i :: 0 <= i < |workers| ==>
        workers[i].cpuId in cpuPolicyIds && cpuPolicyIds[workers[i].cpuId] in policyTargets
      modifies workers`policyId, workers`targetFreqKhz
      ensures Views(workers) == AllReassigned(old(Views(workers)), Assignment(cpuPolicyIds, policyTargets))
    {
      ghost var a := Assignment(cpuPolicyIds, policyTargets);
      SeparateAt(workers);
      var i := 0;
      while i < |workers|
        invariant 0 <= i <= |workers|
        invariant forall j :: 0 <= j < i ==> workers[j].View() == Reassigned(old(workers[j].View()), a)
        invariant forall j :: i <= j < |workers| ==> workers[j].View() == old(workers[j].View())
      {
        var key := cpuPolicyIds[workers[i].cpuId];
        workers[i].policyId := key;
        workers[i].targetFreqKhz := policyTargets[key];
        i := i + 1;
      }
    }

    method FollowInController(first: Key) returns (accepted: bool)
      requires Linked() && first in policyTargets
      modifies this`policyClampFactors, dutyController
      ensures accepted == Acceptable(policyTargets)
      ensures Linked() && Views(workers) == old(Views(workers)) && policyClampFactors == KeptClamps(old(View()))
      ensures dutyController.View() ==
              if accepted then Do(Do(old(dutyController.View()), Retarget(policyTargets, first)),
                                  Duty.Tune(config.minDuty, config.maxDuty, config.step))
              else old(dutyController.View())
    {
      policyClampFactors := map k | k in policyTargets :: Get(policyClampFactors, k, 1.0);
      accepted := dutyController.SetPolicyTargets(policyTargets, first);
      if accepted {
        dutyController.Tune(config.minDuty, config.maxDuty, config.step);
      }
    }

    /** Bring clamps, controller and workers in line with the new targets, as far as they are accepted. */
    method FollowTargets(first: Key) returns (accepted: bool)
      requires Linked() && first in policyTargets
      requires forall i :: 0 <= i < |workers| ==>
        workers[i].cpuId in cpuPolicyIds && cpuPolicyIds[workers[i].cpuId] in policyTargets
      modifies this`policyClampFactors, dutyController, workers`policyId, workers`targetFreqKhz
      ensures Linked() && accepted == Acceptable(policyTargets)
      ensures View() == if accepted then Followed(old(View()), first)
                        else old(View()).(clamps := KeptClamps(old(View())))
    {
      accepted := FollowInController(first);
      if accepted {
        ReassignWorkers();
      }
    }

    /** Take over a configuration and resolve its targets. */
    method Aim(newConfig: EngineConfig, discovered: seq<Policy>)
      modifies this`config, this`cpuPolicyIds, this`policyTargets
      ensures View() == Aimed(old(View()), newConfig, discovered)
    {
      config := newConfig;
      policyTargets := ResolvePolicyTargets(discovered);
    }

    /**
     Replace the configuration; targets, clamps, controller and workers follow. Targets that are not
     positive are refused (a value error in the source) when the first half has been done.
     */
    method Reconfigure(newConfig: EngineConfig, discovered: seq<Policy>, first: Key) returns (accepted: bool)
      requires Linked() && Whole(View()) && first in Resolve(setup, newConfig, discovered).targets
      modifies this`config, this`cpuPolicyIds, this`policyTargets, this`policyClampFactors, dutyController
      modifies workers`policyId, workers`targetFreqKhz
      ensures accepted == Acceptable(Resolve(setup, newConfig, discovered).targets)
      ensures Linked() && Whole(View()) && (accepted ==> Valid())
      ensures View() == Retuned(old(View()), newConfig, discovered, first)
    {
      RetuneKeepsInv(View(), newConfig, discovered, first);
      WorkersCovered(View(), newConfig, discovered, Resolve(setup, newConfig, discovered));
      Aim(newConfig, discovered);
      accepted := FollowTargets(first);
    }

    /** Apply a policy-local clamp; an unknown policy is refused (a key error in the source). */
    method SetPolicyThermalClamp(key: Key, factor: real) returns (known: bool)
      requires Valid()
      modifies this`policyClampFactors
      ensures Valid() && known == (key in policyTargets)
      ensures View() == Clamped(old(View()), key, factor)
    {
      if key !in policyTargets {
        return false;
      }
      policyClampFactors := policyClampFactors[key := Cap(0.0, 1.0, factor)];
      return true;
    }

    /** Give the duty to one policy's workers: to all of them, or to the one whose turn it is. */
    method Distribute(peers: seq<nat>, active: Option<nat>, duty: real)
      requires Separate(workers)
      requires forall j :: 0 <= j < |peers| ==> peers[j] < |workers|
      modifies workers`dutyCyclePct
      ensures Views(workers) == Dealt(old(Views(workers)), peers, active, duty)
    {
      SeparateAt(workers);
      var n := 0;
      while n < |peers|
        invariant 0 <= n <= |peers|
        invariant forall i | 0 <= i < |workers| && i !in peers[..n] ::
                    workers[i].dutyCyclePct == old(workers[i].dutyCyclePct)
        invariant forall i | 0 <= i < |workers| && i in peers[..n] :: workers[i].dutyCyclePct == Portion(active, i, duty)
      {
        var i := peers[n];
        workers[i].SetDutyCycle(if active.None? || active.value == i then duty else 0.0);
        n := n + 1;
      }
    }

    /** Note each worker's frequency and file it under its own policy only. */
    method Collect(readings: seq<Option<int>>) returns (peers: map<Key, seq<nat>>, samples: map<Key, seq<int>>)
      requires |readings| == |workers|
      modifies workers`curFreqKhz
      ensures Views(workers) == old(Views(workers)) && Filed(Views(workers), readings, peers, samples)
    {
      ghost var views := Views(workers);
      peers := map k | k in policyTargets :: [];
      samples := map k | k in policyTargets :: [];
      var i := 0;
      while i < |workers|
        invariant 0 <= i <= |workers|
        invariant Views(workers) == views
        invariant Filed(views[..i], readings[..i], peers, samples)
      {
        FiledStep(views, readings, i, peers, samples);
        var key := workers[i].policyId;
        var read: seq<int> := [];
        if readings[i].Some? {
          workers[i].curFreqKhz := readings[i];
          read := [readings[i].value];
        }
        peers := peers[key := Get(peers, key, []) + [i]];
        samples := samples[key := Get(samples, key, []) + read];
        i := i + 1;
      }
      assert views[..i] == views && readings[..i] == readings;
    }

    /** Whose turn it is among n workers; the next turn is one further. */
    method TakeTurn(key: Key, n: nat) returns (activeIndex: nat)
      requires n > 0
      modifies this`turns
      ensures activeIndex == TurnOf(old(turns), key, n) && turns == ServedTurn(old(turns), key, n)
    {
      WrappedIsRemainder(Get(turns, key, 0), n);
      activeIndex := Get(turns, key, 0) % n;
      turns := turns[key := activeIndex + 1];
    }

    /** The worker that has the turn, when workers take turns. */
    method PickActive(key: Key, peers: seq<nat>) returns (active: Option<nat>)
      modifies this`turns
      ensures active == if setup.roundRobin && peers != [] then Some(peers[TurnOf(old(turns), key, |peers|)]) else None
      ensures turns == if setup.roundRobin then ServedTurn(old(turns), key, |peers|) else old(turns)
    {
      active := None;
      if setup.roundRobin && peers != [] {
        var activeIndex := TakeTurn(key, |peers|);
        active := Some(peers[activeIndex]);
      }
    }

    /** Update one policy's duty and hand it to its workers, or to the active one alone. */
    method ServePolicy(key: Key, feed: Feed, peers: seq<nat>) returns (duty: real, active: Option<nat>)
      requires Linked()
      requires forall j :: 0 <= j < |peers| ==> peers[j] < |workers|
      modifies this`turns, dutyController, workers`dutyCyclePct
      ensures Linked() && dutyController.View() == Do(old(dutyController.View()), Update(key, feed))
      ensures duty == OutputOf(old(dutyController.View()), key, feed)
      ensures active == if setup.roundRobin && peers != [] then Some(peers[TurnOf(old(turns), key, |peers|)]) else None
      ensures turns == if setup.roundRobin then ServedTurn(old(turns), key, |peers|) else old(turns)
      ensures Views(workers) == Dealt(old(Views(workers)), peers, active, duty)
    {
      duty := dutyController.UpdateSamples(key, feed.samples, feed.clamp, feed.load);
      active := PickActive(key, peers);
      Distribute(peers, active, duty);
    }

    /** Serve the policy at position n of the order. */
    method ServeNext(ghost e: Engine, input: Input, n: nat, peers: seq<nat>, samples: seq<int>)
      requires Linked() && Consistent(e.controller) && ValidInput(e, input) && n < |input.order|
      requires setup == e.setup && policyClampFactors == e.clamps && |workers| == |e.workers|
      requires peers == Peers(e.workers, input.order[n])
      requires samples == SamplesOf(e.workers, input.readings, input.order[n])
      requires dutyController.View() == ControllerAfter(e, input, n)
      requires turns == TurnsAfter(e, input.order[..n]) && Views(workers) == WorkersAfter(e, input, n)
      modifies this`turns, dutyController, workers`dutyCyclePct
      ensures Linked() && dutyController.View() == ControllerAfter(e, input, n + 1)
      ensures turns == TurnsAfter(e, input.order[..n + 1]) && Views(workers) == WorkersAfter(e, input, n + 1)
    {
      var key := input.order[n];
      var clamp := Lesser(Cap(0.0, 1.0, input.clamp), Get(policyClampFactors, key, 1.0));
      ControllerStep(e, input, n);
      WorkersStep(e, input, n);
      OneMoreTurn(e, input.order, n);
      if peers != [] { TurnNotYet(e, input, n); }
      var duty, active := ServePolicy(key, Feed(samples, clamp, input.load), peers);
    }

    /** Serve every policy, in order. */
    method ServeAll(ghost e: Engine, input: Input, peers: map<Key, seq<nat>>, samples: map<Key, seq<int>>)
      requires Linked() && e == View() && Consistent(e.controller) && ValidInput(e, input)
      requires Filed(e.workers, input.readings, peers, samples)
      modifies this`turns, dutyController, workers`dutyCyclePct
      ensures Linked() && dutyController.View() == ControllerAfter(e, input, |input.order|)
      ensures turns == TurnsAfter(e, input.order) && Views(workers) == WorkersAfter(e, input, |input.order|)
    {
      NothingServed(e, input);
      var n := 0;
      while n < |input.order|
        invariant 0 <= n <= |input.order|
        invariant Linked() && dutyController.View() == ControllerAfter(e, input, n)
        invariant turns == TurnsAfter(e, input.order[..n]) && Views(workers) == WorkersAfter(e, input, n)
      {
        var key := input.order[n];
        FiledUnder(e.workers, input.readings, peers, samples, key);
        ServeNext(e, input, n, Get(peers, key, []), Get(samples, key, []));
        n := n + 1;
      }
      assert input.order[..n] == input.order;
    }

    /** One iteration of the closed loop, over the policies in dictionary order. */
    method ControlTick(input: Input)
      requires Valid() && ValidInput(View(), input)
      modifies this`turns, dutyController, workers`dutyCyclePct, workers`curFreqKhz
      ensures Valid() && View() == Tick(old(View()), input)
    {
      ghost var e := View();
      TickKeepsInv(e, input);
      var peers, samples := Collect(input.readings);
      ServeAll(e, input, peers, samples);
      TickFields(e, input, View());
    }
  }
}
