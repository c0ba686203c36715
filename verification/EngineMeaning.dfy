/**
 What the pulse engine aims at, reads and deals out, in terms of its configuration, its workers and
 what a tick is told.
 */
module EngineMeaning {
  import opened Arithmetic
  import opened Common
  import opened Policies
  import opened Planning
  import opened Duty
  import opened Engines
  import opened EngineLaws

  // ---------------------------------------------------------------- targets

  /** A positive configured target; anything else asks for the largest frequency. */
  function Wish(c: EngineConfig): Option<int> {
    if c.target.Some? && c.target.value > 0 then c.target else None
  }

  predicate BoundsKnown(l: Limits) {
    (IsPositive(l.hardwareMin) || IsPositive(l.activeMin)) && (IsPositive(l.hardwareMax) || IsPositive(l.activeMax))
  }

  /** What a policy is held to: what is configured by name, else what its bounds allow, else the wish. */
  function AimOf(s: Setup, c: EngineConfig, p: Policy): Option<int> {
    if PolicyKey(p.id) in s.configured then Some(s.configured[PolicyKey(p.id)])
    else if BoundsKnown(p.limits) then EffectiveTarget(p.limits, Wish(c))
    else Wish(c)
  }

  /** What a core without a policy is held to. */
  function AimOfCore(s: Setup, c: EngineConfig, cpu: nat): int {
    var key := PolicyKey(CpuName(cpu));
    if key in s.configured then s.configured[key] else if Wish(c).Some? then Wish(c).value else 4000000
  }

  lemma TargetMeans(s: Setup, c: EngineConfig, p: Policy)
    ensures TargetOf(s, c, p) == AimOf(s, c, p)
    ensures FallbackTarget(c) == if Wish(c).Some? then Wish(c).value else 4000000
  {
    EngineAgreesWithPlanner(p.limits, Wish(c));
  }

  /** The policy lists the core, and there is something to hold it to. */
  predicate Serves(s: Setup, c: EngineConfig, p: Policy, cpu: nat) { cpu in p.cpus && AimOf(s, c, p).Some? }

  /** The last policy that serves a core. */
  ghost predicate LastServing(s: Setup, c: EngineConfig, ps: seq<Policy>, cpu: nat, i: nat) {
    i < |ps| && Serves(s, c, ps[i], cpu) && forall j :: i < j < |ps| ==> !Serves(s, c, ps[j], cpu)
  }

  ghost predicate NoneServes(s: Setup, c: EngineConfig, ps: seq<Policy>, cpu: nat) {
    forall p :: p in ps ==> !Serves(s, c, p, cpu)
  }

  lemma AdoptedOne(s: Setup, c: EngineConfig, p: Policy, a: Assignment, cpu: nat)
    requires cpu in s.cores
    ensures var r := AdoptPolicy(s, c, p, a);
      if Serves(s, c, p, cpu) then cpu in r.owners && r.owners[cpu] == PolicyKey(p.id)
      else (cpu in r.owners <==> cpu in a.owners) && (cpu in a.owners ==> r.owners[cpu] == a.owners[cpu])
  {
    TargetMeans(s, c, p);
  }

  lemma {:induction false} NoneAdopted(s: Setup, c: EngineConfig, ps: seq<Policy>, a: Assignment, cpu: nat)
    requires cpu in s.cores && NoneServes(s, c, ps, cpu)
    ensures var r := AdoptPolicies(s, c, ps, a);
      (cpu in r.owners <==> cpu in a.owners) && (cpu in a.owners ==> r.owners[cpu] == a.owners[cpu])
    decreases ps
  {
    if ps != [] {
      assert ps[0] in ps && forall p :: p in ps[1..] ==> p in ps;
      AdoptedOne(s, c, ps[0], a, cpu);
      NoneAdopted(s, c, ps[1..], AdoptPolicy(s, c, ps[0], a), cpu);
    }
  }

  lemma {:induction false} LastAdopted(s: Setup, c: EngineConfig, ps: seq<Policy>, a: Assignment, cpu: nat, i: nat)
    requires cpu in s.cores && LastServing(s, c, ps, cpu, i)
    ensures var r := AdoptPolicies(s, c, ps, a); cpu in r.owners && r.owners[cpu] == PolicyKey(ps[i].id)
    decreases ps
  {
    var next := AdoptPolicy(s, c, ps[0], a);
    if i > 0 {
      LastAdopted(s, c, ps[1..], next, cpu, i - 1);
    } else {
      AdoptedOne(s, c, ps[0], a, cpu);
      forall p | p in ps[1..] ensures !Serves(s, c, p, cpu) {
        var j :| 0 <= j < |ps[1..]| && ps[1..][j] == p;
        assert ps[j + 1] == p;
      }
      NoneAdopted(s, c, ps[1..], next, cpu);
    }
  }

  lemma {:induction false} AdoptedKeeps(s: Setup, c: EngineConfig, ps: seq<Policy>, a: Assignment, key: Key)
    requires forall p :: p in ps ==> PolicyKey(p.id) != key
    ensures var r := AdoptPolicies(s, c, ps, a);
      (key in r.targets <==> key in a.targets) && (key in a.targets ==> r.targets[key] == a.targets[key])
    decreases ps
  {
    if ps != [] {
      assert ps[0] in ps && forall p :: p in ps[1..] ==> p in ps;
      AdoptedKeeps(s, c, ps[1..], AdoptPolicy(s, c, ps[0], a), key);
    }
  }

  lemma {:induction false} AdoptedTarget(s: Setup, c: EngineConfig, ps: seq<Policy>, a: Assignment, i: nat, cpu: nat)
    requires i < |ps| && DistinctPolicyIds(ps) && Serves(s, c, ps[i], cpu) && cpu in s.cores
    ensures var r := AdoptPolicies(s, c, ps, a); var key := PolicyKey(ps[i].id);
      key in r.targets && r.targets[key] == AimOf(s, c, ps[i]).value
    decreases ps
  {
    TargetMeans(s, c, ps[i]);
    var next := AdoptPolicy(s, c, ps[0], a);
    if i > 0 {
      AdoptedTarget(s, c, ps[1..], next, i - 1, cpu);
    } else {
      forall p | p in ps[1..] ensures PolicyKey(p.id) != PolicyKey(ps[0].id) {
        var j :| 0 <= j < |ps[1..]| && ps[1..][j] == p;
        assert ps[j + 1] == p;
      }
      AdoptedKeeps(s, c, ps[1..], next, PolicyKey(ps[0].id));
    }
  }

  /** Cores that have an owner leave the targets alone; any other is given one of its own. */
  lemma {:induction false} CoreAims(s: Setup, c: EngineConfig, cores: seq<nat>, a: Assignment, key: Key)
    ensures var r := AdoptCores(s, c, cores, a);
      && ((forall cpu :: cpu in cores && key == PolicyKey(CpuName(cpu)) ==> cpu in a.owners) ==>
            (key in r.targets <==> key in a.targets) && (key in a.targets ==> r.targets[key] == a.targets[key]))
      && (forall cpu :: cpu in cores && key == PolicyKey(CpuName(cpu)) && cpu !in a.owners ==>
            key in r.targets && r.targets[key] == AimOfCore(s, c, cpu))
    decreases cores
  {
    if cores != [] {
      var next := AdoptCore(s, c, cores[0], a);
      CoreAims(s, c, cores[1..], next, key);
      assert cores[0] in cores && forall cpu :: cpu in cores <==> cpu == cores[0] || cpu in cores[1..];
    }
  }

  /**
   Who owns a selected core and what it is held to. The last discovered policy that lists the core and
   has a target owns it, at its own target; a core that has none is a policy of its own, at the
   configured target or 4 GHz. A directory of one CPU is taken to list that CPU.
   */
  lemma CoreMeans(s: Setup, c: EngineConfig, discovered: seq<Policy>, cpu: nat)
    requires cpu in s.cores && DistinctPolicyIds(discovered)
    requires forall p :: p in discovered && p.id.CpuName? ==> p.id.cpu in p.cpus
    ensures var a := Resolve(s, c, discovered);
      if NoneServes(s, c, discovered, cpu) then
        var own := PolicyKey(CpuName(cpu));
        cpu in a.owners && a.owners[cpu] == own && own in a.targets && a.targets[own] == AimOfCore(s, c, cpu)
      else exists i: nat :: LastServing(s, c, discovered, cpu, i) && HeldBy(s, c, a, cpu, discovered[i])
  {
    var none := Assignment(map[], map[]);
    var adopted := AdoptPolicies(s, c, discovered, none);
    ResolveCovers(s, c, discovered);
    AdoptCoresOwn(s, c, s.cores, adopted, cpu);
    if NoneServes(s, c, discovered, cpu) {
      NoneAdopted(s, c, discovered, none, cpu);
      CoreAims(s, c, s.cores, adopted, PolicyKey(CpuName(cpu)));
    } else {
      var p :| p in discovered && Serves(s, c, p, cpu);
      var k :| 0 <= k < |discovered| && discovered[k] == p;
      var i := SomeLast(s, c, discovered, cpu, k);
      LastAdopted(s, c, discovered, none, cpu, i);
      AdoptedTarget(s, c, discovered, none, i, cpu);
      OwnIdOwned(s, c, discovered, i);
      CoreAims(s, c, s.cores, adopted, PolicyKey(discovered[i].id));
      assert HeldBy(s, c, Resolve(s, c, discovered), cpu, discovered[i]);
    }
  }

  /** The core belongs to the policy, which is held to its own target. */
  ghost predicate HeldBy(s: Setup, c: EngineConfig, a: Assignment, cpu: nat, p: Policy) {
    var key := PolicyKey(p.id);
    cpu in a.owners && a.owners[cpu] == key && key in a.targets && Some(a.targets[key]) == AimOf(s, c, p)
  }

  /** A policy named after a CPU it serves leaves that CPU with an owner. */
  lemma OwnIdOwned(s: Setup, c: EngineConfig, discovered: seq<Policy>, i: nat)
    requires i < |discovered| && AimOf(s, c, discovered[i]).Some?
    requires forall p :: p in discovered && p.id.CpuName? ==> p.id.cpu in p.cpus
    ensures forall cpu :: cpu in s.cores && discovered[i].id == CpuName(cpu) ==>
              cpu in AdoptPolicies(s, c, discovered, Assignment(map[], map[])).owners
  {
    assert discovered[i] in discovered;
    forall cpu | cpu in s.cores && discovered[i].id == CpuName(cpu)
      ensures cpu in AdoptPolicies(s, c, discovered, Assignment(map[], map[])).owners
    {
      assert Serves(s, c, discovered[i], cpu);
      var last := SomeLast(s, c, discovered, cpu, i);
      LastAdopted(s, c, discovered, Assignment(map[], map[]), cpu, last);
    }
  }

  lemma {:induction false} SomeLast(s: Setup, c: EngineConfig, ps: seq<Policy>, cpu: nat, i: nat) returns (last: nat)
    requires i < |ps| && Serves(s, c, ps[i], cpu)
    ensures LastServing(s, c, ps, cpu, last)
    decreases |ps| - i
  {
    if j :| i < j < |ps| && Serves(s, c, ps[j], cpu) { last := SomeLast(s, c, ps, cpu, j); } else { last := i; }
  }

  /** A key that a selected core stands behind: one a policy serves it under, or one of its own. */
  ghost predicate StandsFor(s: Setup, c: EngineConfig, discovered: seq<Policy>, cpu: nat, key: Key) {
    if NoneServes(s, c, discovered, cpu) then key == PolicyKey(CpuName(cpu))
    else exists p :: p in discovered && Serves(s, c, p, cpu) && key == PolicyKey(p.id)
  }

  lemma {:induction false} AdoptedOnly(s: Setup, c: EngineConfig, ps: seq<Policy>, a: Assignment, key: Key)
    requires key in AdoptPolicies(s, c, ps, a).targets && key !in a.targets
    ensures exists cpu, p :: cpu in s.cores && p in ps && Serves(s, c, p, cpu) && key == PolicyKey(p.id)
    decreases ps
  {
    var next := AdoptPolicy(s, c, ps[0], a);
    if key in next.targets {
      TargetMeans(s, c, ps[0]);
      var cpu :| cpu in ps[0].cpus && cpu in s.cores;
      assert ps[0] in ps && Serves(s, c, ps[0], cpu);
    } else {
      AdoptedOnly(s, c, ps[1..], next, key);
      var cpu, p :| cpu in s.cores && p in ps[1..] && Serves(s, c, p, cpu) && key == PolicyKey(p.id);
      assert p in ps;
    }
  }

  lemma {:induction false} CoresOnly(s: Setup, c: EngineConfig, cores: seq<nat>, a: Assignment, key: Key)
    requires key in AdoptCores(s, c, cores, a).targets && key !in a.targets
    ensures exists cpu :: cpu in cores && cpu !in a.owners && key == PolicyKey(CpuName(cpu))
    decreases cores
  {
    var next := AdoptCore(s, c, cores[0], a);
    if key in next.targets {
      assert cores[0] in cores;
    } else {
      CoresOnly(s, c, cores[1..], next, key);
      var cpu :| cpu in cores[1..] && cpu !in next.owners && key == PolicyKey(CpuName(cpu));
      assert cpu in cores;
    }
  }

  /** Nothing is aimed at that no selected core stands behind; with no core selected, only the default. */
  lemma OnlyCoresAreAimedAt(s: Setup, c: EngineConfig, discovered: seq<Policy>, key: Key)
    ensures var targets := Resolve(s, c, discovered).targets;
      if s.cores == [] then targets == map[DefaultKey := if Wish(c).Some? then Wish(c).value else 4000000]
      else key in targets ==> exists cpu :: cpu in s.cores && StandsFor(s, c, discovered, cpu, key)
  {
    var none := Assignment(map[], map[]);
    var adopted := AdoptPolicies(s, c, discovered, none);
    var a := AdoptCores(s, c, s.cores, adopted);
    ResolveCovers(s, c, discovered);
    if s.cores == [] {
      if k :| k in adopted.targets {
        AdoptedOnly(s, c, discovered, none, k);
        assert false;
      }
      assert a.targets == map[];
    } else if key in Resolve(s, c, discovered).targets {
      AdoptPoliciesKeep(s, c, discovered, none);
      AdoptCoresKeep(s, c, s.cores, adopted);
      assert s.cores[0] in s.cores && a.owners[s.cores[0]] in a.targets;
      if key in adopted.targets {
        AdoptedOnly(s, c, discovered, none, key);
        var cpu, p :| cpu in s.cores && p in discovered && Serves(s, c, p, cpu) && key == PolicyKey(p.id);
        assert StandsFor(s, c, discovered, cpu, key);
      } else {
        CoresOnly(s, c, s.cores, adopted, key);
        var cpu :| cpu in s.cores && cpu !in adopted.owners && key == PolicyKey(CpuName(cpu));
        Unserved(s, c, discovered, cpu);
        assert StandsFor(s, c, discovered, cpu, key);
      }
    }
  }

  lemma Unserved(s: Setup, c: EngineConfig, discovered: seq<Policy>, cpu: nat)
    requires cpu in s.cores && cpu !in AdoptPolicies(s, c, discovered, Assignment(map[], map[])).owners
    ensures NoneServes(s, c, discovered, cpu)
  {
    forall p | p in discovered ensures !Serves(s, c, p, cpu) {
      if Serves(s, c, p, cpu) {
        var k :| 0 <= k < |discovered| && discovered[k] == p;
        var i := SomeLast(s, c, discovered, cpu, k);
        LastAdopted(s, c, discovered, Assignment(map[], map[]), cpu, i);
      }
    }
  }

  // ---------------------------------------------------------------- one tick

  /** The readings of a policy's own workers, in order. */
  function OwnReadings(workers: seq<Worker>, readings: seq<Option<int>>, key: Key): seq<int>
    requires |readings| == |workers|
  {
    if workers == [] then []
    else
      (if workers[0].policy == key && readings[0].Some? then [readings[0].value] else [])
      + OwnReadings(workers[1..], readings[1..], key)
  }

  lemma {:induction false} OwnReadingsLast(workers: seq<Worker>, readings: seq<Option<int>>, key: Key)
    requires |readings| == |workers| && workers != []
    ensures var n := |workers| - 1;
      OwnReadings(workers, readings, key) == OwnReadings(workers[..n], readings[..n], key)
        + (if workers[n].policy == key && readings[n].Some? then [readings[n].value] else [])
  {
    var n := |workers| - 1;
    if n > 0 {
      OwnReadingsLast(workers[1..], readings[1..], key);
      assert workers[1..][..n - 1] == workers[..n][1..] && readings[1..][..n - 1] == readings[..n][1..];
    }
  }

  lemma {:induction false} SamplesMean(workers: seq<Worker>, readings: seq<Option<int>>, key: Key)
    requires |readings| == |workers|
    ensures SamplesOf(workers, readings, key) == OwnReadings(workers, readings, key)
  {
    if workers != [] {
      var n := |workers| - 1;
      SamplesMean(workers[..n], readings[..n], key);
      OwnReadingsLast(workers, readings, key);
    }
  }

  /** What a tick tells the duty controller about one policy. */
  function Heard(e: Engine, input: Input, key: Key): Feed
    requires |input.readings| == |e.workers|
  {
    Feed(OwnReadings(e.workers, input.readings, key),
         Lesser(Cap(0.0, 1.0, input.clamp), if key in e.clamps then e.clamps[key] else 1.0),
         input.load)
  }

  lemma HeardInFull(e: Engine, input: Input, key: Key)
    requires |input.readings| == |e.workers|
    ensures FeedFor(e, input, key) == Heard(e, input, key)
  {
    SamplesMean(e.workers, input.readings, key);
  }

  lemma {:induction false} OneUpdateEach(e: Engine, input: Input, keys: seq<Key>, key: Key)
    requires |input.readings| == |e.workers| && Distinct(keys)
    ensures Mine(Updates(e, input, keys), key) == if key in keys then [Update(key, FeedFor(e, input, key))] else []
  {
    if keys != [] {
      assert Updates(e, input, keys)[1..] == Updates(e, input, keys[1..]);
      assert Distinct(keys[1..]) && keys[0] !in keys[1..];
      assert key in keys <==> key == keys[0] || key in keys[1..];
      OneUpdateEach(e, input, keys[1..], key);
    }
  }

  /**
   A tick updates every targeted policy once, whatever the order: with the readings of its own
   workers alone, under the stricter of the guard's clamp and its own, and with the external load.
   */
  lemma TickUpdatesOnce(e: Engine, input: Input, key: Key)
    requires EngineInv(e) && ValidInput(e, input) && key in e.targets
    ensures var c, after := e.controller, Tick(e, input).controller; var feed := Heard(e, input, key);
      && StateOf(after, key) == NextCell(c.settings, e.targets[key], StateOf(c, key), feed)
      && Judged(after, key) == e.targets[key] && after.settings == c.settings
      && PolicyDuty(e, input, key) == Output(c.settings, e.targets[key], StateOf(c, key), feed)
  {
    var c, ops := e.controller, Updates(e, input, input.order);
    HeardInFull(e, input, key);
    UpdateObserved(c, key, FeedFor(e, input, key), key);
    OneUpdateEach(e, input, input.order, key);
    NonInterference(c, ops, key);
    var update := Update(key, FeedFor(e, input, key));
    OneSoloStep(SoloOf(c, key), key, update);
    assert key in c.cells <==> key in c.targets;
    SeenAlone(Tick(e, input).controller, key);
  }

  lemma OneSoloStep(s: Solo, key: Key, op: Op)
    requires ValidOp(op)
    ensures (forall o :: o in [op] ==> ValidOp(o)) && SoloRun(s, key, [op]) == SoloDo(s, key, op)
  {
    assert [op][1..] == [];
  }

  lemma SeenAlone(c: Controller, key: Key)
    requires Consistent(c) && SoloOf(c, key).cell.Some? && SoloOf(c, key).target.Some?
    ensures StateOf(c, key) == SoloOf(c, key).cell.value && Judged(c, key) == SoloOf(c, key).target.value
    ensures c.settings == SoloOf(c, key).settings
  {
  }

  /** A tick changes duties, the controller and, with turns, those of policies with workers; nothing else. */
  lemma TickLeaves(e: Engine, input: Input, key: Key)
    requires EngineInv(e) && ValidInput(e, input)
    ensures var after := Tick(e, input);
      && after == e.(controller := after.controller, workers := after.workers, turns := after.turns)
      && |after.workers| == |e.workers| && (!e.setup.roundRobin ==> after.turns == e.turns)
      && (key !in e.targets || Peers(e.workers, key) == [] ==> Get(after.turns, key, 0) == Get(e.turns, key, 0))
  {
  }

  // ---------------------------------------------------------------- the other commands

  /** Starting gives every selected core one new worker, in order, and the first turn to the first. */
  lemma StartMeans(e: Engine, duty: real, i: nat, key: Key)
    requires EngineInv(e) && i < |e.setup.cores|
    ensures var after := Engines.Perform(e, StartWorkers(duty)); var cpu := e.setup.cores[i];
      && |after.workers| == |e.setup.cores|
      && after.workers[i] == Worker(cpu, e.owners[cpu], duty, e.targets[e.owners[cpu]])
      && (Peers(after.workers, key) != [] ==> Turn(after, key) == 0)
      && after == e.(workers := after.workers, turns := after.turns)
    ensures Engines.Perform(e, StopWorkers) == e.(workers := [])
  {
    assert e.setup.cores[i] in e.setup.cores;
  }

  /** The clamp of one known policy is set, inside [0, 1]; an unknown one changes nothing. */
  lemma ClampMeans(e: Engine, key: Key, factor: real)
    requires EngineInv(e)
    ensures var after := Engines.Perform(e, ClampPolicy(key, factor));
      if key in e.targets then
        && after == e.(clamps := after.clamps) && after.clamps.Keys == e.clamps.Keys
        && (forall k :: k in e.clamps ==> after.clamps[k] == if k == key then Cap(0.0, 1.0, factor) else e.clamps[k])
      else after == e
  {
  }

  /**
   A reconfiguration that is accepted: configuration, owners and targets are the new ones; every
   policy is judged by its new target, under the new settings, in the state it was in; clamps stay
   with their policies; and every worker keeps its core and duty and follows the core's new owner.
   */
  lemma RetuneMeans(e: Engine, config: EngineConfig, discovered: seq<Policy>, first: Key, key: Key, i: nat)
    requires EngineInv(e) && first in Resolve(e.setup, config, discovered).targets
    requires Acceptable(Resolve(e.setup, config, discovered).targets)
    ensures var a := Resolve(e.setup, config, discovered);
      var after := Engines.Perform(e, Retune(config, discovered, first)); var s := after.controller.settings;
      && after.setup == e.setup && after.config == config && after.turns == e.turns
      && Assignment(after.owners, after.targets) == a && after.clamps.Keys == a.targets.Keys
      && s == Settings(config.minDuty, config.maxDuty, config.step, e.controller.settings.yieldAt)
      && (key in a.targets ==>
            && Judged(after.controller, key) == a.targets[key]
            && StateOf(after.controller, key) == StateOf(e.controller, key)
            && after.clamps[key] == (if key in e.clamps then e.clamps[key] else 1.0))
      && |after.workers| == |e.workers|
      && (i < |e.workers| ==>
            var w := e.workers[i];
            && w.cpu in a.owners && a.owners[w.cpu] in a.targets
            && after.workers[i] == Worker(w.cpu, a.owners[w.cpu], w.duty, a.targets[a.owners[w.cpu]]))
  {
    var a := Resolve(e.setup, config, discovered);
    ResolveCovers(e.setup, config, discovered);
    RetargetObserved(e.controller, a.targets, first, key);
    TuneObserved(Do(e.controller, Retarget(a.targets, first)), config.minDuty, config.maxDuty, config.step, key);
    if i < |e.workers| { assert e.workers[i] in e.workers; }
  }

  /** One that is refused leaves controller, workers and turns as they were, and the rest half done. */
  lemma RefusedRetuneMeans(e: Engine, config: EngineConfig, discovered: seq<Policy>, first: Key, key: Key)
    requires EngineInv(e) && first in Resolve(e.setup, config, discovered).targets
    requires !Acceptable(Resolve(e.setup, config, discovered).targets)
    ensures var a := Resolve(e.setup, config, discovered);
      var after := Engines.Perform(e, Retune(config, discovered, first));
      && after == e.(config := config, owners := a.owners, targets := a.targets, clamps := after.clamps)
      && after.clamps.Keys == a.targets.Keys
      && (key in a.targets ==> after.clamps[key] == if key in e.clamps then e.clamps[key] else 1.0)
  {
  }

  /** A new engine: no workers, no local clamps, yielding at a quarter, every policy at the least duty. */
  lemma BuiltMeans(s: Setup, c: EngineConfig, discovered: seq<Policy>, first: Key, key: Key)
    requires first in Resolve(s, c, discovered).targets && c.minDuty <= c.maxDuty
    ensures var a := Resolve(s, c, discovered); var e := Built(s, c, discovered, first);
      && e.setup == s && e.config == c && Assignment(e.owners, e.targets) == a && e.workers == []
      && e.controller.settings == Settings(c.minDuty, c.maxDuty, c.step, 25.0)
      && e.controller.legacy == (if s.cores == [] then DefaultKey else first)
      && StateOf(e.controller, key) == Cell(c.minDuty, 0, 0, None, 1.0, 0.0)
      && (key in a.targets ==> Judged(e.controller, key) == a.targets[key] && key in e.clamps && e.clamps[key] == 1.0)
      && (key !in a.targets ==> Judged(e.controller, key) == if Wish(c).Some? then Wish(c).value else 4000000)
  {
    OnlyCoresAreAimedAt(s, c, discovered, DefaultKey);
  }
}
