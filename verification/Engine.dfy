/**
 The pulse engine (boostlock/engine.py): which policy owns which worker, one tick of the closed
 loop, one period of a worker, and the commands that change them.
 */
module Engines {
  import opened Arithmetic
  import opened Common
  import opened Policies
  import opened Planning
  import opened Duty

  // ---------------------------------------------------------------- targets

  datatype EngineConfig = EngineConfig(target: Option<int>, minDuty: real, maxDuty: real, step: real)

  /** None stands for the automatic target. */
  function Requested(c: EngineConfig): Option<int> { if IsPositive(c.target) then c.target else None }

  function FallbackTarget(c: EngineConfig): int { if IsPositive(c.target) then c.target.value else 4000000 }

  /** One policy's own bounds; without them the request itself. */
  function EngineTarget(l: Limits, requested: Option<int>): Option<int> {
    var lower := MaxPositive(l.hardwareMin, l.activeMin);
    var upper := MinPositive(l.hardwareMax, l.activeMax);
    if lower.None? || upper.None? then requested
    else if lower.value > upper.value then None
    else Some(Planning.Clamp(if requested.Some? then requested.value else upper.value, lower.value, upper.value))
  }

  datatype Assignment = Assignment(owners: map<nat, Key>, targets: map<Key, int>)

  /** What the engine was built with: its cores and the targets configured by name. */
  datatype Setup = Setup(cores: seq<nat>, configured: map<Key, int>, roundRobin: bool)

  function TargetOf(s: Setup, c: EngineConfig, p: Policy): Option<int> {
    if PolicyKey(p.id) in s.configured then Some(s.configured[PolicyKey(p.id)])
    else EngineTarget(p.limits, Requested(c))
  }

  /** A policy takes part when it has a selected core and a target. */
  predicate Takes(s: Setup, c: EngineConfig, p: Policy) {
    (exists cpu :: cpu in p.cpus && cpu in s.cores) && TargetOf(s, c, p).Some?
  }

  function AdoptPolicy(s: Setup, c: EngineConfig, p: Policy, a: Assignment): Assignment {
    if !Takes(s, c, p) then a
    else Assignment(
      a.owners + (map cpu | cpu in p.cpus && cpu in s.cores :: PolicyKey(p.id)),
      a.targets[PolicyKey(p.id) := TargetOf(s, c, p).value])
  }

  function AdoptPolicies(s: Setup, c: EngineConfig, ps: seq<Policy>, a: Assignment): Assignment
    decreases ps
  {
    if ps == [] then a else AdoptPolicies(s, c, ps[1..], AdoptPolicy(s, c, ps[0], a))
  }

  function AdoptCore(s: Setup, c: EngineConfig, cpu: nat, a: Assignment): Assignment {
    if cpu in a.owners then a
    else
      var key := PolicyKey(CpuName(cpu));
      Assignment(a.owners[cpu := key],
                 a.targets[key := if key in s.configured then s.configured[key] else FallbackTarget(c)])
  }

  function AdoptCores(s: Setup, c: EngineConfig, cores: seq<nat>, a: Assignment): Assignment
    decreases cores
  {
    if cores == [] then a else AdoptCores(s, c, cores[1..], AdoptCore(s, c, cores[0], a))
  }

  /** Owners and targets for the selected cores, given the policies discovery found (none if it failed). */
  function Resolve(s: Setup, c: EngineConfig, discovered: seq<Policy>): Assignment {
    var a := AdoptCores(s, c, s.cores, AdoptPolicies(s, c, discovered, Assignment(map[], map[])));
    if a.targets == map[] then a.(targets := map[DefaultKey := FallbackTarget(c)]) else a
  }

  ghost predicate OwnersTargeted(a: Assignment) {
    forall cpu :: cpu in a.owners ==> a.owners[cpu] in a.targets
  }

  /** A target configured under the name of its policy is taken as it is, and any other is positive. */
  ghost predicate TargetsSound(s: Setup, targets: map<Key, int>) {
    forall k :: k in targets ==>
      k.PolicyKey? && if k in s.configured then targets[k] == s.configured[k] else targets[k] > 0
  }

  lemma {:induction false} AdoptPoliciesKeep(s: Setup, c: EngineConfig, ps: seq<Policy>, a: Assignment)
    requires OwnersTargeted(a) && TargetsSound(s, a.targets)
    ensures var r := AdoptPolicies(s, c, ps, a);
      && OwnersTargeted(r) && TargetsSound(s, r.targets)
      && forall cpu :: cpu in a.owners ==> cpu in r.owners
    decreases ps
  {
    if ps != [] { AdoptPoliciesKeep(s, c, ps[1..], AdoptPolicy(s, c, ps[0], a)); }
  }

  lemma {:induction false} AdoptCoresKeep(s: Setup, c: EngineConfig, cores: seq<nat>, a: Assignment)
    requires OwnersTargeted(a) && TargetsSound(s, a.targets)
    ensures var r := AdoptCores(s, c, cores, a);
      && OwnersTargeted(r) && TargetsSound(s, r.targets)
      && (forall cpu :: cpu in a.owners ==> cpu in r.owners && r.owners[cpu] == a.owners[cpu])
      && forall cpu :: cpu in cores ==> cpu in r.owners
    decreases cores
  {
    if cores != [] { AdoptCoresKeep(s, c, cores[1..], AdoptCore(s, c, cores[0], a)); }
  }

  /**
   Resolution is total: every selected core has an owner inside the target map, the target map is
   never empty, a target configured by name is taken as it is, and every other one is positive.
   */
  lemma ResolveCovers(s: Setup, c: EngineConfig, discovered: seq<Policy>)
    ensures var a := Resolve(s, c, discovered);
      && (forall cpu :: cpu in s.cores ==> cpu in a.owners && a.owners[cpu] in a.targets)
      && a.targets != map[]
      && (forall k :: k in a.targets ==>
            if k.PolicyKey? && k in s.configured then a.targets[k] == s.configured[k] else a.targets[k] > 0)
  {
    var none := Assignment(map[], map[]);
    AdoptPoliciesKeep(s, c, discovered, none);
    AdoptCoresKeep(s, c, s.cores, AdoptPolicies(s, c, discovered, none));
    var a := AdoptCores(s, c, s.cores, AdoptPolicies(s, c, discovered, none));
    if a.targets == map[] {
      assert forall cpu :: cpu !in s.cores;
      assert DefaultKey in Resolve(s, c, discovered).targets;
    }
  }

  /** The policies that may own a core. */
  ghost predicate MayOwn(s: Setup, c: EngineConfig, discovered: seq<Policy>, cpu: nat, key: Key) {
    exists p :: p in discovered && Takes(s, c, p) && cpu in p.cpus && key == PolicyKey(p.id)
  }

  lemma {:induction false} AdoptPoliciesOwn(s: Setup, c: EngineConfig, ps: seq<Policy>, a: Assignment, cpu: nat)
    requires cpu in s.cores
    ensures var r := AdoptPolicies(s, c, ps, a);
      && (cpu in r.owners <==> cpu in a.owners || exists p :: p in ps && Takes(s, c, p) && cpu in p.cpus)
      && (cpu in r.owners ==> MayOwn(s, c, ps, cpu, r.owners[cpu]) || (cpu in a.owners && r.owners[cpu] == a.owners[cpu]))
    decreases ps
  {
    if ps != [] {
      var next := AdoptPolicy(s, c, ps[0], a);
      AdoptPoliciesOwn(s, c, ps[1..], next, cpu);
      assert forall p :: p in ps <==> p == ps[0] || p in ps[1..];
      var r := AdoptPolicies(s, c, ps, a);
      if cpu in r.owners && MayOwn(s, c, ps[1..], cpu, r.owners[cpu]) {
        var p :| p in ps[1..] && Takes(s, c, p) && cpu in p.cpus && r.owners[cpu] == PolicyKey(p.id);
        assert p in ps;
      }
    }
  }

  /**
   Ownership never crosses policies: a selected core belongs to a discovered policy that lists it
   and has a target, and to a policy of its own exactly when no such policy exists.
   */
  lemma OwnersListTheCore(s: Setup, c: EngineConfig, discovered: seq<Policy>, cpu: nat)
    requires cpu in s.cores
    ensures var owners := Resolve(s, c, discovered).owners;
      && cpu in owners
      && if exists p :: p in discovered && Takes(s, c, p) && cpu in p.cpus
         then MayOwn(s, c, discovered, cpu, owners[cpu])
         else owners[cpu] == PolicyKey(CpuName(cpu))
  {
    var none := Assignment(map[], map[]);
    var adopted := AdoptPolicies(s, c, discovered, none);
    AdoptPoliciesOwn(s, c, discovered, none, cpu);
    AdoptPoliciesKeep(s, c, discovered, none);
    AdoptCoresKeep(s, c, s.cores, adopted);
    AdoptCoresOwn(s, c, s.cores, adopted, cpu);
  }

  lemma {:induction false} AdoptCoresOwn(s: Setup, c: EngineConfig, cores: seq<nat>, a: Assignment, cpu: nat)
    requires cpu in cores || cpu in a.owners
    ensures var r := AdoptCores(s, c, cores, a);
      cpu in r.owners && r.owners[cpu] == if cpu in a.owners then a.owners[cpu] else PolicyKey(CpuName(cpu))
    decreases cores
  {
    if cores != [] { AdoptCoresOwn(s, c, cores[1..], AdoptCore(s, c, cores[0], a), cpu); }
  }

  /**
   Planner and engine resolve the same target for a policy exactly when its bounds are known or
   nothing was requested: without bounds the planner refuses and the engine takes the request.
   */
  lemma EngineAgreesWithPlanner(l: Limits, requested: Option<int>)
    ensures EngineTarget(l, requested) == EffectiveTarget(l, requested) <==>
              requested.None? ||
              ((IsPositive(l.hardwareMin) || IsPositive(l.activeMin))
               && (IsPositive(l.hardwareMax) || IsPositive(l.activeMax)))
  {
  }

  // ---------------------------------------------------------------- the engine

  datatype Worker = Worker(cpu: nat, policy: Key, duty: real, target: int)

  /** turns: for each policy, one past the worker that had the last turn. */
  datatype Engine = Engine(
    setup: Setup, config: EngineConfig, owners: map<nat, Key>, targets: map<Key, int>,
    clamps: map<Key, real>, controller: Controller, workers: seq<Worker>, turns: map<Key, nat>)

  function Get<K, V>(m: map<K, V>, k: K, otherwise: V): V { if k in m then m[k] else otherwise }

  /** What one tick reads: the guard's clamp, the load, a frequency per worker, and the policy order. */
  datatype Input = Input(clamp: real, load: real, readings: seq<Option<int>>, order: seq<Key>)

  ghost predicate ValidInput(e: Engine, input: Input) {
    && |input.readings| == |e.workers|
    && Distinct(input.order)
    && forall k :: k in input.order <==> k in e.targets
  }

  function SamplesOf(workers: seq<Worker>, readings: seq<Option<int>>, key: Key): seq<int>
    requires |readings| == |workers|
  {
    if workers == [] then []
    else
      var n := |workers| - 1;
      SamplesOf(workers[..n], readings[..n], key)
      + (if workers[n].policy == key && readings[n].Some? then [readings[n].value] else [])
  }

  /** Positions of a policy's workers. */
  function Peers(workers: seq<Worker>, key: Key): (r: seq<nat>)
    ensures forall j :: 0 <= j < |r| ==> r[j] < |workers|
  {
    if workers == [] then []
    else
      var n := |workers| - 1;
      Peers(workers[..n], key) + (if workers[n].policy == key then [n] else [])
  }

  /** The stricter of the guard's clamp and the policy's own. */
  function PolicyClamp(e: Engine, clamp: real, key: Key): real {
    Lesser(Cap(0.0, 1.0, clamp), Get(e.clamps, key, 1.0))
  }

  function FeedFor(e: Engine, input: Input, key: Key): Feed
    requires |input.readings| == |e.workers|
  {
    Feed(SamplesOf(e.workers, input.readings, key), PolicyClamp(e, input.clamp, key), input.load)
  }

  /** The duty one policy is given by a tick. */
  function PolicyDuty(e: Engine, input: Input, key: Key): real
    requires |input.readings| == |e.workers| && Consistent(e.controller)
  {
    OutputOf(e.controller, key, FeedFor(e, input, key))
  }

  /** A counter folded into a cycle of n positions: its remainder, by repeated subtraction. */
  function Wrapped(a: nat, n: nat): (r: nat)
    requires n > 0
    ensures r < n
  {
    if a < n then a else Wrapped(a - n, n)
  }

  lemma {:induction false} WrappedIsRemainder(a: nat, n: nat)
    requires n > 0
    ensures Wrapped(a, n) == a % n
  {
    if a >= n {
      WrappedIsRemainder(a - n, n);
      RemainderIsUnique(a, n, (a - n) / n + 1, (a - n) % n);
    }
  }

  lemma RemainderIsUnique(a: nat, n: nat, q: int, r: nat)
    requires n > 0 && r < n && a == q * n + r
    ensures a % n == r
  {
    var k := a / n - q;
    assert n * k == r - a % n;
    if k >= 1 { AtLeastOnce(n, k); assert false; }
    if k <= -1 { AtMostMinusOnce(n, k); assert false; }
  }

  lemma AtMostMinusOnce(n: nat, k: int)
    requires k <= -1
    ensures n * k + n <= 0
  {
  }

  lemma AtLeastOnce(n: nat, k: int)
    requires k >= 1
    ensures n * k >= n
  {
  }

  /** The position whose turn it is, among n workers. */
  function TurnOf(turns: map<Key, nat>, key: Key, n: nat): (t: nat)
    requires n > 0
    ensures t < n
  {
    Wrapped(Get(turns, key, 0), n)
  }

  /** What one worker gets of its policy's duty. */
  function ShareOf(e: Engine, key: Key, i: nat, duty: real): real {
    var peers := Peers(e.workers, key);
    if e.setup.roundRobin && peers != [] && peers[TurnOf(e.turns, key, |peers|)] != i then 0.0
    else Cap(0.0, 100.0, duty)
  }

  /** The duty of one worker after a tick; a worker outside the target map keeps what it had. */
  function WorkerDuty(e: Engine, input: Input, i: nat): real
    requires |input.readings| == |e.workers| && Consistent(e.controller) && i < |e.workers|
  {
    var key := e.workers[i].policy;
    if key !in e.targets then e.workers[i].duty else ShareOf(e, key, i, PolicyDuty(e, input, key))
  }

  function Updates(e: Engine, input: Input, keys: seq<Key>): seq<Op>
    requires |input.readings| == |e.workers|
  {
    seq(|keys|, i requires 0 <= i < |keys| => Update(keys[i], FeedFor(e, input, keys[i])))
  }

  function NextTurns(e: Engine): map<Key, nat> {
    if !e.setup.roundRobin then e.turns
    else e.turns + (map k | k in e.targets && Peers(e.workers, k) != [] :: TurnOf(e.turns, k, |Peers(e.workers, k)|) + 1)
  }

  function Tick(e: Engine, input: Input): Engine
    requires |input.readings| == |e.workers| && Consistent(e.controller)
  {
    e.(controller := Duty.Run(e.controller, Updates(e, input, input.order)),
       workers := seq(|e.workers|, i requires 0 <= i < |e.workers| =>
                        e.workers[i].(duty := WorkerDuty(e, input, i))),
       turns := NextTurns(e))
  }

  // ---------------------------------------------------------------- commands

  datatype Command =
    | StartWorkers(duty: real)
    | StopWorkers
    | Retune(config: EngineConfig, discovered: seq<Policy>, first: Key)
    | ClampPolicy(key: Key, factor: real)
    | ControlTick(input: Input)

  /** What even a refused reconfiguration leaves of the invariant. */
  ghost predicate Whole(e: Engine) {
    && Consistent(e.controller)
    && (forall k :: k in e.clamps ==> 0.0 <= e.clamps[k] <= 1.0)
    && forall w :: w in e.workers ==> w.cpu in e.setup.cores
  }

  function OwnerOf(owners: map<nat, Key>, cpu: nat): Key { Get(owners, cpu, DefaultKey) }

  function NewWorker(e: Engine, cpu: nat, duty: real): Worker {
    var key := OwnerOf(e.owners, cpu);
    Worker(cpu, key, duty, Get(e.targets, key, FallbackTarget(e.config)))
  }

  function NewWorkers(e: Engine, duty: real): seq<Worker> {
    seq(|e.setup.cores|, i requires 0 <= i < |e.setup.cores| => NewWorker(e, e.setup.cores[i], duty))
  }

  /** Fresh workers and fresh turns. */
  function Started(e: Engine, duty: real): Engine { e.(workers := NewWorkers(e, duty), turns := map[]) }

  function Clamped(e: Engine, key: Key, factor: real): Engine {
    if key in e.targets then e.(clamps := e.clamps[key := Cap(0.0, 1.0, factor)]) else e
  }

  function Reassigned(w: Worker, a: Assignment): Worker {
    var key := OwnerOf(a.owners, w.cpu);
    w.(policy := key, target := Get(a.targets, key, w.target))
  }

  /** first is the first key of the resolved target dictionary. */
  ghost predicate ValidCommand(e: Engine, c: Command) {
    match c
    case Retune(config, discovered, first) => first in Resolve(e.setup, config, discovered).targets
    case ControlTick(input) => ValidInput(e, input)
    case _ => true
  }

  function AllReassigned(workers: seq<Worker>, a: Assignment): seq<Worker> {
    seq(|workers|, i requires 0 <= i < |workers| => Reassigned(workers[i], a))
  }

  function KeptClamps(e: Engine): map<Key, real> { map k | k in e.targets :: Get(e.clamps, k, 1.0) }

  /** Clamps, controller and workers brought in line with the engine's configuration, owners and targets. */
  function Followed(e: Engine, first: Key): Engine
    requires Consistent(e.controller) && first in e.targets
  {
    e.(clamps := KeptClamps(e),
       controller := Do(Do(e.controller, Retarget(e.targets, first)),
                        Duty.Tune(e.config.minDuty, e.config.maxDuty, e.config.step)),
       workers := AllReassigned(e.workers, Assignment(e.owners, e.targets)))
  }

  /** The configuration with its owners and targets in place, and everything else as before. */
  function Aimed(e: Engine, config: EngineConfig, discovered: seq<Policy>): Engine {
    var a := Resolve(e.setup, config, discovered);
    e.(config := config, owners := a.owners, targets := a.targets)
  }

  /**
   A reconfiguration. The controller refuses targets that are not positive; configuration, owners,
   targets and clamps are then already new, and the workers still as they were.
   */
  function Retuned(e: Engine, config: EngineConfig, discovered: seq<Policy>, first: Key): Engine
    requires Consistent(e.controller) && first in Resolve(e.setup, config, discovered).targets
  {
    var aimed := Aimed(e, config, discovered);
    if Acceptable(aimed.targets) then Followed(aimed, first) else aimed.(clamps := KeptClamps(aimed))
  }

  function Perform(e: Engine, c: Command): Engine
    requires Consistent(e.controller) && ValidCommand(e, c)
  {
    match c
    case StartWorkers(duty) => Started(e, duty)
    case StopWorkers => e.(workers := [])
    case Retune(config, discovered, first) => Retuned(e, config, discovered, first)
    case ClampPolicy(key, factor) => Clamped(e, key, factor)
    case ControlTick(input) => Tick(e, input)
  }

  /** Every worker's policy, and every core's owner, is inside the target map of the controller. */
  ghost predicate EngineInv(e: Engine) {
    && Whole(e) && e.controller.targets == e.targets
    && (forall cpu :: cpu in e.setup.cores ==> cpu in e.owners && e.owners[cpu] in e.targets)
    && e.clamps.Keys == e.targets.Keys
    && forall w :: w in e.workers ==> w.policy == e.owners[w.cpu] && w.target == e.targets[w.policy]
  }

  /** A new engine: no workers, no turns, no local clamps, and a fresh state for every policy. */
  function Built(s: Setup, c: EngineConfig, discovered: seq<Policy>, first: Key): Engine
    requires first in Resolve(s, c, discovered).targets
  {
    var a := Resolve(s, c, discovered);
    var settings := Settings(c.minDuty, c.maxDuty, c.step, 25.0);
    var start := Cap(c.minDuty, c.maxDuty, c.minDuty);
    Engine(s, c, a.owners, a.targets, map k | k in a.targets :: 1.0,
           Controller(settings, start, FallbackTarget(c), if DefaultKey in a.targets then DefaultKey else first,
                      a.targets, map k | k in a.targets :: NewCell(start)),
           [], map[])
  }

  lemma BuiltInv(s: Setup, c: EngineConfig, discovered: seq<Policy>, first: Key)
    requires first in Resolve(s, c, discovered).targets
    ensures EngineInv(Built(s, c, discovered, first))
  {
    ResolveCovers(s, c, discovered);
  }
}
