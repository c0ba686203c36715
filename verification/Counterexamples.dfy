/**
 Inputs on which the program falls short of its intent: each shows that a condition of a main
 theorem cannot be dropped.
 */
module Counterexamples {
  import opened Common
  import opened Kernel
  import opened Policies
  import opened Planning
  import opened Transaction
  import opened Daemons
  import opened DaemonLaws
  import opened RunLaws
  import opened WillingRuns
  import Thermal

  // ---------------------------------------------------------------- a small machine

  const DIR: Dir := PolicyDir(0)
  const ENTRY: Candidate := Candidate(PolicyName(0), DIR, [0])
  const IDLE: Node := CpuIdleDisable(0, 1)

  /** One policy with all required files, two governors and no optional control, and one idle state. */
  const TREE: Nodes := map[
    PolicyFile(DIR, ScalingGovernor) := Text([Name("powersave")]),
    PolicyFile(DIR, ScalingAvailableGovernors) := Text([Name("performance"), Name("powersave")]),
    PolicyFile(DIR, ScalingMinFreq) := Number(800000),
    PolicyFile(DIR, ScalingMaxFreq) := Number(4000000),
    PolicyFile(DIR, CpuinfoMinFreq) := Number(800000),
    PolicyFile(DIR, CpuinfoMaxFreq) := Number(4000000),
    IDLE := Number(0)]

  /** Every attempt succeeds. */
  const MACHINE: Env := Env(Oracle((k: nat) => true, (k: nat) => true), [ENTRY], [IDLE], (nodes: Nodes) => nodes)

  /** Nothing fails, and there is no latency device. */
  const UP: StartFaults := StartFaults(true, true, true, true, false, true, Starts, true, true)
  const LOCK: LockFaults := LockFaults(true, true, false, Starts)
  const LOCK_WITHOUT_WORKERS: LockFaults := LockFaults(true, true, false, WorkersFail)

  lemma TreeIsUsable()
    ensures var p := Inventory(TREE, ENTRY);
      && p.usable && p.governors == [Name("performance"), Name("powersave")]
      && p.limits == Limits(Some(800000), Some(4000000), Some(800000), Some(4000000))
    ensures Kept([ENTRY], {}) == [ENTRY]
  {
    assert [ENTRY][1..] == [];
    assert CapabilityOf(TREE, ENTRY, Governor) == Available;
    assert CapabilityOf(TREE, ENTRY, ActiveMin) == Available;
    assert CapabilityOf(TREE, ENTRY, ActiveMax) == Available;
  }

  /** Every configuration has a plan here, and the policy takes a floor under it. */
  lemma TreeIsPlanned(c: Config)
    ensures WillingEnv(MACHINE, TREE) && NothingFails(UP)
    ensures BuildPlan(TREE, [ENTRY], RequestOf(c), []).Success? && TakesFloor(MACHINE, TREE, c, ENTRY)
  {
    TreeIsUsable();
    DiscoveredFromKept(TREE, [ENTRY], Inventory(TREE, ENTRY));
  }

  /** A failed engine start breaks the agreement. */
  lemma LockCanLoseTheEngine(c: Config)
    ensures var d := Initial(c, TREE); AgreeInv(d) && !Agrees(Lock(MACHINE, d, LOCK_WITHOUT_WORKERS))
  {
    TreeIsPlanned(c);
    LockLosesItsEngine(MACHINE, c, TREE, LOCK_WITHOUT_WORKERS);
  }

  /** And after it a run can end with an idle state disabled that was enabled before the start. */
  lemma SecondLockForgetsIdleStates(c: Config)
    ensures var up := Start(MACHINE, Initial(c, TREE), UP);
      var lost := Lock(MACHINE, Unlock(MACHINE, up), LOCK_WITHOUT_WORKERS);
      var final := Stop(MACHINE, Lock(MACHINE, lost, LOCK), true);
      && TREE[IDLE] == Number(0) && Holds(final.world.sys.nodes, IDLE, Number(1))
      && AtRest(Initial(c, TREE)) && up.state.Running? && final.state.Stopped? && final.snapshot.None?
  {
    TreeIsPlanned(c);
    FallbackPathsRead(TREE, [IDLE]);
    SecondLockForgets(MACHINE, TREE, c, UP, LOCK_WITHOUT_WORKERS, LOCK, ENTRY, IDLE);
  }

  /** A run that starts at "powersave" and whose second governor only is offered ends with that governor. */
  lemma UncoveredGovernorEscapes(first: Config, later: Config)
    requires first.governor == Name("schedutil") && later.governor == Name("performance")
    ensures AtRest(Initial(first, TREE)) && Start(MACHINE, Initial(first, TREE), UP).state.Running?
    ensures var final := RelockedRun(MACHINE, TREE, first, later, UP, LOCK);
      && Holds(final.world.sys.nodes, PolicyFile(DIR, ScalingGovernor), Text([later.governor]))
      && final.state.Stopped? && final.snapshot.None?
  {
    TreeIsPlanned(first);
    UncoveredHere(first, later);
    UncoveredGovernorStays(MACHINE, TREE, ENTRY, first, later, UP, LOCK);
  }

  lemma UncoveredHere(first: Config, later: Config)
    requires first.governor == Name("schedutil") && later.governor == Name("performance")
    ensures Uncovered(MACHINE, TREE, ENTRY, first, later)
  {
    TreeIsUsable();
    TreeIsPlanned(first);
  }

  // ---------------------------------------------------------------- a run that does something

  /** The run theorems are about real runs: on this machine a start succeeds and raises the floor. */
  lemma StartRaisesTheFloor(c: Config)
    requires c.target.None?
    ensures var d := Initial(c, TREE); var up := Start(MACHINE, d, UP); var n := PolicyFile(DIR, ScalingMinFreq);
      && TREE[n] == Number(800000) && Holds(up.world.sys.nodes, n, Number(4000000))
      && AtRest(d) && up.state.Running? && Stop(MACHINE, up, true).world.sys.nodes == TREE
  {
    TreeIsUsable();
    TreeIsPlanned(c);
    StartThenStop(MACHINE, TREE, c, UP, ENTRY);
  }

  // ---------------------------------------------------------------- an out-of-range temperature

  /**
   An out-of-range reading leaves the history alone and repeats its last raw entry, not the median.
   */
  lemma OutOfRangeRepeatsLastRaw(c: Thermal.FilterConfig, samples: seq<real>, val: real)
    requires Thermal.ValidFilter(c) && !Thermal.Accepts(c, val) && Thermal.HistoryOf(c, samples) != []
    ensures var h := Thermal.HistoryOf(c, samples); var out := Thermal.Filtered(c, h, val);
      && out == h[|h| - 1]
      && Thermal.HistoryOf(c, samples + [val]) == h
  {
    assert (samples + [val])[..|samples|] == samples;
  }

  /** So a spike the median suppressed comes through on the next out-of-range reading. */
  lemma SuppressedSpikeReturns()
    ensures var c := Thermal.FilterConfig(3, -20.0, 130.0); var samples := [40.0, 40.0, 90.0];
      var window := Thermal.HistoryOf(c, samples);
      && 2 * Thermal.Within(window, 0.0, 50.0) > |window|
      && Thermal.Filtered(c, Thermal.HistoryOf(c, [40.0, 40.0]), 90.0) <= 50.0
      && Thermal.Filtered(c, window, 200.0) == 90.0
  {
    var c := Thermal.FilterConfig(3, -20.0, 130.0);
    var one, two, three := [40.0], [40.0, 40.0], [40.0, 40.0, 90.0];
    assert one[..0] == [] && two[..1] == one && three[..2] == two;
    assert Thermal.HistoryOf(c, one) == one;
    assert Thermal.HistoryOf(c, two) == two;
    assert Thermal.HistoryOf(c, three) == three;
    assert Thermal.Within(three, 0.0, 50.0) == 2 by {
      assert three[1..] == [40.0, 90.0] && [40.0, 90.0][1..] == [90.0] && [90.0][1..] == [];
    }
    Thermal.MajorityRulesMedian(three, 0.0, 50.0);
    OutOfRangeRepeatsLastRaw(c, three, 200.0);
  }
}
