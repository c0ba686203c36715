/**
 A value lost in silence: two policies whose boost files differ, planned with boost on, and restored
 where both files have gone and the shared switch has come.
 */
module BoostCounterexample {
  import opened Common
  import opened Kernel
  import opened Policies
  import opened Planning
  import opened PlanLaws
  import opened Snapshots
  import opened SnapshotLaws
  import opened HonestyLaws

  const ZERO: Candidate := Candidate(PolicyName(0), PolicyDir(0), [0])
  const ONE: Candidate := Candidate(PolicyName(1), PolicyDir(1), [1])

  /** The required files of both policies. */
  const REQUIRED: Nodes := map[
    PolicyFile(PolicyDir(0), ScalingGovernor) := Text([Name("powersave")]),
    PolicyFile(PolicyDir(0), ScalingMinFreq) := Number(800000),
    PolicyFile(PolicyDir(0), ScalingMaxFreq) := Number(4000000),
    PolicyFile(PolicyDir(1), ScalingGovernor) := Text([Name("powersave")]),
    PolicyFile(PolicyDir(1), ScalingMinFreq) := Number(800000),
    PolicyFile(PolicyDir(1), ScalingMaxFreq) := Number(4000000)]

  /** Both have a boost file of their own: off for the first, on for the second. */
  const LOCAL: Nodes :=
    REQUIRED[PolicyFile(PolicyDir(0), LocalBoost) := Number(0)][PolicyFile(PolicyDir(1), LocalBoost) := Number(1)]

  /** Later there is only the shared switch. */
  const SHARED: Nodes := REQUIRED[SharedBoost := Number(1)]

  lemma EntriesKept()
    ensures Coherent([ZERO, ONE]) && Kept([ZERO, ONE], {}) == [ZERO, ONE]
  {
    assert [ZERO, ONE][1..] == [ONE] && [ONE][1..] == [];
    assert Kept([ONE], {PolicyDir(0)}) == [ONE] + Kept([], {PolicyDir(0)} + {PolicyDir(1)});
    assert Kept([ZERO, ONE], {}) == [ZERO] + Kept([ONE], {} + {PolicyDir(0)});
    assert {} + {PolicyDir(0)} == {PolicyDir(0)};
  }

  lemma ZeroOffersBoost()
    ensures var p := Inventory(LOCAL, ZERO); p.usable && p.Offers(Boost) && !p.Offers(Cpb) && !p.Offers(Epp)
  {
    assert CapabilityOf(LOCAL, ZERO, Governor) == Available;
    assert CapabilityOf(LOCAL, ZERO, ActiveMin) == Available;
    assert CapabilityOf(LOCAL, ZERO, ActiveMax) == Available;
    assert CapabilityOf(LOCAL, ZERO, Boost) == Available;
  }

  lemma OneOffersBoost()
    ensures var p := Inventory(LOCAL, ONE); p.usable && p.Offers(Boost) && !p.Offers(Cpb) && !p.Offers(Epp)
  {
    assert CapabilityOf(LOCAL, ONE, Governor) == Available;
    assert CapabilityOf(LOCAL, ONE, ActiveMin) == Available;
    assert CapabilityOf(LOCAL, ONE, ActiveMax) == Available;
    assert CapabilityOf(LOCAL, ONE, Boost) == Available;
  }

  lemma SharedNodes(c: Candidate)
    requires c == ZERO || c == ONE
    ensures SharedBoost in SHARED && PolicyFile(c.dir, LocalBoost) !in SHARED
    ensures PolicyFile(c.dir, ScalingGovernor) in SHARED && PolicyFile(c.dir, ScalingMinFreq) in SHARED
  {
  }

  lemma SharedControls(c: Candidate, k: Control)
    requires c == ZERO || c == ONE
    requires k.Governor? || k.ActiveMin? || k.Boost?
    ensures k in Inventory(SHARED, c).writable && ControlNode(SHARED, c, Boost) == Some(SharedBoost)
  {
    SharedNodes(c);
    InventoryControl(SHARED, c, k);
  }

  lemma OffersOnlyBoost(c: Candidate, req: Request, k: Control)
    requires c == ZERO || c == ONE
    ensures Inventory(LOCAL, c).usable && Inventory(LOCAL, c).Offers(Boost)
    ensures Wants(Inventory(LOCAL, c), req, k) ==> k.Governor? || k.ActiveMin? || k.Boost?
  {
    ZeroOffersBoost();
    OneOffersBoost();
  }

  /** Whatever else is requested: nothing is reported, and one of the two values is lost. */
  lemma BoostLostInSilence(o: Oracle, req: Request)
    requires o.UndoWorks() && req.boost == Some(true)
    ensures BuildPlan(LOCAL, [ZERO, ONE], req, []).Success?
    ensures var snap := CreateSnapshot(LOCAL, [ZERO, ONE], BuildPlan(LOCAL, [ZERO, ONE], req, []).value.actions);
      var st := RestoreSnapshot(o, Sys(SHARED, []), Some([ZERO, ONE]), snap);
      st.errors == [] && !Honest(st, DiscoverPolicies(SHARED, [ZERO, ONE]), snap)
  {
    BoostsPlanned(req);
    NodesRemain(req);
    var actions := BuildPlan(LOCAL, [ZERO, ONE], req, []).value.actions;
    SharedBoostLosesAValue(o, LOCAL, [ZERO, ONE], req, actions, Sys(SHARED, []), ZERO, ONE);
  }

  lemma NodesRemain(req: Request)
    ensures forall c, k :: c in Kept([ZERO, ONE], {}) && Wants(Inventory(LOCAL, c), req, k) ==>
              k in Inventory(SHARED, c).writable
    ensures forall c :: c in Kept([ZERO, ONE], {}) ==> ControlNode(SHARED, c, Boost) == Some(SharedBoost)
  {
    EntriesKept();
    forall c, k | c in Kept([ZERO, ONE], {}) && Wants(Inventory(LOCAL, c), req, k)
      ensures k in Inventory(SHARED, c).writable
    {
      OffersOnlyBoost(c, req, k);
      SharedControls(c, k);
    }
    forall c | c in Kept([ZERO, ONE], {}) ensures ControlNode(SHARED, c, Boost) == Some(SharedBoost) {
      SharedControls(c, Boost);
    }
  }

  lemma BoostsPlanned(req: Request)
    requires req.boost == Some(true)
    ensures Coherent([ZERO, ONE]) && BuildPlan(LOCAL, [ZERO, ONE], req, []).Success?
    ensures OwnBoost(LOCAL, [ZERO, ONE], req, ZERO) && OwnBoost(LOCAL, [ZERO, ONE], req, ONE)
    ensures LOCAL[PolicyFile(ZERO.dir, LocalBoost)] != LOCAL[PolicyFile(ONE.dir, LocalBoost)]
  {
    EntriesKept();
    OffersOnlyBoost(ZERO, req, Boost);
    OffersOnlyBoost(ONE, req, Boost);
    DiscoveredFromKept(LOCAL, [ZERO, ONE], Inventory(LOCAL, ZERO));
  }
}
