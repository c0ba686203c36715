/**
 Restored or reported, for the snapshots the program takes: a snapshot of a plan, restored in any
 tree that is rediscovered later, whatever has vanished and whatever is refused.
 */
module HonestyLaws {
  import opened Common
  import opened Kernel
  import opened Policies
  import opened Planning
  import opened PlanLaws
  import opened Snapshots
  import opened SnapshotLaws
  import opened CaptureLaws
  import opened RelockLaws

  /** Saved boosts that now fall back to the shared switch agree on its value. */
  ghost predicate SharedBoostsAgree(live: seq<Policy>, snap: Snapshot) {
    forall s, t | s in snap && Boost in s.saved && t in snap && Boost in t.saved
        && PathTo(live, s, Boost) == Some(SharedBoost) && PathTo(live, t, Boost) == Some(SharedBoost) ::
      s.saved[Boost] == t.saved[Boost]
  }

  /** No plan ever touches the energy bias, so no snapshot of one holds it. */
  ghost predicate WithoutBias(snap: Snapshot) { forall s :: s in snap ==> Epb !in s.saved }

  lemma LiveShape(now: Nodes, found: seq<Candidate>, s: PolicySnapshot, c: Control)
    requires PathTo(DiscoverPolicies(now, found), s, c).Some?
    ensures var live := DiscoverPolicies(now, found);
      Shape(Live(live, s.id).value.dir, c, PathTo(live, s, c).value)
  {
    var p := Live(DiscoverPolicies(now, found), s.id).value;
    DiscoveryIsUnique(now, found);
    var d :| d in found && p == Inventory(now, d);
    InventoryControlOk(now, d, c);
  }

  lemma SameIdSameEntry(snap: Snapshot, s: PolicySnapshot, t: PolicySnapshot)
    requires DistinctSnapIds(snap) && s in snap && t in snap && s.id == t.id
    ensures s == t
  {
  }

  lemma OnlyBoostsShare(
    now: Nodes, found: seq<Candidate>, snap: Snapshot, s: PolicySnapshot, c: Control, t: PolicySnapshot, d: Control)
    requires DistinctSnapIds(snap) && WithoutBias(snap)
    requires s in snap && c in s.saved && t in snap && d in t.saved
    requires var live := DiscoverPolicies(now, found);
      PathTo(live, s, c).Some? && PathTo(live, s, c) == PathTo(live, t, d)
    ensures c == d && (s == t || (c.Boost? && PathTo(DiscoverPolicies(now, found), s, c) == Some(SharedBoost)))
  {
    var live := DiscoverPolicies(now, found);
    LiveShape(now, found, s, c);
    LiveShape(now, found, t, d);
    var p, q := Live(live, s.id).value, Live(live, t.id).value;
    ShapeDetermines(p.dir, q.dir, c, d, PathTo(live, s, c).value);
    if s.id == t.id {
      SameIdSameEntry(snap, s, t);
    } else {
      assert p.dir != q.dir by { DiscoveryIsUnique(now, found); }
    }
  }

  /** In a rediscovered tree, agreement is agreement on the shared boost switch. */
  lemma AgreementIsAboutBoost(now: Nodes, found: seq<Candidate>, snap: Snapshot)
    requires DistinctSnapIds(snap) && WithoutBias(snap)
    ensures Agreement(DiscoverPolicies(now, found), snap) <==> SharedBoostsAgree(DiscoverPolicies(now, found), snap)
  {
    var live := DiscoverPolicies(now, found);
    if SharedBoostsAgree(live, snap) {
      forall s, c, t, d | s in snap && c in s.saved && t in snap && d in t.saved
          && PathTo(live, s, c).Some? && PathTo(live, s, c) == PathTo(live, t, d)
        ensures s.saved[c] == t.saved[d]
      {
        OnlyBoostsShare(now, found, snap, s, c, t, d);
      }
    }
  }

  lemma PlanSnapshotSound(pre: Nodes, cs: seq<Candidate>, req: Request, actions: seq<Action>)
    requires FirstPlan(pre, cs, req, actions)
    ensures var snap := CreateSnapshot(pre, cs, actions); SoundSnapshot(snap) && WithoutBias(snap)
  {
    SnapshotHoldsPlan(pre, cs, req, []);
    var snap := CreateSnapshot(pre, cs, actions);
    forall s | s in snap ensures Epb !in s.saved {
      if Epb in s.saved {
        var a :| a in actions && a.owner == Cpufreq(s.id, Epb) && a.original == s.saved[Epb];
        var q := ServedPolicy(pre, cs, req, [], a);
        assert false;
      }
    }
  }

  /**
   Restored or reported. The snapshot of any plan, restored through whatever policies are discovered
   in whatever tree and under any refusals: if the saved boosts that have come to share the boost
   switch agree, every captured control of every policy ends at its captured value or is covered by
   an error of its own policy, and nothing else changes. When every captured control is live and no
   write is refused, that condition is exact.
   */
  lemma PlanSnapshotIsHonest(
    o: Oracle, pre: Nodes, cs: seq<Candidate>, req: Request, actions: seq<Action>, sys: Sys, found: seq<Candidate>)
    requires FirstPlan(pre, cs, req, actions)
    ensures var snap := CreateSnapshot(pre, cs, actions); var live := DiscoverPolicies(sys.nodes, found);
      var st := RestoreSnapshot(o, sys, Some(found), snap);
      && (SharedBoostsAgree(live, snap) ==>
            && Honest(st, live, snap)
            && st.sys.nodes.Keys == sys.nodes.Keys
            && forall n :: n in sys.nodes && n !in GoalNodes(live, snap) ==> st.sys.nodes[n] == sys.nodes[n])
      && (o.UndoWorks() && AllRestorable(sys.nodes, live, snap) ==>
            (Honest(st, live, snap) <==> SharedBoostsAgree(live, snap)))
  {
    var snap, live := CreateSnapshot(pre, cs, actions), DiscoverPolicies(sys.nodes, found);
    PlanSnapshotSound(pre, cs, req, actions);
    AgreementIsAboutBoost(sys.nodes, found, snap);
    if SharedBoostsAgree(live, snap) { RestoreIsHonest(o, sys, live, snap); }
    if o.UndoWorks() && AllRestorable(sys.nodes, live, snap) { HonestExactlyOnAgreement(o, sys, live, snap); }
  }

  /** Every saved control is live, on a node that exists. */
  ghost predicate AllRestorable(nodes: Nodes, live: seq<Policy>, snap: Snapshot) {
    forall s :: s in snap ==> Live(live, s.id).Some? && Restorable(nodes, Live(live, s.id).value, s)
  }

  /** While no node has come or gone, what a plan captured agrees, so its restore is honest. */
  lemma SameLayoutAgrees(pre: Nodes, cs: seq<Candidate>, req: Request, actions: seq<Action>, now: Nodes)
    requires FirstPlan(pre, cs, req, actions) && now.Keys == pre.Keys
    ensures SharedBoostsAgree(DiscoverPolicies(now, cs), CreateSnapshot(pre, cs, actions))
  {
    SnapshotAims(pre, now, cs, req, actions);
  }

  /** A discovery that fails writes nothing, and reports every captured control. */
  lemma FailedDiscoveryReportsAll(o: Oracle, sys: Sys, snap: Snapshot)
    ensures var st := RestoreSnapshot(o, sys, None, snap);
      st.sys == sys && forall s, c :: s in snap && c in s.saved ==> Reported(st.errors, s.id, c)
  {
    NothingDiscovered(o, Restoring(sys, {}, [DiscoveryFailed]), snap);
  }

  lemma {:induction false} NothingDiscovered(o: Oracle, st: Restoring, snap: Snapshot)
    ensures var after := RestoreAll(o, st, [], snap);
      && after.sys == st.sys && st.errors <= after.errors
      && forall s, c :: s in snap && c in s.saved ==> Reported(after.errors, s.id, c)
    decreases snap
  {
    if snap != [] {
      var next := st.(errors := st.errors + [Vanished(snap[0].id)]);
      NothingDiscovered(o, next, snap[1..]);
      var after := RestoreAll(o, st, [], snap);
      forall s, c | s in snap && c in s.saved ensures Reported(after.errors, s.id, c) {
        if s !in snap[1..] {
          assert Vanished(s.id) in next.errors && Covers(Vanished(s.id), s.id, c);
          assert Vanished(s.id) in after.errors;
        }
      }
    }
  }

  // ---------------------------------------------------------------- when a value is lost in silence

  /** The live policy of a directory entry, and what the snapshot of a plan holds for it. */
  lemma SavedForEntry(
    pre: Nodes, cs: seq<Candidate>, req: Request, actions: seq<Action>, now: Nodes, s: PolicySnapshot, k: Control)
    returns (c: Candidate)
    requires FirstPlan(pre, cs, req, actions) && s in CreateSnapshot(pre, cs, actions) && k in s.saved
    ensures c in Kept(cs, {}) && Wants(Inventory(pre, c), req, k)
    ensures Live(DiscoverPolicies(now, cs), s.id) == Some(Inventory(now, c))
  {
    SnapshotHoldsPlan(pre, cs, req, []);
    var a :| a in actions && a.owner == Cpufreq(s.id, k) && a.original == s.saved[k];
    c := ServesWhere(pre, cs, req, a);
    DiscoveredFromKept(now, cs, Inventory(now, c));
    LiveById(now, cs, Inventory(now, c));
  }

  /** Where every control the plan wanted still has a node, every captured control can be restored. */
  lemma PlanRestorable(pre: Nodes, cs: seq<Candidate>, req: Request, actions: seq<Action>, now: Nodes)
    requires FirstPlan(pre, cs, req, actions)
    requires forall c, k :: c in Kept(cs, {}) && Wants(Inventory(pre, c), req, k) ==> k in Inventory(now, c).writable
    ensures AllRestorable(now, DiscoverPolicies(now, cs), CreateSnapshot(pre, cs, actions))
  {
    var snap := CreateSnapshot(pre, cs, actions);
    forall s | s in snap
      ensures Live(DiscoverPolicies(now, cs), s.id).Some?
      ensures Restorable(now, Live(DiscoverPolicies(now, cs), s.id).value, s)
    {
      EntryHasControl(pre, cs, req, actions, s);
      var w :| w in s.saved;
      var d := SavedForEntry(pre, cs, req, actions, now, s, w);
      forall k | k in s.saved
        ensures k in Inventory(now, d).writable && Inventory(now, d).writable[k] in now && !k.ActiveMax?
      {
        var c := SavedForEntry(pre, cs, req, actions, now, s, k);
        InventoryControl(now, c, k);
      }
      assert ActiveMax !in s.saved;
    }
  }

  /** The policy of c is planned to have its own boost file switched on. */
  ghost predicate OwnBoost(pre: Nodes, cs: seq<Candidate>, req: Request, c: Candidate) {
    c in Kept(cs, {}) && Wants(Inventory(pre, c), req, Boost) && PolicyFile(c.dir, LocalBoost) in pre
  }

  lemma OwnBoostAction(pre: Nodes, cs: seq<Candidate>, req: Request, actions: seq<Action>, c: Candidate)
    returns (a: Action)
    requires FirstPlan(pre, cs, req, actions) && OwnBoost(pre, cs, req, c)
    ensures a in actions && a.owner == Cpufreq(Inventory(pre, c).id, Boost)
    ensures a.original == pre[PolicyFile(c.dir, LocalBoost)]
  {
    var p, n := Inventory(pre, c), PolicyFile(c.dir, LocalBoost);
    InventoryControl(pre, c, Boost);
    DiscoveredFromKept(pre, cs, p);
    PlanIsWellFormed(pre, cs, req, []);
    assert Taken(actions, p, Boost);
    a :| a in actions && a.node == n;
    var d := ServesWhere(pre, cs, req, a);
    ShapeDetermines(d.dir, c.dir, a.owner.control, Boost, n);
    KeptOnce(cs, {});
    SameDirSameCandidate(Kept(cs, {}), c, d);
  }

  /**
   Two boost files that differ and whose policies have come to share one switch: the restore reports
   nothing, although every write it attempts succeeds, and one of the two values is lost.
   */
  lemma SharedBoostLosesAValue(
    o: Oracle, pre: Nodes, cs: seq<Candidate>, req: Request, actions: seq<Action>, sys: Sys, c: Candidate, d: Candidate)
    requires o.UndoWorks() && FirstPlan(pre, cs, req, actions)
    requires OwnBoost(pre, cs, req, c) && OwnBoost(pre, cs, req, d)
    requires pre[PolicyFile(c.dir, LocalBoost)] != pre[PolicyFile(d.dir, LocalBoost)]
    requires forall e, k :: e in Kept(cs, {}) && Wants(Inventory(pre, e), req, k) ==> k in Inventory(sys.nodes, e).writable
    requires forall e :: e in Kept(cs, {}) ==> ControlNode(sys.nodes, e, Boost) == Some(SharedBoost)
    ensures var snap := CreateSnapshot(pre, cs, actions); var live := DiscoverPolicies(sys.nodes, cs);
      var st := RestoreSnapshot(o, sys, Some(cs), snap);
      st.errors == [] && !Honest(st, live, snap)
  {
    var snap, live := CreateSnapshot(pre, cs, actions), DiscoverPolicies(sys.nodes, cs);
    PlanRestorable(pre, cs, req, actions, sys.nodes);
    PlanSnapshotSound(pre, cs, req, actions);
    RestoreWorks(o, Restoring(sys, {}, []), live, snap);
    PlanSnapshotIsHonest(o, pre, cs, req, actions, sys, cs);
    SnapshotHoldsPlan(pre, cs, req, []);
    var a := OwnBoostAction(pre, cs, req, actions, c);
    var b := OwnBoostAction(pre, cs, req, actions, d);
    var s, t := snap[IndexOf(snap, a.owner.id)], snap[IndexOf(snap, b.owner.id)];
    BoostIsShared(pre, cs, req, actions, sys.nodes, s);
    BoostIsShared(pre, cs, req, actions, sys.nodes, t);
    assert s.saved[Boost] != t.saved[Boost];
  }

  lemma BoostIsShared(
    pre: Nodes, cs: seq<Candidate>, req: Request, actions: seq<Action>, now: Nodes, s: PolicySnapshot)
    requires FirstPlan(pre, cs, req, actions) && s in CreateSnapshot(pre, cs, actions) && Boost in s.saved
    requires forall c :: c in Kept(cs, {}) ==> ControlNode(now, c, Boost) == Some(SharedBoost)
    ensures PathTo(DiscoverPolicies(now, cs), s, Boost) == Some(SharedBoost)
  {
    var c := SavedForEntry(pre, cs, req, actions, now, s, Boost);
    InventoryControl(now, c, Boost);
    assert SharedBoost in now;
  }
}
