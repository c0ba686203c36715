/**
 What a snapshot of a plan holds: the original of every planned cpufreq action, and nothing else.
 */
module CaptureLaws {
  import opened Common
  import opened Kernel
  import opened Policies
  import opened Planning
  import opened PlanLaws
  import opened Snapshots
  import opened SnapshotLaws

  ghost predicate DistinctOwners(actions: seq<Action>) {
    forall i, j :: 0 <= i < j < |actions| ==> actions[i].owner != actions[j].owner
  }

  ghost predicate SoundSnapshot(snap: Snapshot) {
    DistinctSnapIds(snap) && forall s :: s in snap ==> SoundPolicySnapshot(s)
  }

  lemma IndexOfKnown(snap: Snapshot, k: nat)
    requires DistinctSnapIds(snap) && k < |snap|
    ensures IndexOf(snap, snap[k].id) == k
  {
  }

  lemma SameIndex(a: Snapshot, b: Snapshot, id: PolicyId)
    requires |a| == |b| && forall j :: 0 <= j < |a| ==> a[j].id == b[j].id
    ensures IndexOf(a, id) == IndexOf(b, id)
  {
    var i, j := IndexOf(a, id), IndexOf(b, id);
  }

  lemma WithEntryKeeps(snap: Snapshot, owner: PolicyId, cpus: seq<nat>, id: PolicyId, c: Control)
    requires SoundSnapshot(snap)
    ensures var grown := WithEntry(snap, owner, cpus);
      && SoundSnapshot(grown)
      && IndexOf(snap, owner) < |grown| && grown[IndexOf(snap, owner)].id == owner
      && IndexOf(grown, owner) == IndexOf(snap, owner)
      && Held(grown, id, c) == Held(snap, id, c)
  {
    var grown := WithEntry(snap, owner, cpus);
    var i, j := IndexOf(snap, id), IndexOf(grown, id);
    assert forall m :: 0 <= m < |snap| ==> grown[m] == snap[m];
    IndexOfKnown(grown, IndexOf(snap, owner));
  }

  lemma SetSavedSound(snap: Snapshot, k: nat, d: Control, v: Value)
    requires SoundSnapshot(snap) && k < |snap|
    requires d.ActiveMin? || d.ActiveMax? ==> ParseInt(v).Some? && v == Number(ParseInt(v).value)
    ensures SoundSnapshot(SetSaved(snap, k, d, v))
  {
    var after := SetSaved(snap, k, d, v);
    assert forall j :: 0 <= j < |snap| ==> after[j].id == snap[j].id;
    assert SoundPolicySnapshot(snap[k]);
    assert SoundPolicySnapshot(after[k]);
    forall s | s in after ensures SoundPolicySnapshot(s) {
      var j :| 0 <= j < |after| && after[j] == s;
      if j != k { assert s == snap[j]; }
    }
  }

  lemma SetSavedHeld(snap: Snapshot, k: nat, d: Control, v: Value, id: PolicyId, c: Control)
    requires DistinctSnapIds(snap) && k < |snap|
    ensures Held(SetSaved(snap, k, d, v), id, c) == if id == snap[k].id && c == d then Some(v) else Held(snap, id, c)
  {
    var after := SetSaved(snap, k, d, v);
    SameIndex(snap, after, id);
    IndexOfKnown(snap, k);
    HeldAt(snap, IndexOf(snap, id), id, c);
    HeldAt(after, IndexOf(snap, id), id, c);
  }

  lemma HeldAt(snap: Snapshot, k: nat, id: PolicyId, c: Control)
    requires k == IndexOf(snap, id)
    ensures Held(snap, id, c) == if k < |snap| && c in snap[k].saved then Some(snap[k].saved[c]) else None
  {
  }

  lemma CaptureActionHeld(members: map<PolicyId, seq<nat>>, snap: Snapshot, a: Action, id: PolicyId, c: Control)
    requires SoundSnapshot(snap)
    ensures var after := CaptureAction(members, snap, a);
      && SoundSnapshot(after)
      && Held(after, id, c) ==
         if a.owner == Cpufreq(id, c) && id in members && Captures(c, a.original).Some?
         then Captures(c, a.original) else Held(snap, id, c)
  {
    if a.owner.Cpufreq? && a.owner.id in members {
      var grown := WithEntry(snap, a.owner.id, members[a.owner.id]);
      WithEntryKeeps(snap, a.owner.id, members[a.owner.id], id, c);
      match Captures(a.owner.control, a.original) {
        case None =>
        case Some(v) =>
          SetSavedSound(grown, IndexOf(snap, a.owner.id), a.owner.control, v);
          SetSavedHeld(grown, IndexOf(snap, a.owner.id), a.owner.control, v, id, c);
      }
    }
  }

  lemma {:induction false} CaptureAllKeeps(
    members: map<PolicyId, seq<nat>>, snap: Snapshot, actions: seq<Action>, id: PolicyId, c: Control)
    requires SoundSnapshot(snap)
    ensures SoundSnapshot(CaptureAll(members, snap, actions))
    ensures !PlannedAs(actions, Cpufreq(id, c)) ==>
              Held(CaptureAll(members, snap, actions), id, c) == Held(snap, id, c)
    decreases actions
  {
    if actions != [] {
      assert actions[0] in actions && forall a :: a in actions[1..] ==> a in actions;
      CaptureActionHeld(members, snap, actions[0], id, c);
      CaptureAllKeeps(members, CaptureAction(members, snap, actions[0]), actions[1..], id, c);
    }
  }

  lemma {:induction false} CaptureAllHolds(
    members: map<PolicyId, seq<nat>>, snap: Snapshot, actions: seq<Action>, a: Action)
    requires SoundSnapshot(snap) && DistinctOwners(actions) && a in actions
    requires a.owner.Cpufreq? && a.owner.id in members && Captures(a.owner.control, a.original).Some?
    ensures Held(CaptureAll(members, snap, actions), a.owner.id, a.owner.control)
            == Captures(a.owner.control, a.original)
    decreases actions
  {
    var next := CaptureAction(members, snap, actions[0]);
    CaptureActionHeld(members, snap, actions[0], a.owner.id, a.owner.control);
    if actions[0] == a {
      assert !PlannedAs(actions[1..], a.owner) by {
        forall b | b in actions[1..] ensures b.owner != a.owner {
          var j :| 0 <= j < |actions[1..]| && actions[1..][j] == b;
          assert actions[j + 1] == b;
        }
      }
      CaptureAllKeeps(members, next, actions[1..], a.owner.id, a.owner.control);
    } else {
      CaptureAllHolds(members, next, actions[1..], a);
    }
  }

  lemma HeldIsSaved(snap: Snapshot, s: PolicySnapshot, c: Control)
    requires DistinctSnapIds(snap) && s in snap && c in s.saved
    ensures Held(snap, s.id, c) == Some(s.saved[c])
  {
    var k :| 0 <= k < |snap| && snap[k] == s;
    IndexOfKnown(snap, k);
  }

  /** A policy of this identifier and these CPUs is among some policies. */
  ghost predicate HasCpus(ps: seq<Policy>, id: PolicyId, cpus: seq<nat>) {
    exists p :: p in ps && p.id == id && p.cpus == cpus
  }

  lemma {:induction false} MembersOf(ps: seq<Policy>)
    ensures forall id :: id in Members(ps) <==> exists p :: p in ps && p.id == id
    ensures forall id :: id in Members(ps) ==> HasCpus(ps, id, Members(ps)[id])
  {
    if ps != [] {
      var before := ps[..|ps| - 1];
      MembersOf(before);
      assert forall p :: p in ps <==> p in before || p == ps[|ps| - 1];
      forall id | id in Members(ps) ensures HasCpus(ps, id, Members(ps)[id]) {
        if id != ps[|ps| - 1].id {
          assert id in Members(before) && HasCpus(before, id, Members(before)[id]);
        }
      }
    }
  }

  /** Every entry lists the CPUs its policy has. */
  ghost predicate ListsMembers(members: map<PolicyId, seq<nat>>, snap: Snapshot) {
    forall s :: s in snap ==> s.id in members && s.cpus == members[s.id]
  }

  lemma {:induction false} CaptureListsMembers(members: map<PolicyId, seq<nat>>, snap: Snapshot, actions: seq<Action>)
    requires ListsMembers(members, snap)
    ensures ListsMembers(members, CaptureAll(members, snap, actions))
    decreases actions
  {
    if actions != [] {
      CaptureListsMembers(members, CaptureAction(members, snap, actions[0]), actions[1..]);
    }
  }

  ghost predicate HasEntry(snap: Snapshot, id: PolicyId) { exists s :: s in snap && s.id == id }

  ghost predicate ActsOn(actions: seq<Action>, id: PolicyId) {
    exists a :: a in actions && a.owner.Cpufreq? && a.owner.id == id
  }

  lemma EntryAdded(members: map<PolicyId, seq<nat>>, snap: Snapshot, a: Action, id: PolicyId)
    ensures HasEntry(CaptureAction(members, snap, a), id) <==>
              HasEntry(snap, id) || (id in members && a.owner.Cpufreq? && a.owner.id == id)
  {
    if a.owner.Cpufreq? && a.owner.id in members {
      var k, grown := IndexOf(snap, a.owner.id), WithEntry(snap, a.owner.id, members[a.owner.id]);
      var after := CaptureAction(members, snap, a);
      assert k < |grown| && grown[k].id == a.owner.id;
      assert |after| == |grown| && forall j :: 0 <= j < |grown| ==> after[j].id == grown[j].id;
      if HasEntry(after, id) {
        var j :| 0 <= j < |after| && after[j].id == id;
        if j < |snap| { assert snap[j] in snap; }
      }
      if HasEntry(snap, id) {
        var j :| 0 <= j < |snap| && snap[j].id == id;
        assert after[j] in after;
      }
      assert after[k] in after;
    }
  }

  /** A snapshot has an entry for every live policy an action belongs to, whatever could be captured, and no other. */
  lemma {:induction false} EntriesOfActions(
    members: map<PolicyId, seq<nat>>, snap: Snapshot, actions: seq<Action>, id: PolicyId)
    ensures HasEntry(CaptureAll(members, snap, actions), id) <==>
              HasEntry(snap, id) || (id in members && ActsOn(actions, id))
    decreases actions
  {
    if actions != [] {
      EntryAdded(members, snap, actions[0], id);
      EntriesOfActions(members, CaptureAction(members, snap, actions[0]), actions[1..], id);
      assert forall a :: a in actions <==> a == actions[0] || a in actions[1..];
    }
  }

  // ---------------------------------------------------------------- snapshots of plans

  lemma PlanOwnersDistinct(nodes: Nodes, cs: seq<Candidate>, req: Request, extra: seq<Node>)
    requires Coherent(cs) && BuildPlan(nodes, cs, req, extra).Success?
    ensures DistinctOwners(BuildPlan(nodes, cs, req, extra).value.actions)
  {
    PlanIsWellFormed(nodes, cs, req, extra);
    var actions := BuildPlan(nodes, cs, req, extra).value.actions;
    forall i, j | 0 <= i < j < |actions| ensures actions[i].owner != actions[j].owner {
      if actions[i].owner == actions[j].owner {
        var p := ServedPolicy(nodes, cs, req, extra, actions[i]);
        OwnerIsServed(nodes, cs, req, extra, p, actions[i]);
        OwnerIsServed(nodes, cs, req, extra, p, actions[j]);
      }
    }
  }

  lemma UsableFloorReadable(nodes: Nodes, c: Candidate)
    requires Inventory(nodes, c).usable
    ensures ReadInt(nodes, PolicyFile(c.dir, ScalingMinFreq)).Some?
  {
    InventoryControl(nodes, c, ActiveMin);
  }

  /** The originals of a plan always survive capture: a planned bound was readable as an integer. */
  lemma PlannedOriginalCaptured(nodes: Nodes, cs: seq<Candidate>, req: Request, extra: seq<Node>, a: Action)
    requires Coherent(cs) && BuildPlan(nodes, cs, req, extra).Success?
    requires a in BuildPlan(nodes, cs, req, extra).value.actions
    ensures a.owner.Cpufreq? && Captures(a.owner.control, a.original) == Some(a.original)
  {
    var p := ServedPolicy(nodes, cs, req, extra, a);
    assert Inventoried(nodes, cs, p) by { DiscoveryIsUnique(nodes, cs); }
    var c :| c in cs && p == Inventory(nodes, c);
    ServedOriginalCaptured(nodes, c, req, a);
  }

  lemma ServedOriginalCaptured(nodes: Nodes, c: Candidate, req: Request, a: Action)
    requires Serves(nodes, req, Inventory(nodes, c), a)
    ensures Captures(a.owner.control, a.original) == Some(a.original)
  {
    if a.owner.control.ActiveMin? {
      UsableFloorReadable(nodes, c);
      InventoryControlOk(nodes, c, ActiveMin);
      IntegerTextRoundTrips(a.original);
    }
  }

  /**
   A snapshot taken right after planning holds exactly the planned controls, each with the value
   its node held, under the identifier and the CPUs of its policy, whatever the order and number of
   policies.
   */
  lemma SnapshotHoldsPlan(nodes: Nodes, cs: seq<Candidate>, req: Request, extra: seq<Node>)
    requires Coherent(cs) && BuildPlan(nodes, cs, req, extra).Success?
    ensures var actions := BuildPlan(nodes, cs, req, extra).value.actions;
      var snap := CreateSnapshot(nodes, cs, actions);
      && SoundSnapshot(snap)
      && (forall a :: a in actions ==> a.owner.Cpufreq? && Held(snap, a.owner.id, a.owner.control) == Some(a.original))
      && (forall s, c :: s in snap && c in s.saved ==>
            exists a :: a in actions && a.owner == Cpufreq(s.id, c) && a.original == s.saved[c])
      && (forall s :: s in snap ==> HasCpus(DiscoverPolicies(nodes, cs), s.id, s.cpus))
  {
    var actions := BuildPlan(nodes, cs, req, extra).value.actions;
    var ps := DiscoverPolicies(nodes, cs);
    var members := Members(ps);
    var snap := CreateSnapshot(nodes, cs, actions);
    PlanOwnersDistinct(nodes, cs, req, extra);
    MembersOf(ps);
    CaptureAllKeeps(members, [], actions, PolicyName(0), Boost);
    CaptureListsMembers(members, [], actions);
    forall a | a in actions
      ensures a.owner.Cpufreq? && Held(snap, a.owner.id, a.owner.control) == Some(a.original)
    {
      PlannedOriginalCaptured(nodes, cs, req, extra, a);
      var p := ServedPolicy(nodes, cs, req, extra, a);
      CaptureAllHolds(members, [], actions, a);
    }
    forall s, c | s in snap && c in s.saved
      ensures exists a :: a in actions && a.owner == Cpufreq(s.id, c) && a.original == s.saved[c]
    {
      HeldIsSaved(snap, s, c);
      CaptureAllKeeps(members, [], actions, s.id, c);
      var a :| a in actions && a.owner == Cpufreq(s.id, c);
    }
  }
}
