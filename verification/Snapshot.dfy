/**
 The undo record of the cpufreq controls: what a snapshot captures from a plan, and how it is
 restored through whatever policies are live (boostlock/state.py).
 */
module Snapshots {
  import opened Common
  import opened Kernel
  import opened Policies
  import opened Planning

  datatype PolicySnapshot = PolicySnapshot(id: PolicyId, cpus: seq<nat>, saved: map<Control, Value>)

  type Snapshot = seq<PolicySnapshot>

  // ---------------------------------------------------------------- capture

  function IndexOf(snap: Snapshot, id: PolicyId): (k: nat)
    ensures k <= |snap|
    ensures k < |snap| ==> snap[k].id == id
    ensures forall j :: 0 <= j < k ==> snap[j].id != id
  {
    if snap == [] || snap[0].id == id then 0 else 1 + IndexOf(snap[1..], id)
  }

  /** Frequencies are kept as integers, and dropped when they are none; the rest is kept as text. */
  function Captures(c: Control, original: Value): Option<Value> {
    if !(c.ActiveMin? || c.ActiveMax?) then Some(original)
    else if ParseInt(original).Some? then Some(Number(ParseInt(original).value))
    else None
  }

  function WithEntry(snap: Snapshot, id: PolicyId, cpus: seq<nat>): Snapshot {
    if IndexOf(snap, id) < |snap| then snap else snap + [PolicySnapshot(id, cpus, map[])]
  }

  function SetSaved(snap: Snapshot, k: nat, c: Control, v: Value): Snapshot
    requires k < |snap|
  {
    snap[k := snap[k].(saved := snap[k].saved[c := v])]
  }

  /** Record the original of one action of a policy that is still discovered. */
  function CaptureAction(members: map<PolicyId, seq<nat>>, snap: Snapshot, a: Action): Snapshot {
    if !a.owner.Cpufreq? || a.owner.id !in members then snap
    else
      var base := WithEntry(snap, a.owner.id, members[a.owner.id]);
      match Captures(a.owner.control, a.original)
      case None => base
      case Some(v) => SetSaved(base, IndexOf(snap, a.owner.id), a.owner.control, v)
  }

  function CaptureAll(members: map<PolicyId, seq<nat>>, snap: Snapshot, actions: seq<Action>): Snapshot
    decreases actions
  {
    if actions == [] then snap else CaptureAll(members, CaptureAction(members, snap, actions[0]), actions[1..])
  }

  function Members(ps: seq<Policy>): map<PolicyId, seq<nat>> {
    if ps == [] then map[] else Members(ps[..|ps| - 1])[ps[|ps| - 1].id := ps[|ps| - 1].cpus]
  }

  function CreateSnapshot(nodes: Nodes, cs: seq<Candidate>, actions: seq<Action>): Snapshot {
    CaptureAll(Members(DiscoverPolicies(nodes, cs)), [], actions)
  }

  ghost predicate DistinctSnapIds(snap: Snapshot) {
    forall i, j :: 0 <= i < j < |snap| ==> snap[i].id != snap[j].id
  }

  /** The value a snapshot holds for one control of one policy. */
  function Held(snap: Snapshot, id: PolicyId, c: Control): Option<Value> {
    var k := IndexOf(snap, id);
    if k < |snap| && c in snap[k].saved then Some(snap[k].saved[c]) else None
  }

  // ---------------------------------------------------------------- restore

  datatype RestoreError =
    | DiscoveryFailed
    | Vanished(id: PolicyId)
    | BoundsFailed(id: PolicyId)
    | ControlFailed(id: PolicyId, control: Control)

  datatype Restoring = Restoring(sys: Sys, restored: set<Node>, errors: seq<RestoreError>)

  function PathOf(p: Policy, c: Control): Option<Node> {
    if c in p.writable then Some(p.writable[c]) else None
  }

  /** Write a rediscovered node; a path that is gone fails without an attempt. */
  function WriteLive(o: Oracle, sys: Sys, path: Option<Node>, v: Value): Outcome {
    if path.None? || path.value !in sys.nodes then Outcome(sys, false)
    else Perform(o, Undo, sys, Write(path.value, v))
  }

  function SavedInt(s: PolicySnapshot, c: Control): Option<int> {
    if c in s.saved then ParseInt(s.saved[c]) else None
  }

  /** Both bounds, maximum or minimum first; the second write follows only a first that succeeds. */
  function WriteBounds(
    o: Oracle, sys: Sys, minPath: Option<Node>, maxPath: Option<Node>, lo: int, hi: int, maxFirst: bool): Outcome
  {
    var first := if maxFirst then WriteLive(o, sys, maxPath, Number(hi)) else WriteLive(o, sys, minPath, Number(lo));
    if !first.ok then first
    else if maxFirst then WriteLive(o, first.sys, minPath, Number(lo))
    else WriteLive(o, first.sys, maxPath, Number(hi))
  }

  /** Both bounds, in an order that never asks for a minimum above the current maximum. */
  function RestoreBounds(o: Oracle, sys: Sys, p: Policy, s: PolicySnapshot): Outcome {
    var minPath := PathOf(p, ActiveMin);
    var maxPath := PathOf(p, ActiveMax);
    var snapMin := SavedInt(s, ActiveMin);
    var snapMax := SavedInt(s, ActiveMax);
    if snapMin.None? && snapMax.None? then Outcome(sys, true)
    else if snapMin.Some? && snapMax.Some? && snapMin.value > snapMax.value then Outcome(sys, false)
    else if snapMin.None? then WriteLive(o, sys, maxPath, Number(snapMax.value))
    else if snapMax.None? then WriteLive(o, sys, minPath, Number(snapMin.value))
    else if p.limits.activeMin.None? || p.limits.activeMax.None? then Outcome(sys, false)
    else WriteBounds(o, sys, minPath, maxPath, snapMin.value, snapMax.value, snapMin.value > p.limits.activeMax.value)
  }

  function RestoreBoundsOf(o: Oracle, st: Restoring, p: Policy, s: PolicySnapshot): Restoring {
    var out := RestoreBounds(o, st.sys, p, s);
    st.(sys := out.sys, errors := if out.ok then st.errors else st.errors + [BoundsFailed(p.id)])
  }

  datatype Wrote = Wrote(state: Restoring, ok: bool)

  function RestoreValue(o: Oracle, st: Restoring, p: Policy, s: PolicySnapshot, c: Control): Wrote {
    if c !in s.saved then Wrote(st, false)
    else
      var out := WriteLive(o, st.sys, PathOf(p, c), s.saved[c]);
      if out.ok then Wrote(st.(sys := out.sys), true)
      else Wrote(st.(sys := out.sys, errors := st.errors + [ControlFailed(p.id, c)]), false)
  }

  /** An optional control, unless its resolved node has been restored already. */
  function RestoreOptional(o: Oracle, st: Restoring, p: Policy, s: PolicySnapshot, c: Control): Restoring {
    var path := PathOf(p, c);
    if path.Some? && path.value in st.restored then st
    else
      var w := RestoreValue(o, st, p, s, c);
      if w.ok && path.Some? then w.state.(restored := st.restored + {path.value}) else w.state
  }

  function RestoreOptionals(o: Oracle, st: Restoring, p: Policy, s: PolicySnapshot, cs: seq<Control>): Restoring
    decreases cs
  {
    if cs == [] then st else RestoreOptionals(o, RestoreOptional(o, st, p, s, cs[0]), p, s, cs[1..])
  }

  function RestoreOne(o: Oracle, st: Restoring, p: Policy, s: PolicySnapshot): Restoring {
    var bounds := RestoreBoundsOf(o, st, p, s);
    var governor := RestoreValue(o, bounds, p, s, Governor).state;
    RestoreOptionals(o, governor, p, s, OPTIONAL_CONTROLS)
  }

  /** The live policy with an identifier; a later duplicate replaces an earlier one. */
  function Live(live: seq<Policy>, id: PolicyId): (r: Option<Policy>)
    ensures r.Some? ==> r.value in live && r.value.id == id
    ensures r.None? ==> forall p :: p in live ==> p.id != id
  {
    if live == [] then None
    else if live[|live| - 1].id == id then Some(live[|live| - 1])
    else Live(live[..|live| - 1], id)
  }

  lemma {:induction false} LiveIsLast(live: seq<Policy>, id: PolicyId, i: nat)
    requires i < |live| && live[i].id == id && forall j :: i < j < |live| ==> live[j].id != id
    ensures Live(live, id) == Some(live[i])
  {
    if i < |live| - 1 { LiveIsLast(live[..|live| - 1], id, i); }
  }

  function RestoreAll(o: Oracle, st: Restoring, live: seq<Policy>, snap: Snapshot): Restoring
    decreases snap
  {
    if snap == [] then st
    else
      var p := Live(live, snap[0].id);
      var next := if p.None? then st.(errors := st.errors + [Vanished(snap[0].id)])
                  else RestoreOne(o, st, p.value, snap[0]);
      RestoreAll(o, next, live, snap[1..])
  }

  /** Restore through the policies discovered now; a failed discovery finds none. */
  function RestoreSnapshot(o: Oracle, sys: Sys, cs: Option<seq<Candidate>>, snap: Snapshot): Restoring {
    match cs
    case Some(found) => RestoreAll(o, Restoring(sys, {}, []), DiscoverPolicies(sys.nodes, found), snap)
    case None => RestoreAll(o, Restoring(sys, {}, [DiscoveryFailed]), [], snap)
  }
}
