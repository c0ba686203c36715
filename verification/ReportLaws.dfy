/**
 What a restore reports: an error is listed only for what could not be restored, and names why.
 */
module ReportLaws {
  import opened Common
  import opened Kernel
  import opened Policies
  import opened Snapshots

  /** A restoring write was refused since this point of the log. */
  ghost predicate RefusedSince(log: seq<Entry>, from: nat, n: Node, v: Value) {
    exists j :: from <= j < |log| && log[j] == Entry(Undo, Write(n, v), false)
  }

  /** A value that cannot be in place: it has no node, its node is gone, or its write was refused. */
  ghost predicate Unwritten(path: Option<Node>, v: Value, nodes: Nodes, log: seq<Entry>, from: nat) {
    path.None? || path.value !in nodes || RefusedSince(log, from, path.value, v)
  }

  /** Why the bounds of a policy cannot both be in place. */
  ghost predicate BoundsBlocked(p: Policy, s: PolicySnapshot, nodes: Nodes, log: seq<Entry>, from: nat) {
    var lo, hi := SavedInt(s, ActiveMin), SavedInt(s, ActiveMax);
    || (lo.Some? && hi.Some? && (lo.value > hi.value || p.limits.activeMin.None? || p.limits.activeMax.None?))
    || (lo.Some? && Unwritten(PathOf(p, ActiveMin), Number(lo.value), nodes, log, from))
    || (hi.Some? && Unwritten(PathOf(p, ActiveMax), Number(hi.value), nodes, log, from))
  }

  /** The reason of an error about one saved policy. */
  ghost predicate Reason(
    e: RestoreError, live: seq<Policy>, s: PolicySnapshot, nodes: Nodes, log: seq<Entry>, from: nat)
  {
    var p := Live(live, s.id);
    match e
    case DiscoveryFailed => false
    case Vanished(id) => id == s.id && p.None?
    case BoundsFailed(id) => id == s.id && p.Some? && BoundsBlocked(p.value, s, nodes, log, from)
    case ControlFailed(id, c) =>
      && id == s.id && p.Some? && c in s.saved
      && Unwritten(PathOf(p.value, c), s.saved[c], nodes, log, from)
  }

  ghost predicate Grounded(
    e: RestoreError, live: seq<Policy>, snap: Snapshot, nodes: Nodes, log: seq<Entry>, from: nat)
  {
    exists s :: s in snap && Reason(e, live, s, nodes, log, from)
  }

  ghost predicate AllGrounded(st: Restoring, live: seq<Policy>, snap: Snapshot, before: Sys) {
    && st.sys.nodes.Keys == before.nodes.Keys && before.log <= st.sys.log
    && forall e :: e in st.errors ==> Grounded(e, live, snap, before.nodes, st.sys.log, |before.log|)
  }

  lemma RefusedLater(a: seq<Entry>, b: seq<Entry>, from: nat, n: Node, v: Value)
    requires a <= b && RefusedSince(a, from, n, v)
    ensures RefusedSince(b, from, n, v)
  {
    var j :| from <= j < |a| && a[j] == Entry(Undo, Write(n, v), false);
    assert b[j] == a[j];
  }

  lemma UnwrittenLater(path: Option<Node>, v: Value, nodes: Nodes, a: seq<Entry>, b: seq<Entry>, from: nat)
    requires a <= b && Unwritten(path, v, nodes, a, from)
    ensures Unwritten(path, v, nodes, b, from)
  {
    if path.Some? && path.value in nodes { RefusedLater(a, b, from, path.value, v); }
  }

  lemma ReasonLater(
    e: RestoreError, live: seq<Policy>, s: PolicySnapshot, nodes: Nodes, a: seq<Entry>, b: seq<Entry>, from: nat)
    requires a <= b && Reason(e, live, s, nodes, a, from)
    ensures Reason(e, live, s, nodes, b, from)
  {
    if e.ControlFailed? {
      UnwrittenLater(PathOf(Live(live, s.id).value, e.control), s.saved[e.control], nodes, a, b, from);
    } else if e.BoundsFailed? {
      BlockedLater(Live(live, s.id).value, s, nodes, a, b, from);
    }
  }

  lemma BlockedLater(p: Policy, s: PolicySnapshot, nodes: Nodes, a: seq<Entry>, b: seq<Entry>, from: nat)
    requires a <= b && BoundsBlocked(p, s, nodes, a, from)
    ensures BoundsBlocked(p, s, nodes, b, from)
  {
    var lo, hi := SavedInt(s, ActiveMin), SavedInt(s, ActiveMax);
    if lo.Some? && Unwritten(PathOf(p, ActiveMin), Number(lo.value), nodes, a, from) {
      UnwrittenLater(PathOf(p, ActiveMin), Number(lo.value), nodes, a, b, from);
    }
    if hi.Some? && Unwritten(PathOf(p, ActiveMax), Number(hi.value), nodes, a, from) {
      UnwrittenLater(PathOf(p, ActiveMax), Number(hi.value), nodes, a, b, from);
    }
  }

  lemma GroundedLater(
    e: RestoreError, live: seq<Policy>, snap: Snapshot, nodes: Nodes, a: seq<Entry>, b: seq<Entry>, from: nat)
    requires a <= b && Grounded(e, live, snap, nodes, a, from)
    ensures Grounded(e, live, snap, nodes, b, from)
  {
    var s :| s in snap && Reason(e, live, s, nodes, a, from);
    ReasonLater(e, live, s, nodes, a, b, from);
  }

  /** A step that goes on from a state and adds at most one error with its reason. */
  lemma OneMoreError(
    st: Restoring, after: Restoring, live: seq<Policy>, snap: Snapshot, s: PolicySnapshot, before: Sys, e: RestoreError)
    requires AllGrounded(st, live, snap, before) && s in snap
    requires after.sys.nodes.Keys == st.sys.nodes.Keys && st.sys.log <= after.sys.log
    requires after.errors == st.errors
             || (after.errors == st.errors + [e] && Reason(e, live, s, before.nodes, after.sys.log, |before.log|))
    ensures AllGrounded(after, live, snap, before)
  {
    forall f | f in after.errors ensures Grounded(f, live, snap, before.nodes, after.sys.log, |before.log|) {
      if f in st.errors { GroundedLater(f, live, snap, before.nodes, st.sys.log, after.sys.log, |before.log|); }
    }
  }

  lemma WriteLiveReason(o: Oracle, sys: Sys, path: Option<Node>, v: Value, nodes: Nodes, from: nat)
    requires sys.nodes.Keys == nodes.Keys && from <= |sys.log|
    ensures var out := WriteLive(o, sys, path, v);
      && out.sys.nodes.Keys == nodes.Keys && sys.log <= out.sys.log
      && (!out.ok ==> Unwritten(path, v, nodes, out.sys.log, from))
  {
    assert forall n :: n in sys.nodes.Keys <==> n in nodes.Keys;
    var out := WriteLive(o, sys, path, v);
    if path.Some? && path.value in sys.nodes && !out.ok {
      assert out.sys.log[|sys.log|] == Entry(Undo, Write(path.value, v), false);
    }
  }

  lemma BoundsReason(o: Oracle, sys: Sys, p: Policy, s: PolicySnapshot, nodes: Nodes, from: nat)
    requires sys.nodes.Keys == nodes.Keys && from <= |sys.log|
    ensures var out := RestoreBounds(o, sys, p, s);
      && out.sys.nodes.Keys == nodes.Keys && sys.log <= out.sys.log
      && (!out.ok ==> BoundsBlocked(p, s, nodes, out.sys.log, from))
  {
    var minPath, maxPath := PathOf(p, ActiveMin), PathOf(p, ActiveMax);
    var lo, hi := SavedInt(s, ActiveMin), SavedInt(s, ActiveMax);
    if lo.Some? { WriteLiveReason(o, sys, minPath, Number(lo.value), nodes, from); }
    if hi.Some? { WriteLiveReason(o, sys, maxPath, Number(hi.value), nodes, from); }
    if lo.Some? && hi.Some? {
      WriteLiveReason(o, WriteLive(o, sys, maxPath, Number(hi.value)).sys, minPath, Number(lo.value), nodes, from);
      WriteLiveReason(o, WriteLive(o, sys, minPath, Number(lo.value)).sys, maxPath, Number(hi.value), nodes, from);
    }
  }

  lemma BoundsGrounded(
    o: Oracle, st: Restoring, live: seq<Policy>, snap: Snapshot, s: PolicySnapshot, before: Sys)
    requires AllGrounded(st, live, snap, before) && s in snap && Live(live, s.id).Some?
    ensures AllGrounded(RestoreBoundsOf(o, st, Live(live, s.id).value, s), live, snap, before)
  {
    var p := Live(live, s.id).value;
    BoundsReason(o, st.sys, p, s, before.nodes, |before.log|);
    OneMoreError(st, RestoreBoundsOf(o, st, p, s), live, snap, s, before, BoundsFailed(p.id));
  }

  lemma ValueGrounded(
    o: Oracle, st: Restoring, live: seq<Policy>, snap: Snapshot, s: PolicySnapshot, before: Sys, c: Control)
    requires AllGrounded(st, live, snap, before) && s in snap && Live(live, s.id).Some?
    ensures AllGrounded(RestoreValue(o, st, Live(live, s.id).value, s, c).state, live, snap, before)
  {
    var p := Live(live, s.id).value;
    if c in s.saved {
      WriteLiveReason(o, st.sys, PathOf(p, c), s.saved[c], before.nodes, |before.log|);
      OneMoreError(st, RestoreValue(o, st, p, s, c).state, live, snap, s, before, ControlFailed(p.id, c));
    }
  }

  lemma {:induction false} OptionalsGrounded(
    o: Oracle, st: Restoring, live: seq<Policy>, snap: Snapshot, s: PolicySnapshot, before: Sys, cs: seq<Control>)
    requires AllGrounded(st, live, snap, before) && s in snap && Live(live, s.id).Some?
    ensures AllGrounded(RestoreOptionals(o, st, Live(live, s.id).value, s, cs), live, snap, before)
    decreases cs
  {
    if cs != [] {
      ValueGrounded(o, st, live, snap, s, before, cs[0]);
      var next := RestoreOptional(o, st, Live(live, s.id).value, s, cs[0]);
      OptionalsGrounded(o, next, live, snap, s, before, cs[1..]);
    }
  }

  lemma OneGrounded(o: Oracle, st: Restoring, live: seq<Policy>, snap: Snapshot, s: PolicySnapshot, before: Sys)
    requires AllGrounded(st, live, snap, before) && s in snap && Live(live, s.id).Some?
    ensures AllGrounded(RestoreOne(o, st, Live(live, s.id).value, s), live, snap, before)
  {
    var p := Live(live, s.id).value;
    var bounds := RestoreBoundsOf(o, st, p, s);
    BoundsGrounded(o, st, live, snap, s, before);
    ValueGrounded(o, bounds, live, snap, s, before, Governor);
    OptionalsGrounded(o, RestoreValue(o, bounds, p, s, Governor).state, live, snap, s, before, OPTIONAL_CONTROLS);
  }

  /** The policies left to restore are reported or restored without losing what was reported before. */
  lemma {:induction false} RestGrounded(
    o: Oracle, st: Restoring, live: seq<Policy>, snap: Snapshot, rest: Snapshot, before: Sys)
    requires AllGrounded(st, live, snap, before) && forall s :: s in rest ==> s in snap
    ensures AllGrounded(RestoreAll(o, st, live, rest), live, snap, before)
    decreases rest
  {
    if rest != [] {
      var s := rest[0];
      assert s in rest && forall t :: t in rest[1..] ==> t in rest;
      if Live(live, s.id).None? {
        var next := st.(errors := st.errors + [Vanished(s.id)]);
        OneMoreError(st, next, live, snap, s, before, Vanished(s.id));
        RestGrounded(o, next, live, snap, rest[1..], before);
      } else {
        OneGrounded(o, st, live, snap, s, before);
        RestGrounded(o, RestoreOne(o, st, Live(live, s.id).value, s), live, snap, rest[1..], before);
      }
    }
  }

  /**
   Every error a restore reports is true. A vanished policy is not live; failed bounds are out of
   order, meet limits that are not known, or could not be written; a failed control was saved and
   could not be written, because its node is gone or its write was refused. That discovery itself
   failed is not reported.
   */
  lemma ErrorsHaveReasons(o: Oracle, sys: Sys, found: seq<Candidate>, snap: Snapshot)
    ensures var live := DiscoverPolicies(sys.nodes, found); var st := RestoreSnapshot(o, sys, Some(found), snap);
      forall e :: e in st.errors ==>
        exists s :: s in snap && Reason(e, live, s, sys.nodes, st.sys.log, |sys.log|)
  {
    RestGrounded(o, Restoring(sys, {}, []), DiscoverPolicies(sys.nodes, found), snap, snap, sys);
  }
}
