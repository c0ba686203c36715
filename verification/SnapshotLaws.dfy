/**
 What restoring a snapshot guarantees under arbitrary refusals and vanished policies.
 */
module SnapshotLaws {
  import opened Common
  import opened Kernel
  import opened Policies
  import opened Snapshots

  /** Bounds are kept in integer form. */
  predicate SoundPolicySnapshot(s: PolicySnapshot) {
    forall c :: c in s.saved && (c.ActiveMin? || c.ActiveMax?) ==>
      ParseInt(s.saved[c]).Some? && s.saved[c] == Number(ParseInt(s.saved[c]).value)
  }

  /** Each saved control of s that is live has its node in goal with the saved value. */
  ghost predicate Aims(p: Policy, s: PolicySnapshot, goal: Nodes) {
    && SoundPolicySnapshot(s)
    && p.id == s.id
    && forall c :: c in s.saved && c in p.writable ==>
         p.writable[c] in goal && goal[p.writable[c]] == s.saved[c]
  }

  /** A goal for a whole snapshot. */
  ghost predicate AimsAll(live: seq<Policy>, snap: Snapshot, goal: Nodes) {
    forall s :: s in snap ==>
      SoundPolicySnapshot(s) && (Live(live, s.id).Some? ==> Aims(Live(live, s.id).value, s, goal))
  }

  /** Nodes keep existing, goal nodes at their goal stay there, and other nodes do not change. */
  ghost predicate Converges(before: Nodes, after: Nodes, goal: Nodes) {
    && after.Keys == before.Keys
    && (forall n :: n in before && n in goal && before[n] == goal[n] ==> after[n] == goal[n])
    && (forall n :: n in before && n !in goal ==> after[n] == before[n])
  }

  predicate Covers(e: RestoreError, id: PolicyId, c: Control) {
    match e
    case DiscoveryFailed => false
    case Vanished(gone) => gone == id
    case BoundsFailed(p) => p == id && (c.ActiveMin? || c.ActiveMax?)
    case ControlFailed(p, k) => p == id && k == c
  }

  ghost predicate Reported(errors: seq<RestoreError>, id: PolicyId, c: Control) {
    exists e :: e in errors && Covers(e, id, c)
  }

  ghost predicate AtGoal(nodes: Nodes, goal: Nodes, n: Node) {
    n in nodes && n in goal && nodes[n] == goal[n]
  }

  ghost predicate RestoredOrReported(st: Restoring, p: Policy, s: PolicySnapshot, c: Control, goal: Nodes) {
    c in s.saved ==> Reported(st.errors, s.id, c) || (c in p.writable && AtGoal(st.sys.nodes, goal, p.writable[c]))
  }

  /** One stage of a restore: progress towards the goal, with every restored node at its goal. */
  ghost predicate Stage(before: Restoring, after: Restoring, goal: Nodes) {
    && Converges(before.sys.nodes, after.sys.nodes, goal)
    && before.errors <= after.errors
    && (forall n :: n in after.restored ==> AtGoal(after.sys.nodes, goal, n))
  }

  lemma StageChain(a: Restoring, b: Restoring, c: Restoring, goal: Nodes)
    requires Stage(a, b, goal) && Stage(b, c, goal)
    ensures Stage(a, c, goal)
  {
  }

  lemma StageKeeps(before: Restoring, after: Restoring, p: Policy, s: PolicySnapshot, c: Control, goal: Nodes)
    requires Stage(before, after, goal) && RestoredOrReported(before, p, s, c, goal)
    ensures RestoredOrReported(after, p, s, c, goal)
  {
    if c in s.saved && Reported(before.errors, s.id, c) {
      var e :| e in before.errors && Covers(e, s.id, c);
      assert e in after.errors;
    }
  }

  lemma WriteLiveConverges(o: Oracle, sys: Sys, path: Option<Node>, v: Value, goal: Nodes)
    requires path.Some? ==> path.value in goal && goal[path.value] == v
    ensures var out := WriteLive(o, sys, path, v);
      && Converges(sys.nodes, out.sys.nodes, goal)
      && (out.ok ==> path.Some? && AtGoal(out.sys.nodes, goal, path.value))
  {
  }

  lemma ReportNew(errors: seq<RestoreError>, e: RestoreError, id: PolicyId, c: Control)
    requires Covers(e, id, c)
    ensures Reported(errors + [e], id, c)
  {
    assert e in errors + [e];
  }

  lemma BoundsStage(o: Oracle, st: Restoring, p: Policy, s: PolicySnapshot, goal: Nodes)
    requires Aims(p, s, goal) && forall n :: n in st.restored ==> AtGoal(st.sys.nodes, goal, n)
    ensures var after := RestoreBoundsOf(o, st, p, s);
      && Stage(st, after, goal)
      && RestoredOrReported(after, p, s, ActiveMin, goal)
      && RestoredOrReported(after, p, s, ActiveMax, goal)
  {
    BoundsConverge(o, st.sys, p, s, goal);
    var out := RestoreBounds(o, st.sys, p, s);
    if !out.ok {
      ReportNew(st.errors, BoundsFailed(p.id), s.id, ActiveMin);
      ReportNew(st.errors, BoundsFailed(p.id), s.id, ActiveMax);
    }
  }

  lemma BoundsConverge(o: Oracle, sys: Sys, p: Policy, s: PolicySnapshot, goal: Nodes)
    requires Aims(p, s, goal)
    ensures var out := RestoreBounds(o, sys, p, s);
      && Converges(sys.nodes, out.sys.nodes, goal)
      && (out.ok && ActiveMin in s.saved ==> ActiveMin in p.writable && AtGoal(out.sys.nodes, goal, p.writable[ActiveMin]))
      && (out.ok && ActiveMax in s.saved ==> ActiveMax in p.writable && AtGoal(out.sys.nodes, goal, p.writable[ActiveMax]))
  {
    var minPath, maxPath := PathOf(p, ActiveMin), PathOf(p, ActiveMax);
    if ActiveMin in s.saved {
      var v := s.saved[ActiveMin];
      WriteLiveConverges(o, sys, minPath, v, goal);
      if ActiveMax in s.saved {
        var u := s.saved[ActiveMax];
        WriteLiveConverges(o, sys, maxPath, u, goal);
        WriteLiveConverges(o, WriteLive(o, sys, maxPath, u).sys, minPath, v, goal);
        WriteLiveConverges(o, WriteLive(o, sys, minPath, v).sys, maxPath, u, goal);
      }
    } else if ActiveMax in s.saved {
      WriteLiveConverges(o, sys, maxPath, s.saved[ActiveMax], goal);
    }
  }

  lemma ValueStage(o: Oracle, st: Restoring, p: Policy, s: PolicySnapshot, c: Control, goal: Nodes)
    requires Aims(p, s, goal) && forall n :: n in st.restored ==> AtGoal(st.sys.nodes, goal, n)
    ensures var w := RestoreValue(o, st, p, s, c);
      && Stage(st, w.state, goal)
      && RestoredOrReported(w.state, p, s, c, goal)
      && (w.ok ==> c in p.writable && AtGoal(w.state.sys.nodes, goal, p.writable[c]))
      && w.state.restored == st.restored
  {
    if c in s.saved {
      WriteLiveConverges(o, st.sys, PathOf(p, c), s.saved[c], goal);
      ReportNew(st.errors, ControlFailed(p.id, c), s.id, c);
    }
  }

  lemma OptionalStage(o: Oracle, st: Restoring, p: Policy, s: PolicySnapshot, c: Control, goal: Nodes)
    requires Aims(p, s, goal) && forall n :: n in st.restored ==> AtGoal(st.sys.nodes, goal, n)
    ensures var after := RestoreOptional(o, st, p, s, c);
      Stage(st, after, goal) && RestoredOrReported(after, p, s, c, goal)
  {
    ValueStage(o, st, p, s, c, goal);
  }

  lemma {:induction false} OptionalsStage(
    o: Oracle, st: Restoring, p: Policy, s: PolicySnapshot, cs: seq<Control>, goal: Nodes)
    requires Aims(p, s, goal) && forall n :: n in st.restored ==> AtGoal(st.sys.nodes, goal, n)
    ensures var after := RestoreOptionals(o, st, p, s, cs);
      Stage(st, after, goal) && forall c :: c in cs ==> RestoredOrReported(after, p, s, c, goal)
    decreases cs
  {
    if cs != [] {
      OptionalStage(o, st, p, s, cs[0], goal);
      var next := RestoreOptional(o, st, p, s, cs[0]);
      OptionalsStage(o, next, p, s, cs[1..], goal);
      var after := RestoreOptionals(o, st, p, s, cs);
      StageChain(st, next, after, goal);
      forall c | c in cs ensures RestoredOrReported(after, p, s, c, goal) {
        if c == cs[0] { StageKeeps(next, after, p, s, c, goal); } else { assert c in cs[1..]; }
      }
    }
  }

  /** Restoring one policy leaves each of its saved controls restored or reported. */
  lemma OneStage(o: Oracle, st: Restoring, p: Policy, s: PolicySnapshot, goal: Nodes)
    requires Aims(p, s, goal) && forall n :: n in st.restored ==> AtGoal(st.sys.nodes, goal, n)
    ensures var after := RestoreOne(o, st, p, s);
      Stage(st, after, goal) && forall c :: RestoredOrReported(after, p, s, c, goal)
  {
    var bounds := RestoreBoundsOf(o, st, p, s);
    BoundsStage(o, st, p, s, goal);
    var governor := RestoreValue(o, bounds, p, s, Governor).state;
    ValueStage(o, bounds, p, s, Governor, goal);
    var after := RestoreOptionals(o, governor, p, s, OPTIONAL_CONTROLS);
    OptionalsStage(o, governor, p, s, OPTIONAL_CONTROLS, goal);
    StageChain(bounds, governor, after, goal);
    StageChain(st, bounds, after, goal);
    forall c ensures RestoredOrReported(after, p, s, c, goal) {
      if c.ActiveMin? || c.ActiveMax? { StageKeeps(bounds, after, p, s, c, goal); }
      else if c.Governor? { StageKeeps(governor, after, p, s, c, goal); }
      else { assert c in OPTIONAL_CONTROLS; }
    }
  }

  ghost predicate AllRestoredOrReported(st: Restoring, live: seq<Policy>, snap: Snapshot, goal: Nodes) {
    forall s, c :: s in snap && c in s.saved ==>
      || Reported(st.errors, s.id, c)
      || (var p := Live(live, s.id);
          p.Some? && c in p.value.writable && AtGoal(st.sys.nodes, goal, p.value.writable[c]))
  }

  lemma {:induction false} AllStage(o: Oracle, st: Restoring, live: seq<Policy>, snap: Snapshot, goal: Nodes)
    requires AimsAll(live, snap, goal) && forall n :: n in st.restored ==> AtGoal(st.sys.nodes, goal, n)
    ensures var after := RestoreAll(o, st, live, snap);
      Stage(st, after, goal) && AllRestoredOrReported(after, live, snap, goal)
    decreases snap
  {
    if snap != [] {
      var s := snap[0];
      var p := Live(live, s.id);
      var next := if p.None? then st.(errors := st.errors + [Vanished(s.id)]) else RestoreOne(o, st, p.value, s);
      assert s in snap && forall t :: t in snap[1..] ==> t in snap;
      if p.Some? { OneStage(o, st, p.value, s, goal); }
      assert Stage(st, next, goal);
      AllStage(o, next, live, snap[1..], goal);
      var after := RestoreAll(o, st, live, snap);
      StageChain(st, next, after, goal);
      forall t, c | t in snap && c in t.saved
        ensures Reported(after.errors, t.id, c)
          || (var q := Live(live, t.id);
              q.Some? && c in q.value.writable && AtGoal(after.sys.nodes, goal, q.value.writable[c]))
      {
        if t in snap[1..] {
        } else if p.Some? {
          assert RestoredOrReported(next, p.value, s, c, goal);
          StageKeeps(next, after, p.value, s, c, goal);
        } else {
          ReportNew(st.errors, Vanished(s.id), s.id, c);
          var e :| e in next.errors && Covers(e, s.id, c);
          assert e in after.errors;
        }
      }
    }
  }

  // ---------------------------------------------------------------- success

  /** A live policy whose saved controls all have nodes, and whose saved bounds can be ordered. */
  predicate Restorable(nodes: Nodes, p: Policy, s: PolicySnapshot) {
    && (forall c :: c in s.saved ==> c in p.writable && p.writable[c] in nodes)
    && (ActiveMin in s.saved && ActiveMax in s.saved ==>
          SavedInt(s, ActiveMin).Some? && SavedInt(s, ActiveMax).Some?
          && SavedInt(s, ActiveMin).value <= SavedInt(s, ActiveMax).value
          && p.limits.activeMin.Some? && p.limits.activeMax.Some?)
  }

  lemma WriteLiveWorks(o: Oracle, sys: Sys, path: Option<Node>, v: Value)
    requires o.UndoWorks() && path.Some? && path.value in sys.nodes
    ensures WriteLive(o, sys, path, v).ok && WriteLive(o, sys, path, v).sys.nodes.Keys == sys.nodes.Keys
  {
  }

  lemma {:induction false} OptionalsWork(o: Oracle, st: Restoring, p: Policy, s: PolicySnapshot, cs: seq<Control>)
    requires o.UndoWorks() && Restorable(st.sys.nodes, p, s)
    ensures var after := RestoreOptionals(o, st, p, s, cs);
      after.errors == st.errors && after.sys.nodes.Keys == st.sys.nodes.Keys
    decreases cs
  {
    if cs != [] {
      if cs[0] in s.saved { WriteLiveWorks(o, st.sys, PathOf(p, cs[0]), s.saved[cs[0]]); }
      OptionalsWork(o, RestoreOptional(o, st, p, s, cs[0]), p, s, cs[1..]);
    }
  }

  lemma OneWorks(o: Oracle, st: Restoring, p: Policy, s: PolicySnapshot)
    requires o.UndoWorks() && Restorable(st.sys.nodes, p, s) && SoundPolicySnapshot(s)
    ensures var after := RestoreOne(o, st, p, s);
      after.errors == st.errors && after.sys.nodes.Keys == st.sys.nodes.Keys
  {
    var bounds := RestoreBoundsOf(o, st, p, s);
    assert bounds.errors == st.errors && bounds.sys.nodes.Keys == st.sys.nodes.Keys;
    var governor := RestoreValue(o, bounds, p, s, Governor).state;
    if Governor in s.saved { WriteLiveWorks(o, bounds.sys, PathOf(p, Governor), s.saved[Governor]); }
    OptionalsWork(o, governor, p, s, OPTIONAL_CONTROLS);
  }

  /** With every policy live and no write refused, a restore reports nothing. */
  lemma {:induction false} RestoreWorks(o: Oracle, st: Restoring, live: seq<Policy>, snap: Snapshot)
    requires o.UndoWorks()
    requires forall s :: s in snap ==> SoundPolicySnapshot(s) && Live(live, s.id).Some?
                                       && Restorable(st.sys.nodes, Live(live, s.id).value, s)
    ensures RestoreAll(o, st, live, snap).errors == st.errors
    decreases snap
  {
    if snap != [] {
      var s := snap[0];
      assert s in snap && forall t :: t in snap[1..] ==> t in snap;
      OneWorks(o, st, Live(live, s.id).value, s);
      RestoreWorks(o, RestoreOne(o, st, Live(live, s.id).value, s), live, snap[1..]);
    }
  }

  // ---------------------------------------------------------------- main results

  /** The live node behind a saved control. */
  function PathTo(live: seq<Policy>, s: PolicySnapshot, c: Control): Option<Node> {
    var p := Live(live, s.id);
    if p.None? then None else PathOf(p.value, c)
  }

  /** Saved controls that resolve to one live node agree on its value. */
  ghost predicate Agreement(live: seq<Policy>, snap: Snapshot) {
    forall s, c, t, d | s in snap && c in s.saved && t in snap && d in t.saved
        && PathTo(live, s, c).Some? && PathTo(live, s, c) == PathTo(live, t, d) ::
      s.saved[c] == t.saved[d]
  }

  ghost predicate Sets(live: seq<Policy>, snap: Snapshot, n: Node, v: Value) {
    exists s, c :: s in snap && c in s.saved && PathTo(live, s, c) == Some(n) && s.saved[c] == v
  }

  ghost function GoalNodes(live: seq<Policy>, snap: Snapshot): set<Node> {
    set s, c | s in snap && c in s.saved && PathTo(live, s, c).Some? :: PathTo(live, s, c).value
  }

  /** The value each saved live node is to be restored to. */
  ghost function GoalOf(live: seq<Policy>, snap: Snapshot): Nodes {
    map n | n in GoalNodes(live, snap) :: GoalValue(live, snap, n)
  }

  ghost function GoalValue(live: seq<Policy>, snap: Snapshot, n: Node): (v: Value)
    requires n in GoalNodes(live, snap)
    ensures Sets(live, snap, n, v)
  {
    var s, c :| s in snap && c in s.saved && PathTo(live, s, c) == Some(n);
    assert Sets(live, snap, n, s.saved[c]);
    var v :| Sets(live, snap, n, v);
    v
  }

  lemma AgreementGivesGoal(live: seq<Policy>, snap: Snapshot)
    requires Agreement(live, snap) && forall s :: s in snap ==> SoundPolicySnapshot(s)
    ensures AimsAll(live, snap, GoalOf(live, snap))
  {
    forall s | s in snap && Live(live, s.id).Some? ensures Aims(Live(live, s.id).value, s, GoalOf(live, snap)) {
      var p := Live(live, s.id).value;
      forall c | c in s.saved && c in p.writable
        ensures p.writable[c] in GoalOf(live, snap) && GoalOf(live, snap)[p.writable[c]] == s.saved[c]
      {
        var n := p.writable[c];
        assert PathTo(live, s, c) == Some(n);
        assert n in GoalNodes(live, snap);
        assert Sets(live, snap, n, GoalValue(live, snap, n));
      }
    }
  }

  /** A saved control holds its saved value, on a live node of its own policy. */
  ghost predicate Restored(nodes: Nodes, live: seq<Policy>, s: PolicySnapshot, c: Control) {
    c in s.saved && PathTo(live, s, c).Some? && PathTo(live, s, c).value in nodes
    && nodes[PathTo(live, s, c).value] == s.saved[c]
  }

  ghost predicate Honest(st: Restoring, live: seq<Policy>, snap: Snapshot) {
    forall s, c :: s in snap && c in s.saved ==> Reported(st.errors, s.id, c) || Restored(st.sys.nodes, live, s, c)
  }

  /**
   Restored or reported: whatever policies are live and whatever writes are refused, every saved
   control of every saved policy ends at its saved value or is covered by an error that names its
   own policy, so no policy's failure stops another's restore. Nodes outside the snapshot do not
   change.
   */
  lemma RestoreIsHonest(o: Oracle, sys: Sys, live: seq<Policy>, snap: Snapshot)
    requires Agreement(live, snap) && forall s :: s in snap ==> SoundPolicySnapshot(s)
    ensures var st := RestoreAll(o, Restoring(sys, {}, []), live, snap);
      && Honest(st, live, snap)
      && st.sys.nodes.Keys == sys.nodes.Keys
      && (forall n :: n in sys.nodes && n !in GoalNodes(live, snap) ==> st.sys.nodes[n] == sys.nodes[n])
  {
    AgreementGivesGoal(live, snap);
    var goal := GoalOf(live, snap);
    AllStage(o, Restoring(sys, {}, []), live, snap, goal);
    var st := RestoreAll(o, Restoring(sys, {}, []), live, snap);
    forall s, c | s in snap && c in s.saved
      ensures Reported(st.errors, s.id, c) || Restored(st.sys.nodes, live, s, c)
    {
      if !Reported(st.errors, s.id, c) {
        var p := Live(live, s.id).value;
        assert AtGoal(st.sys.nodes, goal, p.writable[c]);
        assert Aims(p, s, goal);
      }
    }
  }

  /**
   The agreement is exactly what honesty needs: when every saved control is live and no write is
   refused, the restore is honest if and only if saved controls sharing a node agree. Otherwise a
   shared optional node keeps one policy's value and the other policy's is skipped in silence.
   */
  lemma HonestExactlyOnAgreement(o: Oracle, sys: Sys, live: seq<Policy>, snap: Snapshot)
    requires o.UndoWorks()
    requires forall s :: s in snap ==> SoundPolicySnapshot(s) && Live(live, s.id).Some?
                                       && Restorable(sys.nodes, Live(live, s.id).value, s)
    ensures Honest(RestoreAll(o, Restoring(sys, {}, []), live, snap), live, snap) <==> Agreement(live, snap)
  {
    RestoreWorks(o, Restoring(sys, {}, []), live, snap);
    var st := RestoreAll(o, Restoring(sys, {}, []), live, snap);
    if Honest(st, live, snap) {
      forall s, c, t, d | s in snap && c in s.saved && t in snap && d in t.saved
          && PathTo(live, s, c).Some? && PathTo(live, s, c) == PathTo(live, t, d)
        ensures s.saved[c] == t.saved[d]
      {
        assert !Reported(st.errors, s.id, c) && !Reported(st.errors, t.id, d);
        assert Restored(st.sys.nodes, live, s, c) && Restored(st.sys.nodes, live, t, d);
      }
    }
    if Agreement(live, snap) {
      RestoreIsHonest(o, sys, live, snap);
    }
  }

  // ---------------------------------------------------------------- written at most once

  function SuccessfulWrites(log: seq<Entry>, n: Node): nat {
    if log == [] then 0
    else
      var e := log[|log| - 1];
      SuccessfulWrites(log[..|log| - 1], n)
      + if e.attempt.Write? && e.attempt.node == n && e.ok then 1 else 0
  }

  lemma PerformWrites(o: Oracle, phase: Phase, sys: Sys, a: Attempt, n: Node)
    ensures var out := Perform(o, phase, sys, a);
      SuccessfulWrites(out.sys.log, n)
      == SuccessfulWrites(sys.log, n) + (if a.Write? && a.node == n && out.ok then 1 else 0)
  {
    var out := Perform(o, phase, sys, a);
    assert out.sys.log[..|out.sys.log| - 1] == sys.log;
  }

  /** n is no governor or bound of any live policy, as a shared boost switch is not. */
  ghost predicate OnlyOptional(live: seq<Policy>, n: Node) {
    forall p, c :: p in live && PathOf(p, c) == Some(n) ==> IsOptional(c)
  }

  /** base successful writes of n before the restore, and one more once n counts as restored. */
  ghost predicate CountedOnce(st: Restoring, n: Node, base: nat) {
    SuccessfulWrites(st.sys.log, n) == base + (if n in st.restored then 1 else 0)
  }

  lemma WriteLiveCounts(o: Oracle, sys: Sys, path: Option<Node>, v: Value, n: Node)
    ensures var out := WriteLive(o, sys, path, v);
      SuccessfulWrites(out.sys.log, n)
      == SuccessfulWrites(sys.log, n) + (if out.ok && path == Some(n) then 1 else 0)
  {
    if path.Some? { PerformWrites(o, Undo, sys, Write(path.value, v), n); }
  }

  lemma {:induction false} OptionalsCount(
    o: Oracle, st: Restoring, p: Policy, s: PolicySnapshot, cs: seq<Control>, n: Node, base: nat)
    requires CountedOnce(st, n, base)
    ensures CountedOnce(RestoreOptionals(o, st, p, s, cs), n, base)
    decreases cs
  {
    if cs != [] {
      if cs[0] in s.saved { WriteLiveCounts(o, st.sys, PathOf(p, cs[0]), s.saved[cs[0]], n); }
      OptionalsCount(o, RestoreOptional(o, st, p, s, cs[0]), p, s, cs[1..], n, base);
    }
  }

  lemma BoundsCount(o: Oracle, sys: Sys, p: Policy, s: PolicySnapshot, n: Node)
    requires PathOf(p, ActiveMin) != Some(n) && PathOf(p, ActiveMax) != Some(n)
    ensures SuccessfulWrites(RestoreBounds(o, sys, p, s).sys.log, n) == SuccessfulWrites(sys.log, n)
  {
    var minPath, maxPath := PathOf(p, ActiveMin), PathOf(p, ActiveMax);
    var snapMin, snapMax := SavedInt(s, ActiveMin), SavedInt(s, ActiveMax);
    if snapMin.Some? {
      WriteLiveCounts(o, sys, minPath, Number(snapMin.value), n);
    }
    if snapMax.Some? {
      WriteLiveCounts(o, sys, maxPath, Number(snapMax.value), n);
    }
    if snapMin.Some? && snapMax.Some? {
      WriteLiveCounts(o, WriteLive(o, sys, maxPath, Number(snapMax.value)).sys, minPath, Number(snapMin.value), n);
      WriteLiveCounts(o, WriteLive(o, sys, minPath, Number(snapMin.value)).sys, maxPath, Number(snapMax.value), n);
    }
  }

  lemma {:induction false} AllCount(
    o: Oracle, st: Restoring, live: seq<Policy>, snap: Snapshot, n: Node, base: nat)
    requires CountedOnce(st, n, base) && OnlyOptional(live, n)
    ensures CountedOnce(RestoreAll(o, st, live, snap), n, base)
    decreases snap
  {
    if snap != [] {
      var s := snap[0];
      var p := Live(live, s.id);
      if p.Some? {
        BoundsCount(o, st.sys, p.value, s, n);
        var bounds := RestoreBoundsOf(o, st, p.value, s);
        if Governor in s.saved {
          WriteLiveCounts(o, bounds.sys, PathOf(p.value, Governor), s.saved[Governor], n);
        }
        var governor := RestoreValue(o, bounds, p.value, s, Governor).state;
        OptionalsCount(o, governor, p.value, s, OPTIONAL_CONTROLS, n, base);
        AllCount(o, RestoreOne(o, st, p.value, s), live, snap[1..], n, base);
      } else {
        AllCount(o, st.(errors := st.errors + [Vanished(s.id)]), live, snap[1..], n, base);
      }
    }
  }

  /** A restore writes an optional node successfully at most once, however many policies share it. */
  lemma SharedNodeWrittenOnce(o: Oracle, sys: Sys, live: seq<Policy>, snap: Snapshot, n: Node)
    requires OnlyOptional(live, n)
    ensures var st := RestoreAll(o, Restoring(sys, {}, []), live, snap);
      SuccessfulWrites(sys.log, n) <= SuccessfulWrites(st.sys.log, n) <= SuccessfulWrites(sys.log, n) + 1
  {
    AllCount(o, Restoring(sys, {}, []), live, snap, n, SuccessfulWrites(sys.log, n));
  }
}
