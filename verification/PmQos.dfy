/**
 The PM QoS latency lock: an open descriptor on the DMA-latency device, or a fallback that
 disabled cpuidle states and remembers what they held (boostlock/pm_qos.py).
 */
module PmQos {
  import opened Common
  import opened Kernel

  const INT32_MAX: int := 2147483647

  datatype Saved = Saved(node: Node, value: Value)

  /** A descriptor is identified by the log position of the attempt that opened it. */
  datatype Qos = Qos(fd: Option<nat>, locked: bool, fallback: bool, saved: seq<Saved>, latency: int)

  datatype World = World(sys: Sys, qos: Qos)

  /** ok is false when the operation raises. */
  datatype Step = Step(world: World, ok: bool)

  predicate Idle(q: Qos) { q.fd.None? && !q.locked && !q.fallback }

  // ---------------------------------------------------------------- operations

  /** Open the device and write the latency; a descriptor whose write fails is closed again. */
  function AcquireDevice(o: Oracle, sys: Sys, us: int): Outcome {
    var opening := Perform(o, Forward, sys, OpenDevice);
    if !opening.ok then opening
    else
      var written := Perform(o, Forward, opening.sys, WriteLatency(us));
      if written.ok then written
      else Outcome(Perform(o, Undo, written.sys, CloseDevice).sys, false)
  }

  /** The device route of lock, with the fallback of its own disallowed. */
  function LockDevice(o: Oracle, w: World, us: Option<int>): Step {
    if us.Some? && !(0 <= us.value <= INT32_MAX) then Step(w, false)
    else
      var q := if us.Some? then w.qos.(latency := us.value) else w.qos;
      if q.locked then
        if !q.fallback && q.fd.Some? then
          Step(World(Perform(o, Forward, w.sys, WriteLatency(q.latency)).sys, q), true)
        else Step(World(w.sys, q), true)
      else
        var acquired := AcquireDevice(o, w.sys, q.latency);
        Step(World(acquired.sys,
                   if acquired.ok then q.(fd := Some(|w.sys.log|), locked := true, fallback := false) else q),
             acquired.ok)
  }

  /** Record a fallback that the transaction executor has already applied. */
  function ActivateFallback(w: World, saved: seq<Saved>): World {
    w.(qos := w.qos.(saved := saved, locked := true, fallback := true))
  }

  function WriteBack(o: Oracle, sys: Sys, saved: seq<Saved>): Sys
    decreases saved
  {
    if saved == [] then sys
    else WriteBack(o, Perform(o, Undo, sys, Write(saved[0].node, saved[0].value)).sys, saved[1..])
  }

  /** A strict release reports a failed close; both kinds forget the descriptor and the fallback. */
  function ReleaseLock(o: Oracle, w: World, strict: bool): Step {
    var closed := Perform(o, Undo, w.sys, CloseDevice);
    var sys := if w.qos.fd.Some? then closed.sys else w.sys;
    var sys' := if w.qos.fallback then WriteBack(o, sys, w.qos.saved) else sys;
    var saved' := if w.qos.fallback then [] else w.qos.saved;
    Step(World(sys', w.qos.(fd := None, locked := false, fallback := false, saved := saved')),
         !(strict && w.qos.fd.Some? && !closed.ok))
  }

  // ---------------------------------------------------------------- what each operation does

  /** Nothing but these attempts has happened since before. */
  ghost predicate Attempted(before: Sys, after: Sys, entries: seq<Entry>) {
    after.nodes == before.nodes && after.log == before.log + entries
  }

  /** An attempt made in a state, with the outcome it met there. */
  function Met(o: Oracle, phase: Phase, sys: Sys, attempt: Attempt): Entry {
    Entry(phase, attempt, Perform(o, phase, sys, attempt).ok)
  }

  /**
   A latency out of range is refused before anything is touched. A lock that is held is asked for
   the new latency, whatever comes of it, and needs nothing of a fallback. A lock that is not held
   is taken by opening the device and writing the latency; if the write is refused the descriptor
   is closed again. A lock that fails leaves everything as it was but for the latency asked for.
   */
  lemma LockMeans(o: Oracle, w: World, us: Option<int>)
    ensures var r := LockDevice(o, w, us); var asked := if us.Some? then us.value else w.qos.latency;
      if us.Some? && !(0 <= us.value < 0x8000_0000) then !r.ok && r.world == w
      else if w.qos.locked then
        && r.ok && r.world.qos == w.qos.(latency := asked)
        && Attempted(w.sys, r.world.sys,
             if w.qos.fd.Some? && !w.qos.fallback then [Met(o, Forward, w.sys, WriteLatency(asked))] else [])
      else DeviceAsked(w, r, asked)
  {
    var asked := if us.Some? then us.value else w.qos.latency;
    assert w.sys.log + [] == w.sys.log;
    if !w.qos.locked && (us.Some? ==> 0 <= us.value <= INT32_MAX) { AcquireAsks(o, w.sys, asked); }
  }

  /** The device was opened and the latency written, as far as each attempt was granted. */
  ghost predicate DeviceAsked(w: World, r: Step, asked: int) {
    && (r.world.qos == if r.ok then w.qos.(fd := Some(|w.sys.log|), locked := true, fallback := false, latency := asked)
                       else w.qos.(latency := asked))
    && AsksDevice(w.sys, r.world.sys, asked, r.ok)
  }

  ghost predicate AsksDevice(before: Sys, after: Sys, asked: int, ok: bool) {
    if ok then
      Attempted(before, after, [Entry(Forward, OpenDevice, true), Entry(Forward, WriteLatency(asked), true)])
    else
      || Attempted(before, after, [Entry(Forward, OpenDevice, false)])
      || exists closed :: Attempted(before, after, Withdrawn(asked, closed))
  }

  /** A descriptor that was opened, refused the latency, and was closed again. */
  function Withdrawn(asked: int, closed: bool): seq<Entry> {
    [Entry(Forward, OpenDevice, true), Entry(Forward, WriteLatency(asked), false), Entry(Undo, CloseDevice, closed)]
  }

  lemma AcquireAsks(o: Oracle, sys: Sys, us: int)
    ensures var r := AcquireDevice(o, sys, us); AsksDevice(sys, r.sys, us, r.ok)
  {
    var opening := Perform(o, Forward, sys, OpenDevice);
    var written := Perform(o, Forward, opening.sys, WriteLatency(us));
    if opening.ok && !written.ok {
      var closing := Perform(o, Undo, written.sys, CloseDevice);
      assert Attempted(sys, closing.sys, Withdrawn(us, closing.ok));
    }
  }

  /**
   A release leaves the lock idle with nothing on record, closing the descriptor if one is held and
   closing nothing else. It fails exactly when it is strict and that close is refused.
   */
  lemma ReleaseMeans(o: Oracle, w: World, strict: bool)
    requires !w.qos.fallback ==> w.qos.saved == []
    ensures var r := ReleaseLock(o, w, strict); var log := r.world.sys.log; var k := |w.sys.log|;
      && r.world.qos == Qos(None, false, false, [], w.qos.latency)
      && w.sys.log <= log
      && (forall j :: k <= j < |log| ==>
            log[j].phase.Undo? && (log[j].attempt.CloseDevice? <==> j == k && w.qos.fd.Some?))
      && (w.qos.fd.Some? ==> k < |log| && (!r.ok <==> strict && !log[k].ok))
      && (w.qos.fd.None? ==> r.ok)
  {
    var sys := if w.qos.fd.Some? then Perform(o, Undo, w.sys, CloseDevice).sys else w.sys;
    if w.qos.fallback { WriteBackLogs(o, sys, w.qos.saved); }
  }

  lemma {:induction false} WriteBackLogs(o: Oracle, sys: Sys, saved: seq<Saved>)
    ensures var log := WriteBack(o, sys, saved).log;
      && sys.log <= log
      && forall j :: |sys.log| <= j < |log| ==> log[j].phase.Undo? && log[j].attempt.Write?
    decreases saved
  {
    if saved != [] {
      WriteBackLogs(o, Perform(o, Undo, sys, Write(saved[0].node, saved[0].value)).sys, saved[1..]);
    }
  }

  // ---------------------------------------------------------------- what release restores

  ghost predicate DistinctSaved(saved: seq<Saved>) {
    forall i, j :: 0 <= i < j < |saved| ==> saved[i].node != saved[j].node
  }

  ghost predicate SavedNode(saved: seq<Saved>, n: Node) {
    exists s :: s in saved && s.node == n
  }

  /** Writing back changes saved nodes only. */
  lemma {:induction false} WriteBackFrame(o: Oracle, sys: Sys, saved: seq<Saved>)
    ensures var after := WriteBack(o, sys, saved);
      && after.nodes.Keys == sys.nodes.Keys
      && forall n :: n in sys.nodes && !SavedNode(saved, n) ==> after.nodes[n] == sys.nodes[n]
    decreases saved
  {
    if saved != [] {
      var next := Perform(o, Undo, sys, Write(saved[0].node, saved[0].value)).sys;
      WriteBackFrame(o, next, saved[1..]);
      assert saved[0] in saved && forall s :: s in saved[1..] ==> s in saved;
      forall n | n in sys.nodes && !SavedNode(saved, n) ensures WriteBack(o, sys, saved).nodes[n] == sys.nodes[n] {
        assert n in next.nodes.Keys && !SavedNode(saved[1..], n);
      }
    }
  }

  /** Release attempts one write for each saved node and touches nothing else. */
  lemma {:induction false} WriteBackEverySaved(o: Oracle, sys: Sys, saved: seq<Saved>)
    requires DistinctSaved(saved)
    ensures var after := WriteBack(o, sys, saved);
      && |after.log| == |sys.log| + |saved|
      && sys.log <= after.log
      && (forall i :: 0 <= i < |saved| ==>
            after.log[|sys.log| + i] == Entry(Undo, Write(saved[i].node, saved[i].value),
                                              after.log[|sys.log| + i].ok)
            && (after.log[|sys.log| + i].ok ==> saved[i].node in after.nodes
                                                && after.nodes[saved[i].node] == saved[i].value))
      && after.nodes.Keys == sys.nodes.Keys
      && (forall n :: n in sys.nodes && (forall s :: s in saved ==> s.node != n) ==> after.nodes[n] == sys.nodes[n])
      && (o.UndoWorks() ==> forall s :: s in saved && s.node in sys.nodes ==> after.nodes[s.node] == s.value)
    decreases saved
  {
    if saved != [] {
      var next := Perform(o, Undo, sys, Write(saved[0].node, saved[0].value)).sys;
      WriteBackEverySaved(o, next, saved[1..]);
      var after := WriteBack(o, sys, saved);
      assert forall s :: s in saved[1..] ==> s.node != saved[0].node;
      assert next.log == sys.log + [next.log[|sys.log|]];
      assert after.log[|sys.log|] == next.log[|sys.log|];
      forall i | 1 <= i < |saved|
        ensures after.log[|sys.log| + i] == Entry(Undo, Write(saved[i].node, saved[i].value),
                                              after.log[|sys.log| + i].ok)
            && (after.log[|sys.log| + i].ok ==> saved[i].node in after.nodes
                                                && after.nodes[saved[i].node] == saved[i].value)
      {
        assert saved[1..][i - 1] == saved[i];
        assert |sys.log| + i == |next.log| + (i - 1);
      }
    }
  }

  // ---------------------------------------------------------------- the ledger

  function Opened(log: seq<Entry>): nat {
    if log == [] then 0
    else Opened(log[..|log| - 1]) + if log[|log| - 1].attempt.OpenDevice? && log[|log| - 1].ok then 1 else 0
  }

  function CloseAttempts(log: seq<Entry>): nat {
    if log == [] then 0
    else CloseAttempts(log[..|log| - 1]) + if log[|log| - 1].attempt.CloseDevice? then 1 else 0
  }

  lemma PerformCounts(o: Oracle, phase: Phase, sys: Sys, a: Attempt)
    ensures var out := Perform(o, phase, sys, a);
      && Opened(out.sys.log) == Opened(sys.log) + (if a.OpenDevice? && out.ok then 1 else 0)
      && CloseAttempts(out.sys.log) == CloseAttempts(sys.log) + (if a.CloseDevice? then 1 else 0)
  {
    var out := Perform(o, phase, sys, a);
    assert out.sys.log[..|out.sys.log| - 1] == sys.log;
  }

  lemma {:induction false} WriteBackCounts(o: Oracle, sys: Sys, saved: seq<Saved>)
    ensures Opened(WriteBack(o, sys, saved).log) == Opened(sys.log)
    ensures CloseAttempts(WriteBack(o, sys, saved).log) == CloseAttempts(sys.log)
    decreases saved
  {
    if saved != [] {
      var a := Write(saved[0].node, saved[0].value);
      PerformCounts(o, Undo, sys, a);
      WriteBackCounts(o, Perform(o, Undo, sys, a).sys, saved[1..]);
    }
  }

  /** Locked exactly when one of a descriptor and the fallback is held, never both. */
  ghost predicate Sound(q: Qos) {
    && (q.locked <==> q.fd.Some? || q.fallback)
    && !(q.fd.Some? && q.fallback)
    && (!q.fallback ==> q.saved == [])
    && DistinctSaved(q.saved)
  }

  /** What undoing a run needs of the records, also where a descriptor and a fallback are both held. */
  ghost predicate Tidy(q: Qos) {
    && DistinctSaved(q.saved)
    && (q.fallback ==> q.locked)
    && (!q.fallback ==> q.saved == [])
  }

  /** And descriptors opened less close attempts is one while a descriptor is held, else zero. */
  ghost predicate LedgerOk(w: World) {
    && Sound(w.qos)
    && Opened(w.sys.log) - CloseAttempts(w.sys.log) == (if w.qos.fd.Some? then 1 else 0)
  }

  datatype Op = LockOp(us: Option<int>) | ActivateOp(saved: seq<Saved>) | UnlockOp | ReleaseStrictOp

  function Apply(o: Oracle, w: World, op: Op): World {
    match op
    case LockOp(us) => LockDevice(o, w, us).world
    case ActivateOp(saved) => ActivateFallback(w, saved)
    case UnlockOp => ReleaseLock(o, w, false).world
    case ReleaseStrictOp => ReleaseLock(o, w, true).world
  }

  function RunOps(o: Oracle, w: World, ops: seq<Op>): World
    decreases ops
  {
    if ops == [] then w else RunOps(o, Apply(o, w, ops[0]), ops[1..])
  }

  /** The planned fallback is activated only while nothing is held, with one value for each node. */
  ghost predicate Disciplined(o: Oracle, w: World, ops: seq<Op>)
    decreases ops
  {
    ops == [] ||
    (&& (ops[0].ActivateOp? ==> !w.qos.locked && DistinctSaved(ops[0].saved))
     && Disciplined(o, Apply(o, w, ops[0]), ops[1..]))
  }

  lemma AcquireCounts(o: Oracle, sys: Sys, us: int)
    ensures var r := AcquireDevice(o, sys, us);
      && Opened(r.sys.log) - CloseAttempts(r.sys.log)
         == Opened(sys.log) - CloseAttempts(sys.log) + (if r.ok then 1 else 0)
      && r.sys.nodes == sys.nodes
  {
    PerformCounts(o, Forward, sys, OpenDevice);
    var opening := Perform(o, Forward, sys, OpenDevice);
    PerformCounts(o, Forward, opening.sys, WriteLatency(us));
    var written := Perform(o, Forward, opening.sys, WriteLatency(us));
    PerformCounts(o, Undo, written.sys, CloseDevice);
  }

  /** A failed lock holds nothing it did not hold before; no lock changes a sysfs node. */
  lemma LockKeepsLedger(o: Oracle, w: World, us: Option<int>)
    requires LedgerOk(w)
    ensures var r := LockDevice(o, w, us);
      && LedgerOk(r.world)
      && (!r.ok ==> r.world.qos.(latency := 0) == w.qos.(latency := 0))
      && r.world.sys.nodes == w.sys.nodes
      && (r.ok ==> r.world.qos.locked)
  {
    var q := if us.Some? then w.qos.(latency := us.value) else w.qos;
    PerformCounts(o, Forward, w.sys, WriteLatency(q.latency));
    AcquireCounts(o, w.sys, q.latency);
  }

  lemma ReleaseKeepsLedger(o: Oracle, w: World, strict: bool)
    requires LedgerOk(w)
    ensures var after := ReleaseLock(o, w, strict).world;
      && LedgerOk(after)
      && Idle(after.qos)
      && after.sys.nodes == (if w.qos.fallback then WriteBack(o, w.sys, w.qos.saved).nodes else w.sys.nodes)
  {
    PerformCounts(o, Undo, w.sys, CloseDevice);
    WriteBackCounts(o, w.sys, w.qos.saved);
  }

  /**
   The ledger over any run: however locks, activations and releases succeed or fail, the
   controller is locked iff exactly one of descriptor and fallback is held, and every
   descriptor ever opened has met one close attempt unless it is the one still held.
   */
  lemma {:induction false} LedgerOverAnyRun(o: Oracle, w: World, ops: seq<Op>)
    requires LedgerOk(w) && Disciplined(o, w, ops)
    ensures LedgerOk(RunOps(o, w, ops))
    decreases ops
  {
    if ops != [] {
      match ops[0] {
        case LockOp(us) => LockKeepsLedger(o, w, us);
        case ActivateOp(_) =>
        case UnlockOp => ReleaseKeepsLedger(o, w, false);
        case ReleaseStrictOp => ReleaseKeepsLedger(o, w, true);
      }
      LedgerOverAnyRun(o, Apply(o, w, ops[0]), ops[1..]);
    }
  }

  /**
   The discipline is needed: activating while a descriptor is held leaves both held, and
   activating twice forgets the values saved first.
   */
  lemma UndisciplinedActivationBreaksLedger(o: Oracle, w: World, saved: seq<Saved>)
    requires LedgerOk(w) && DistinctSaved(saved) && w.qos.locked
    ensures w.qos.fd.Some? ==> !LedgerOk(ActivateFallback(w, saved))
    ensures w.qos.fallback ==> ActivateFallback(w, saved).qos.saved == saved
  {
  }

  // ---------------------------------------------------------------- the controller

  class PmQosController {
    const machine: Machine
    var fd: Option<nat>
    var isLocked: bool
    var usingFallback: bool
    var savedStates: seq<Saved>
    var targetLatencyUs: int

    constructor (machine: Machine, latencyUs: int)
      ensures this.machine == machine
      ensures View() == World(machine.View(), Qos(None, false, false, [], latencyUs))
    {
      this.machine := machine;
      fd := None;
      isLocked := false;
      usingFallback := false;
      savedStates := [];
      targetLatencyUs := latencyUs;
    }

    function View(): World reads this, machine {
      World(machine.View(), Qos(fd, isLocked, usingFallback, savedStates, targetLatencyUs))
    }

    method Lock(us: Option<int>) returns (ok: bool)
      modifies this, machine
      ensures LockDevice(machine.oracle, old(View()), us) == Step(View(), ok)
    {
      if us.Some? {
        if us.value < 0 || us.value > INT32_MAX {
          return false;
        }
        targetLatencyUs := us.value;
      }
      if isLocked {
        if !usingFallback && fd.Some? {
          var _ := machine.Attempt(Forward, WriteLatency(targetLatencyUs));
        }
        return true;
      }
      var descriptor := |machine.log|;
      ok := machine.Attempt(Forward, OpenDevice);
      if !ok {
        return;
      }
      ok := machine.Attempt(Forward, WriteLatency(targetLatencyUs));
      if !ok {
        var _ := machine.Attempt(Undo, CloseDevice);
        return;
      }
      fd := Some(descriptor);
      isLocked := true;
      usingFallback := false;
    }

    method ActivatePlannedFallback(saved: seq<Saved>)
      modifies this
      ensures View() == ActivateFallback(old(View()), saved)
    {
      savedStates := saved;
      isLocked := true;
      usingFallback := true;
    }

    method Release(strict: bool) returns (ok: bool)
      modifies this, machine
      ensures ReleaseLock(machine.oracle, old(View()), strict) == Step(View(), ok)
    {
      ok := true;
      if fd.Some? {
        var closed := machine.Attempt(Undo, CloseDevice);
        if !closed && strict {
          ok := false;
        }
        fd := None;
      }
      if usingFallback {
        ghost var begin := machine.View();
        for i := 0 to |savedStates|
          invariant savedStates == old(savedStates) && fd.None? && usingFallback
          invariant isLocked == old(isLocked) && targetLatencyUs == old(targetLatencyUs)
          invariant WriteBack(machine.oracle, begin, savedStates)
                    == WriteBack(machine.oracle, machine.View(), savedStates[i..])
        {
          DropStep(savedStates, i);
          var _ := machine.Attempt(Undo, Write(savedStates[i].node, savedStates[i].value));
        }
        savedStates := [];
        usingFallback := false;
      }
      isLocked := false;
    }
  }
}
