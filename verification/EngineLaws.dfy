/**
 Laws of the pulse engine: its invariant over any run of commands, the thermal stop from the
 guard down to the worker, worker periods and waveforms, and fair turns.
 */
module EngineLaws {
  import opened Arithmetic
  import opened Common
  import opened Policies
  import opened Duty
  import opened Engines
  import Thermal

  // ---------------------------------------------------------------- the invariant

  lemma {:induction false} UpdatesKeepTargets(c: Controller, ops: seq<Op>)
    requires Consistent(c) && forall op :: op in ops ==> op.Update? && op.key in c.targets
    ensures Duty.Run(c, ops).targets == c.targets && Duty.Run(c, ops).settings == c.settings
    decreases ops
  {
    if ops != [] {
      assert ops[0] in ops && forall op :: op in ops[1..] ==> op in ops;
      UpdatesKeepTargets(Do(c, ops[0]), ops[1..]);
    }
  }

  lemma TickKeepsInv(e: Engine, input: Input)
    requires EngineInv(e) && ValidInput(e, input)
    ensures EngineInv(Tick(e, input))
  {
    UpdatesKeepTargets(e.controller, Updates(e, input, input.order));
    var after := Tick(e, input);
    forall w | w in after.workers
      ensures w.cpu in e.setup.cores && w.policy == e.owners[w.cpu] && w.target == e.targets[w.policy]
    {
      var i :| 0 <= i < |after.workers| && after.workers[i] == w;
      assert e.workers[i] in e.workers;
    }
  }

  /** The controller accepts the resolved targets exactly when none of them is configured as not positive. */
  lemma RetuneAcceptedExactly(s: Setup, config: EngineConfig, discovered: seq<Policy>)
    ensures var targets := Resolve(s, config, discovered).targets;
      Acceptable(targets) <==>
      forall k: Key :: k.PolicyKey? && k in targets && k in s.configured ==> s.configured[k] > 0
  {
    ResolveCovers(s, config, discovered);
  }

  /**
   An accepted reconfiguration never loses a worker, and puts every worker's policy into the new
   target map, even after one that was refused. A refused one leaves the engine whole, no more.
   */
  lemma RetuneKeepsInv(e: Engine, config: EngineConfig, discovered: seq<Policy>, first: Key)
    requires Whole(e) && first in Resolve(e.setup, config, discovered).targets
    ensures var after := Retuned(e, config, discovered, first);
      Whole(after) && (Acceptable(after.targets) ==> EngineInv(after))
  {
    ResolveCovers(e.setup, config, discovered);
    var aimed := Aimed(e, config, discovered);
    if Acceptable(aimed.targets) { FollowKeepsInv(e, aimed, first); }
  }

  lemma FollowKeepsInv(e: Engine, aimed: Engine, first: Key)
    requires Whole(e) && aimed == e.(config := aimed.config, owners := aimed.owners, targets := aimed.targets)
    requires first in aimed.targets && Acceptable(aimed.targets)
    requires forall cpu :: cpu in e.setup.cores ==> cpu in aimed.owners && aimed.owners[cpu] in aimed.targets
    ensures EngineInv(Followed(aimed, first))
  {
    var after := Followed(aimed, first);
    forall w | w in after.workers
      ensures w.cpu in e.setup.cores && w.policy == aimed.owners[w.cpu] && w.target == aimed.targets[w.policy]
    {
      var i :| 0 <= i < |after.workers| && after.workers[i] == w;
      assert e.workers[i] in e.workers;
    }
  }

  lemma StartKeepsInv(e: Engine, duty: real)
    requires EngineInv(e)
    ensures EngineInv(Started(e, duty))
  {
    var after := Started(e, duty);
    forall w | w in after.workers
      ensures w.cpu in e.setup.cores && w.policy == e.owners[w.cpu] && w.target == e.targets[w.policy]
    {
      var i :| 0 <= i < |after.workers| && after.workers[i] == w;
      assert e.setup.cores[i] in e.setup.cores;
    }
  }

  /** A reconfiguration the controller does not refuse. */
  ghost predicate Accepted(e: Engine, c: Command) {
    c.Retune? ==> Acceptable(Resolve(e.setup, c.config, c.discovered).targets)
  }

  lemma CommandKeepsInv(e: Engine, c: Command)
    requires EngineInv(e) && ValidCommand(e, c) && Accepted(e, c)
    ensures EngineInv(Engines.Perform(e, c))
  {
    match c {
      case Retune(config, discovered, first) => RetuneKeepsInv(e, config, discovered, first);
      case ControlTick(input) => TickKeepsInv(e, input);
      case StartWorkers(duty) => StartKeepsInv(e, duty);
      case _ =>
    }
  }

  /** A run of commands, each of them meaningful in the state it meets and not refused. */
  ghost predicate ValidRun(e: Engine, cs: seq<Command>)
    requires EngineInv(e)
    decreases cs
  {
    cs == [] ||
    (ValidCommand(e, cs[0]) && Accepted(e, cs[0])
     && (CommandKeepsInv(e, cs[0]); ValidRun(Engines.Perform(e, cs[0]), cs[1..])))
  }

  function EngineRun(e: Engine, cs: seq<Command>): (r: Engine)
    requires EngineInv(e) && ValidRun(e, cs)
    ensures EngineInv(r)
    decreases cs
  {
    if cs == [] then e
    else
      CommandKeepsInv(e, cs[0]);
      EngineRun(Engines.Perform(e, cs[0]), cs[1..])
  }

  // ---------------------------------------------------------------- worker periods

  /** Square and triangular shapes; Drawn stands for a jittered or sine value, whatever it is. */
  datatype Shape = Square | Triangular | Drawn(raw: real)

  datatype Waveform = Waveform(shape: Shape, minDuty: real, maxDuty: real, period: real)

  /** Where time lies in the period, from zero up to but excluding one. */
  function Phase(time: real, period: real): real
    requires period > 0.0
  {
    Remainder(time, period) / period
  }

  function Remainder(x: real, y: real): real
    requires y > 0.0
  {
    x - y * (x / y).Floor as real
  }

  function Ramp(phase: real): real { if phase < 0.5 then phase * 2.0 else (1.0 - phase) * 2.0 }

  /** From the base up to the top and back again. */
  function Triangle(base: real, top: real, phase: real): real { base + Greater(0.0, top - base) * Ramp(phase) }

  function ComputeDuty(w: Waveform, base: real, time: real): real
    requires w.period > 0.0
  {
    var raw := match w.shape
      case Square => base
      case Triangular => Triangle(base, w.maxDuty, Phase(time, w.period))
      case Drawn(raw) => raw;
    Greater(w.minDuty, Lesser(w.maxDuty, raw))
  }

  datatype Period = Idle | Pulse(active: real, rest: real)

  /** One period of a worker: idle while paused or without duty, otherwise a burst and a rest. */
  function PeriodOf(paused: bool, base: real, wave: Option<Waveform>, time: real, length: real): Period
    requires wave.Some? ==> wave.value.period > 0.0
  {
    if paused || base <= 0.0 then Idle
    else
      var effective := if wave.Some? then ComputeDuty(wave.value, base, time) else base;
      var active := length * effective / 100.0;
      Pulse(active, Greater(0.0, length - active))
  }

  lemma RemainderBounds(x: real, y: real, q: real, f: real)
    requires y > 0.0 && x == q * y && f <= q < f + 1.0
    ensures 0.0 <= x - y * f < y
  {
    var part, gap := q - f, 1.0 - (q - f);
    assert y * part == x - y * f;
    PartOf(y, part);
    Positive(gap, y);
    assert gap * y == y - y * part;
  }

  lemma QuotientBounds(x: real, y: real)
    requires 0.0 <= x < y
    ensures 0.0 <= x / y < 1.0
  {
    assert x / y * y == x;
    assert (1.0 - x / y) * y == y - x;
    SignOfFactor(x / y, y);
    SignOfFactor(1.0 - x / y, y);
  }

  lemma PhaseInPeriod(time: real, period: real)
    requires period > 0.0
    ensures 0.0 <= Phase(time, period) < 1.0
  {
    var q := time / period;
    RemainderBounds(time, period, q, q.Floor as real);
    QuotientBounds(Remainder(time, period), period);
  }

  lemma TriangleBetween(base: real, top: real, phase: real)
    requires base <= top && 0.0 <= phase < 1.0
    ensures base <= Triangle(base, top, phase) <= top
    ensures phase == 0.0 ==> Triangle(base, top, phase) == base
    ensures phase == 0.5 ==> Triangle(base, top, phase) == top
  {
    var span, ramp := Greater(0.0, top - base), Ramp(phase);
    assert span == top - base && 0.0 <= ramp <= 1.0;
    PartOf(span, ramp);
    assert Triangle(base, top, phase) == base + span * ramp;
  }

  /** A triangular wave stays between its base and the maximum, and a square wave is its base. */
  lemma WaveformShapes(w: Waveform, base: real, time: real)
    requires w.period > 0.0 && w.minDuty <= base <= w.maxDuty && !w.shape.Drawn?
    ensures base <= ComputeDuty(w, base, time) <= w.maxDuty
    ensures w.shape.Square? || Phase(time, w.period) == 0.0 ==> ComputeDuty(w, base, time) == base
    ensures w.shape.Triangular? && Phase(time, w.period) == 0.5 ==> ComputeDuty(w, base, time) == w.maxDuty
  {
    PhaseInPeriod(time, w.period);
    TriangleBetween(base, w.maxDuty, Phase(time, w.period));
  }

  /** A time that is x into its period, whichever period that is. */
  lemma PhaseAt(k: int, x: real, period: real)
    requires period > 0.0 && 0.0 <= x < period
    ensures Phase(k as real * period + x, period) == x / period
  {
    QuotientBounds(x, period);
    assert x / period * period == x;
    WholePeriods(k as real * period + x, period, k, x / period);
  }

  lemma WholePeriods(time: real, period: real, k: int, f: real)
    requires period > 0.0 && 0.0 <= f < 1.0 && time == k as real * period + f * period
    ensures Remainder(time, period) == f * period
  {
    assert time == (k as real + f) * period;
    assert time / period == k as real + f;
    assert (k as real + f).Floor == k;
  }

  lemma HalfOf(phase: real, period: real, x: real)
    requires period > 0.0 && phase * period == x
    ensures phase < 0.5 <==> 2.0 * x < period
  {
    if phase < 0.5 { Positive(0.5 - phase, period); assert (0.5 - phase) * period == 0.5 * period - x; }
    if phase >= 0.5 { NotNegative(phase - 0.5, period); assert (phase - 0.5) * period == x - 0.5 * period; }
  }

  /** The point x into a triangular wave: what x, or what is left, has of half a period, between base and top. */
  predicate OnTriangle(wave: real, base: real, top: real, period: real, x: real) {
    (wave - base) * period == Greater(0.0, top - base) * (2.0 * Lesser(x, period - x))
  }

  lemma TriangleAt(base: real, top: real, period: real, k: int, x: real, time: real)
    requires period > 0.0 && 0.0 <= x < period && time == k as real * period + x
    ensures OnTriangle(Triangle(base, top, Phase(time, period)), base, top, period, x)
  {
    PhaseAt(k, x, period);
    var phase := x / period;
    assert phase * period == x;
    HalfOf(phase, period, x);
    RampTimes(phase, period, x);
    Scaled(Greater(0.0, top - base), Ramp(phase), period);
  }

  /**
   The duty x into any period, number k: a square wave is its base, a drawn one whatever was drawn and
   a triangular one on its way between base and maximum, each inside the duty limits.
   */
  lemma WaveAt(w: Waveform, base: real, k: int, x: real, time: real) returns (wave: real)
    requires w.period > 0.0 && 0.0 <= x < w.period && time == k as real * w.period + x
    ensures ComputeDuty(w, base, time) == Greater(w.minDuty, Lesser(w.maxDuty, wave))
    ensures match w.shape
      case Square => wave == base
      case Drawn(raw) => wave == raw
      case Triangular => OnTriangle(wave, base, w.maxDuty, w.period, x)
  {
    match w.shape {
      case Square => wave := base;
      case Drawn(raw) => wave := raw;
      case Triangular =>
        wave := Triangle(base, w.maxDuty, Phase(time, w.period));
        TriangleAt(base, w.maxDuty, w.period, k, x, time);
    }
  }

  lemma RampTimes(phase: real, period: real, x: real)
    requires phase * period == x && (phase < 0.5 <==> 2.0 * x < period)
    ensures Ramp(phase) * period == 2.0 * Lesser(x, period - x)
  {
    if phase < 0.5 { assert phase * 2.0 * period == 2.0 * (phase * period); }
    else { assert (1.0 - phase) * 2.0 * period == 2.0 * (period - phase * period); }
  }

  lemma Scaled(span: real, ramp: real, period: real)
    ensures span * ramp * period == span * (ramp * period)
  {
  }

  /** A triangular wave never falls in the first half of its period, and comes down as it went up. */
  lemma TriangleRisesAndFalls(w: Waveform, base: real, early: real, late: real)
    requires w.period > 0.0 && w.minDuty <= base <= w.maxDuty && w.shape.Triangular?
    ensures Phase(early, w.period) <= Phase(late, w.period) <= 0.5 ==>
              ComputeDuty(w, base, early) <= ComputeDuty(w, base, late)
    ensures Phase(early, w.period) + Phase(late, w.period) == 1.0 ==>
              ComputeDuty(w, base, early) == ComputeDuty(w, base, late)
  {
    TriangleGrows(base, w.maxDuty, Phase(early, w.period), Phase(late, w.period));
  }

  lemma TriangleGrows(base: real, top: real, p: real, q: real)
    ensures p <= q <= 0.5 ==> Triangle(base, top, p) <= Triangle(base, top, q)
    ensures p + q == 1.0 ==> Triangle(base, top, p) == Triangle(base, top, q)
  {
    if Ramp(p) <= Ramp(q) { PartGrows(Greater(0.0, top - base), Ramp(p), Ramp(q)); }
    assert p + q == 1.0 ==> Ramp(p) == Ramp(q);
  }

  lemma PartGrows(x: real, f: real, g: real)
    requires 0.0 <= x && f <= g
    ensures x * f <= x * g
  {
    assert x * g - x * f == x * (g - f);
  }

  lemma PartOf(x: real, f: real)
    requires 0.0 <= x && 0.0 <= f <= 1.0
    ensures 0.0 <= x * f <= x
    ensures f == 1.0 ==> x * f == x
    ensures f == 0.0 ==> x * f == 0.0
  {
    assert x - x * f == x * (1.0 - f);
    assert x * (1.0 - f) >= 0.0;
  }

  /**
   A worker has a period of its own exactly when it is not paused and has a positive duty, whatever
   the waveform. With a duty of at most one hundred the burst and the rest fill the period exactly.
   The burst is positive where the minimum is, which lifts any positive duty to it, and otherwise
   for every waveform but a drawn one, which can fall to a minimum of zero.
   */
  lemma PeriodIsExact(paused: bool, base: real, w: Waveform, time: real, length: real)
    requires w.period > 0.0 && length > 0.0 && 0.0 <= w.minDuty <= w.maxDuty <= 100.0
    ensures var p := PeriodOf(paused, base, Some(w), time, length);
      && (p.Idle? <==> paused || base <= 0.0)
      && (p.Pulse? ==> p.active + p.rest == length && 0.0 <= p.active <= length
                       && length * w.minDuty <= p.active * 100.0 <= length * w.maxDuty
                       && p.active * 100.0 == length * ComputeDuty(w, base, time)
                       && (p.active > 0.0 <==> ComputeDuty(w, base, time) > 0.0))
      && (p.Pulse? && (w.minDuty > 0.0 || (w.maxDuty > 0.0 && !w.shape.Drawn?)) ==> p.active > 0.0)
  {
    if !paused && base > 0.0 {
      var d := ComputeDuty(w, base, time);
      assert w.minDuty <= d <= w.maxDuty;
      ScaledBetween(length, d, w.minDuty, w.maxDuty);
      PhaseInPeriod(time, w.period);
      TriangleAbove(base, w.maxDuty, Phase(time, w.period));
    }
  }

  /** Without a waveform the burst is the duty's share of the period. */
  lemma PlainPeriod(paused: bool, base: real, time: real, length: real)
    requires length > 0.0 && base <= 100.0
    ensures var p := PeriodOf(paused, base, None, time, length);
      && (p.Idle? <==> paused || base <= 0.0)
      && (p.Pulse? ==> p.active * 100.0 == length * base && p.active + p.rest == length && 0.0 < p.active <= length)
  {
    if !paused && base > 0.0 { ScaledBetween(length, base, base, base); }
  }

  lemma TriangleAbove(base: real, top: real, phase: real)
    requires 0.0 <= phase < 1.0
    ensures base <= Triangle(base, top, phase)
  {
    NotNegative(Greater(0.0, top - base), Ramp(phase));
  }

  lemma ScaledBetween(length: real, d: real, lo: real, hi: real)
    requires length > 0.0 && 0.0 <= lo <= d <= hi <= 100.0
    ensures 0.0 <= length * d / 100.0 <= length
    ensures length * lo <= length * d / 100.0 * 100.0 <= length * hi
    ensures length * d / 100.0 > 0.0 <==> d > 0.0
  {
    NotNegative(length, lo);
    assert length * (d - lo) >= 0.0;
    assert length * (hi - d) >= 0.0;
    assert length * (100.0 - hi) >= 0.0;
    if d > 0.0 { Positive(length, d); }
  }

  // ---------------------------------------------------------------- thermal stop

  lemma NoClampNoDuty(e: Engine, input: Input, key: Key)
    requires EngineInv(e) && ValidInput(e, input) && input.clamp <= 0.0 && key in e.targets
    ensures PolicyDuty(e, input, key) == 0.0
  {
  }

  lemma ClosedClampStops(e: Engine, input: Input)
    requires EngineInv(e) && ValidInput(e, input) && input.clamp <= 0.0
    ensures forall w :: w in Tick(e, input).workers ==> w.duty == 0.0
  {
    var after := Tick(e, input);
    forall w | w in after.workers ensures w.duty == 0.0 {
      var i :| 0 <= i < |after.workers| && after.workers[i] == w;
      assert e.workers[i] in e.workers;
      NoClampNoDuty(e, input, e.workers[i].policy);
    }
  }

  /**
   End-to-end thermal stop. After any run of engine commands and any temperatures, a tick that
   reads a tripped guard leaves every worker without a burst in its next period, whatever the
   waveform and the time.
   */
  lemma TrippedGuardStopsEveryBurst(
    e: Engine, cs: seq<Command>, readings: seq<Thermal.Reading>, input: Input,
    wave: Option<Waveform>, time: real, length: real)
    requires EngineInv(e) && ValidRun(e, cs) && ValidInput(EngineRun(e, cs), input)
    requires Thermal.Latched(readings) && input.clamp == Thermal.After(Thermal.COLD, readings).clamp
    requires wave.Some? ==> wave.value.period > 0.0
    ensures forall w :: w in Tick(EngineRun(e, cs), input).workers ==>
              PeriodOf(false, w.duty, wave, time, length) == Idle
  {
    Thermal.LatchIsHistory(readings);
    ClosedClampStops(EngineRun(e, cs), input);
  }

  // ---------------------------------------------------------------- fair turns

  lemma {:induction false} PeersIncrease(workers: seq<Worker>, key: Key)
    ensures var r := Peers(workers, key);
      && (forall a, b :: 0 <= a < b < |r| ==> r[a] < r[b])
      && (forall i :: 0 <= i < |workers| ==> (workers[i].policy == key <==> i in r))
  {
    if workers != [] {
      var n := |workers| - 1;
      PeersIncrease(workers[..n], key);
      forall i | 0 <= i < |workers| ensures workers[i].policy == key <==> i in Peers(workers, key) {
        if i < n { assert workers[..n][i] == workers[i]; }
      }
    }
  }

  lemma {:induction false} PeersSame(a: seq<Worker>, b: seq<Worker>, key: Key)
    requires |a| == |b| && forall i :: 0 <= i < |a| ==> a[i].policy == b[i].policy
    ensures Peers(a, key) == Peers(b, key)
  {
    if a != [] {
      var n := |a| - 1;
      PeersSame(a[..n], b[..n], key);
    }
  }

  /** A policy is given a positive duty by a tick. */
  predicate Pulses(e: Engine, input: Input, key: Key)
    requires |input.readings| == |e.workers| && Consistent(e.controller)
  {
    PolicyDuty(e, input, key) > 0.0
  }

  /** Worker number j of a policy, in the order the engine keeps them. */
  function Peer(e: Engine, key: Key, j: nat): nat
    requires j < |Peers(e.workers, key)|
  {
    Peers(e.workers, key)[j]
  }

  function Turn(e: Engine, key: Key): nat
    requires Peers(e.workers, key) != []
  {
    TurnOf(e.turns, key, |Peers(e.workers, key)|)
  }

  lemma OneShare(e: Engine, key: Key, j: nat, duty: real)
    requires e.setup.roundRobin && j < |Peers(e.workers, key)| && duty > 0.0
    ensures ShareOf(e, key, Peer(e, key, j), duty) > 0.0 <==> j == Turn(e, key)
    ensures e.workers[Peer(e, key, j)].policy == key
  {
    PeersIncrease(e.workers, key);
    var peers := Peers(e.workers, key);
    assert peers[j] in peers;
    var t := Turn(e, key);
    assert t < j ==> peers[t] < peers[j];
    assert j < t ==> peers[j] < peers[t];
  }

  /**
   With turns, a tick that gives a policy a positive duty gives it to exactly one of its workers,
   the one whose turn it is; its other workers get nothing.
   */
  lemma TickGivesOneTurn(e: Engine, input: Input, key: Key, j: nat)
    requires EngineInv(e) && ValidInput(e, input) && e.setup.roundRobin && key in e.targets
    requires j < |Peers(e.workers, key)| && Pulses(e, input, key)
    ensures HasDuty(Tick(e, input), Peer(e, key, j)) <==> j == Turn(e, key)
  {
    OneShare(e, key, j, PolicyDuty(e, input, key));
  }

  /**
   What every worker of a targeted policy is given by a tick: without turns the whole duty of its
   policy, capped to a percentage; with turns that for the worker whose turn it is, and nothing for
   the others.
   */
  lemma TickDealsDuty(e: Engine, input: Input, i: nat)
    requires EngineInv(e) && ValidInput(e, input) && i < |e.workers| && e.workers[i].policy in e.targets
    ensures var key := e.workers[i].policy; var duty := Cap(0.0, 100.0, PolicyDuty(e, input, key));
      var peers := Peers(e.workers, key);
      && i in peers
      && Tick(e, input).workers[i].duty == (if !e.setup.roundRobin || i == Peer(e, key, Turn(e, key)) then duty else 0.0)
      && Tick(e, input).workers[i] == e.workers[i].(duty := Tick(e, input).workers[i].duty)
  {
    PeersIncrease(e.workers, e.workers[i].policy);
  }

  predicate HasDuty(e: Engine, i: nat) { i < |e.workers| && e.workers[i].duty > 0.0 }

  lemma TickKeepsPeers(e: Engine, input: Input, key: Key)
    requires EngineInv(e) && ValidInput(e, input)
    ensures Peers(Tick(e, input).workers, key) == Peers(e.workers, key)
  {
    PeersSame(Tick(e, input).workers, e.workers, key);
  }

  lemma NextTurnOf(e: Engine, key: Key)
    requires e.setup.roundRobin && key in e.targets && Peers(e.workers, key) != []
    ensures key in NextTurns(e) && NextTurns(e)[key] == Turn(e, key) + 1
  {
  }

  /** The turn moves on by one, cyclically, whatever happens to other policies. */
  lemma TurnMovesOn(e: Engine, input: Input, key: Key)
    requires EngineInv(e) && ValidInput(e, input) && e.setup.roundRobin && key in e.targets
    requires Peers(e.workers, key) != []
    ensures var after := Tick(e, input);
      && Peers(after.workers, key) == Peers(e.workers, key)
      && Turn(after, key) == Following(Turn(e, key), |Peers(e.workers, key)|)
  {
    TickKeepsPeers(e, input, key);
    NextTurnOf(e, key);
    TurnAfter(NextTurns(e), key, Turn(e, key), |Peers(e.workers, key)|);
  }

  lemma TurnAfter(turns: map<Key, nat>, key: Key, a: nat, n: nat)
    requires a < n && key in turns && turns[key] == a + 1
    ensures TurnOf(turns, key, n) == Following(a, n)
  {
    assert Wrapped(0, n) == 0;
  }

  /** The next position in a cycle of n. */
  function Following(a: nat, n: nat): nat { if a + 1 < n then a + 1 else 0 }

  /** One tick of the loop. */
  ghost predicate Ticks(before: Engine, input: Input, after: Engine) {
    EngineInv(before) && ValidInput(before, input) && after == Tick(before, input)
  }

  /** The states an engine goes through in consecutive ticks, with nothing else in between. */
  ghost predicate ConsecutiveTicks(states: seq<Engine>, inputs: seq<Input>) {
    |states| == |inputs| + 1 && forall t :: 0 <= t < |inputs| ==> Ticks(states[t], inputs[t], states[t + 1])
  }

  /** Position a after t further turns among n, for at most a full round. */
  function Rotated(a: nat, t: nat, n: nat): int { if a + t < n then a + t else a + t - n }

  lemma RotatedStep(a: nat, t: nat, n: nat)
    requires a < n && t < n
    ensures Rotated(a, t, n) >= 0 && Following(Rotated(a, t, n), n) == Rotated(a, t + 1, n)
  {
  }

  /** now is e after t ticks, as far as the turns of a policy are concerned. */
  ghost predicate TurnedBy(e: Engine, now: Engine, key: Key, t: nat)
    requires Peers(e.workers, key) != []
  {
    && now.setup == e.setup && now.targets == e.targets
    && Peers(now.workers, key) == Peers(e.workers, key)
    && Turn(now, key) == Rotated(Turn(e, key), t, |Peers(e.workers, key)|)
  }

  lemma OneMoreTick(e: Engine, before: Engine, input: Input, key: Key, t: nat)
    requires EngineInv(before) && ValidInput(before, input) && e.setup.roundRobin && key in e.targets
    requires Peers(e.workers, key) != [] && t < |Peers(e.workers, key)| && TurnedBy(e, before, key, t)
    ensures TurnedBy(e, Tick(before, input), key, t + 1)
  {
    TurnMovesOn(before, input, key);
    RotatedStep(Turn(e, key), t, |Peers(e.workers, key)|);
  }

  lemma {:induction false} TurnAfterTicks(states: seq<Engine>, inputs: seq<Input>, key: Key, t: nat)
    requires ConsecutiveTicks(states, inputs) && t <= |inputs|
    requires states[0].setup.roundRobin && key in states[0].targets
    requires Peers(states[0].workers, key) != [] && t <= |Peers(states[0].workers, key)|
    ensures TurnedBy(states[0], states[t], key, t)
  {
    if t > 0 {
      TurnAfterTicks(states, inputs, key, t - 1);
      assert Ticks(states[t - 1], inputs[t - 1], states[t - 1 + 1]);
      OneMoreTick(states[0], states[t - 1], inputs[t - 1], key, t - 1);
    }
  }

  /** Every tick gives the policy a positive duty. */
  ghost predicate AlwaysPulses(states: seq<Engine>, inputs: seq<Input>, key: Key)
    requires ConsecutiveTicks(states, inputs)
  {
    forall t :: 0 <= t < |inputs| ==> Ticks(states[t], inputs[t], states[t + 1]) && Pulses(states[t], inputs[t], key)
  }

  /** Tick number t, counted from zero, has given worker j of the policy a duty. */
  ghost predicate Served(states: seq<Engine>, key: Key, j: nat, t: nat)
    requires t + 1 < |states| && j < |Peers(states[0].workers, key)|
  {
    HasDuty(states[t + 1], Peer(states[0], key, j))
  }

  lemma TurnServes(states: seq<Engine>, inputs: seq<Input>, key: Key, j: nat, t: nat)
    requires ConsecutiveTicks(states, inputs) && AlwaysPulses(states, inputs, key) && t < |inputs|
    requires states[0].setup.roundRobin && key in states[0].targets
    requires j < |Peers(states[0].workers, key)| && |inputs| <= |Peers(states[0].workers, key)|
    ensures Served(states, key, j, t) <==> j == Rotated(Turn(states[0], key), t, |Peers(states[0].workers, key)|)
  {
    assert Ticks(states[t], inputs[t], states[t + 1]);
    TurnAfterTicks(states, inputs, key, t);
    ServedNow(states[0], states[t], inputs[t], key, j, t);
  }

  lemma ServedNow(e: Engine, before: Engine, input: Input, key: Key, j: nat, t: nat)
    requires EngineInv(before) && ValidInput(before, input) && e.setup.roundRobin && key in e.targets
    requires j < |Peers(e.workers, key)| && TurnedBy(e, before, key, t) && Pulses(before, input, key)
    ensures HasDuty(Tick(before, input), Peer(e, key, j)) <==> j == Rotated(Turn(e, key), t, |Peers(e.workers, key)|)
  {
    TickGivesOneTurn(before, input, key, j);
  }

  lemma RoundHits(a: nat, j: nat, n: nat, t: nat)
    requires a < n && j < n && t < n
    ensures j == Rotated(a, t, n) <==> t == if a <= j then j - a else j - a + n
  {
  }

  /**
   Round-robin fairness: in any n consecutive ticks that give a policy with n workers a positive
   duty, each of its workers has exactly one turn, whatever the other policies do.
   */
  lemma EveryWorkerOncePerRound(states: seq<Engine>, inputs: seq<Input>, key: Key, j: nat) returns (turn: nat)
    requires ConsecutiveTicks(states, inputs) && AlwaysPulses(states, inputs, key)
    requires states[0].setup.roundRobin && key in states[0].targets
    requires j < |Peers(states[0].workers, key)| && |inputs| == |Peers(states[0].workers, key)|
    ensures turn < |inputs|
    ensures forall t :: 0 <= t < |inputs| ==> (Served(states, key, j, t) <==> t == turn)
  {
    var a, n := Turn(states[0], key), |inputs|;
    turn := if a <= j then j - a else j - a + n;
    forall t | 0 <= t < n ensures Served(states, key, j, t) <==> t == turn {
      TurnServes(states, inputs, key, j, t);
      RoundHits(a, j, n, t);
    }
  }
}
