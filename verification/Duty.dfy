/**
 The adaptive duty controller: one feedback loop per cpufreq policy behind shared settings
 (boostlock/engine.py). Percentages, average frequencies and clamps are real numbers.
 */
module Duty {
  import opened Arithmetic
  import opened Common
  import opened Policies

  // ---------------------------------------------------------------- data model

  datatype Key = DefaultKey | PolicyKey(id: PolicyId)

  datatype Settings = Settings(minDuty: real, maxDuty: real, step: real, yieldAt: real)

  /** Feedback state of one policy. */
  datatype Cell = Cell(duty: real, samples: nat, compliant: nat, average: Option<real>, clamp: real, load: real)

  /** What one update is told about its policy. */
  datatype Feed = Feed(samples: seq<int>, clamp: real, load: real)

  datatype Controller = Controller(
    settings: Settings, initial: real, fallback: int, legacy: Key,
    targets: map<Key, int>, cells: map<Key, Cell>)

  function NewCell(initial: real): Cell { Cell(initial, 0, 0, None, 1.0, 0.0) }

  // ---------------------------------------------------------------- one policy

  /** The average the feedback works with; a policy without samples counts as exactly on target. */
  function Average(feed: Feed, target: int): real {
    if feed.samples == [] then target as real else Sum(feed.samples) as real / |feed.samples| as real
  }

  /** Too much load elsewhere, or nothing allowed by the thermal clamp. */
  predicate Yields(s: Settings, feed: Feed) { feed.load >= s.yieldAt || feed.clamp <= 0.0 }

  predicate FallsShort(feed: Feed, target: int) { target as real - Average(feed, target) > 20000.0 }

  function Measured(cell: Cell, target: int, feed: Feed): Cell {
    var seen := if feed.samples == [] then cell
                else cell.(average := Some(Average(feed, target)),
                           samples := cell.samples + |feed.samples|,
                           compliant := cell.compliant + CountAtLeast(feed.samples, target));
    seen.(clamp := Cap(0.0, 1.0, feed.clamp), load := Cap(0.0, 100.0, feed.load))
  }

  function HalfStep(s: Settings): real { s.step * 0.5 }

  function NextDuty(s: Settings, duty: real, short: bool): real {
    if short then (if duty + s.step < s.maxDuty then duty + s.step else s.maxDuty)
    else if duty - HalfStep(s) > s.minDuty then duty - HalfStep(s)
    else s.minDuty
  }

  function NextCell(s: Settings, target: int, cell: Cell, feed: Feed): Cell {
    var seen := Measured(cell, target, feed);
    if Yields(s, feed) then seen else seen.(duty := NextDuty(s, cell.duty, FallsShort(feed, target)))
  }

  /** The duty an update returns. */
  function Output(s: Settings, target: int, cell: Cell, feed: Feed): real {
    if Yields(s, feed) then 0.0
    else
      var next := NextCell(s, target, cell, feed);
      Cap(0.0, s.maxDuty, next.duty * next.clamp)
  }

  // ---------------------------------------------------------------- many policies

  datatype Op =
    | Update(key: Key, feed: Feed)
    | Retarget(targets: map<Key, int>, first: Key)
    | Tune(minDuty: real, maxDuty: real, step: real)
    | Reset

  /** Replacement targets are refused when there are none or one is not positive. */
  predicate Acceptable(targets: map<Key, int>) {
    targets != map[] && forall k :: k in targets ==> targets[k] > 0
  }

  /** The first key of a non-empty target dictionary is one of its keys. */
  predicate ValidOp(op: Op) { op.Retarget? && op.targets != map[] ==> op.first in op.targets }

  predicate Consistent(c: Controller) { c.cells.Keys == c.targets.Keys }

  /** A policy seen for the first time gets the fallback target and a fresh state. */
  function Register(c: Controller, key: Key): (r: Controller)
    requires Consistent(c)
    ensures Consistent(r) && key in r.targets
  {
    if key in c.targets then c
    else c.(targets := c.targets[key := c.fallback], cells := c.cells[key := NewCell(c.initial)])
  }

  function Do(c: Controller, op: Op): (r: Controller)
    requires Consistent(c) && ValidOp(op)
    ensures Consistent(r)
  {
    match op
    case Update(key, feed) =>
      var known := Register(c, key);
      known.(cells := known.cells[key := NextCell(c.settings, known.targets[key], known.cells[key], feed)])
    case Retarget(targets, first) =>
      if !Acceptable(targets) then c
      else
        var legacy := if c.legacy in targets then c.legacy else first;
        Controller(c.settings, c.initial, targets[legacy], legacy, targets,
                   map k | k in targets :: if k in c.cells then c.cells[k] else NewCell(c.initial))
    case Tune(minDuty, maxDuty, step) =>
      c.(settings := Settings(minDuty, maxDuty, step, c.settings.yieldAt))
    case Reset =>
      c.(cells := map k | k in c.targets :: NewCell(c.initial))
  }

  function OutputOf(c: Controller, key: Key, feed: Feed): real
    requires Consistent(c)
  {
    var known := Register(c, key);
    Output(c.settings, known.targets[key], known.cells[key], feed)
  }

  function Run(c: Controller, ops: seq<Op>): (r: Controller)
    requires Consistent(c) && forall op :: op in ops ==> ValidOp(op)
    ensures Consistent(r)
    decreases ops
  {
    if ops == [] then c
    else
      assert ops[0] in ops && forall op :: op in ops[1..] ==> op in ops;
      Run(Do(c, ops[0]), ops[1..])
  }

  /** The duties returned to one policy, in order. */
  function Outputs(c: Controller, ops: seq<Op>, key: Key): seq<real>
    requires Consistent(c) && forall op :: op in ops ==> ValidOp(op)
    decreases ops
  {
    if ops == [] then []
    else
      assert ops[0] in ops && forall op :: op in ops[1..] ==> op in ops;
      (if ops[0].Update? && ops[0].key == key then [OutputOf(c, key, ops[0].feed)] else [])
      + Outputs(Do(c, ops[0]), ops[1..], key)
  }

  // ---------------------------------------------------------------- non-interference

  /** A controller that only ever knows one policy. */
  datatype Solo = Solo(
    settings: Settings, initial: real, fallback: int, legacy: Key, target: Option<int>, cell: Option<Cell>)

  function SoloOf(c: Controller, key: Key): Solo
    requires Consistent(c)
  {
    Solo(c.settings, c.initial, c.fallback, c.legacy,
         if key in c.targets then Some(c.targets[key]) else None,
         if key in c.targets then Some(c.cells[key]) else None)
  }

  function SoloTarget(s: Solo): int { if s.target.Some? then s.target.value else s.fallback }

  function SoloCell(s: Solo): Cell { if s.cell.Some? then s.cell.value else NewCell(s.initial) }

  function SoloDo(s: Solo, key: Key, op: Op): Solo
    requires ValidOp(op)
  {
    match op
    case Update(_, feed) =>
      s.(target := Some(SoloTarget(s)), cell := Some(NextCell(s.settings, SoloTarget(s), SoloCell(s), feed)))
    case Retarget(targets, first) =>
      if !Acceptable(targets) then s
      else
        var legacy := if s.legacy in targets then s.legacy else first;
        var kept := key in targets;
        s.(legacy := legacy, fallback := targets[legacy],
           target := if kept then Some(targets[key]) else None,
           cell := if kept then Some(if s.target.Some? then SoloCell(s) else NewCell(s.initial)) else None)
    case Tune(minDuty, maxDuty, step) =>
      s.(settings := Settings(minDuty, maxDuty, step, s.settings.yieldAt))
    case Reset =>
      s.(cell := if s.target.Some? then Some(NewCell(s.initial)) else None)
  }

  function SoloRun(s: Solo, key: Key, ops: seq<Op>): Solo
    requires forall op :: op in ops ==> ValidOp(op)
    decreases ops
  {
    if ops == [] then s
    else
      assert ops[0] in ops && forall op :: op in ops[1..] ==> op in ops;
      SoloRun(SoloDo(s, key, ops[0]), key, ops[1..])
  }

  function SoloOutputs(s: Solo, key: Key, ops: seq<Op>): seq<real>
    requires forall op :: op in ops ==> ValidOp(op)
    decreases ops
  {
    if ops == [] then []
    else
      assert ops[0] in ops && forall op :: op in ops[1..] ==> op in ops;
      (if ops[0].Update? then [Output(s.settings, SoloTarget(s), SoloCell(s), ops[0].feed)] else [])
      + SoloOutputs(SoloDo(s, key, ops[0]), key, ops[1..])
  }

  predicate Concerns(op: Op, key: Key) { op.Update? ==> op.key == key }

  /** A run without the updates of other policies. */
  function Mine(ops: seq<Op>, key: Key): (r: seq<Op>)
    ensures forall op :: op in r ==> op in ops && Concerns(op, key)
  {
    if ops == [] then []
    else (if Concerns(ops[0], key) then [ops[0]] else []) + Mine(ops[1..], key)
  }

  lemma StepProjects(c: Controller, key: Key, op: Op)
    requires Consistent(c) && ValidOp(op)
    ensures SoloOf(Do(c, op), key) == if Concerns(op, key) then SoloDo(SoloOf(c, key), key, op) else SoloOf(c, key)
  {
    assert key in c.cells <==> key in c.targets;
  }

  /**
   Non-interference: whatever the updates of other policies are and however they are interleaved,
   one policy's duty, counters and returned duties are those of a controller that knows only it.
   */
  lemma {:induction false} NonInterference(c: Controller, ops: seq<Op>, key: Key)
    requires Consistent(c) && forall op :: op in ops ==> ValidOp(op)
    ensures SoloOf(Run(c, ops), key) == SoloRun(SoloOf(c, key), key, Mine(ops, key))
    ensures Outputs(c, ops, key) == SoloOutputs(SoloOf(c, key), key, Mine(ops, key))
    decreases ops
  {
    if ops != [] {
      assert ops[0] in ops && forall op :: op in ops[1..] ==> op in ops;
      StepProjects(c, key, ops[0]);
      NonInterference(Do(c, ops[0]), ops[1..], key);
      if Concerns(ops[0], key) {
        assert Mine(ops, key)[0] == ops[0] && Mine(ops, key)[1..] == Mine(ops[1..], key);
      } else {
        assert Mine(ops, key) == Mine(ops[1..], key);
      }
    }
  }

  // ---------------------------------------------------------------- what can be told from outside

  /** The target a policy is judged by; one never heard of is judged by the fallback. */
  function Judged(c: Controller, key: Key): int { if key in c.targets then c.targets[key] else c.fallback }

  /** The state a policy is in; one never heard of starts at the initial duty with nothing counted. */
  function StateOf(c: Controller, key: Key): Cell {
    if key in c.cells then c.cells[key] else Cell(c.initial, 0, 0, None, 1.0, 0.0)
  }

  /** An update moves one policy by its own feed, returns its duty, and leaves all others alone. */
  lemma UpdateObserved(c: Controller, key: Key, feed: Feed, other: Key)
    requires Consistent(c)
    ensures OutputOf(c, key, feed) == Output(c.settings, Judged(c, key), StateOf(c, key), feed)
    ensures var after := Do(c, Update(key, feed));
      && StateOf(after, other) ==
         (if other == key then NextCell(c.settings, Judged(c, key), StateOf(c, key), feed) else StateOf(c, other))
      && Judged(after, other) == Judged(c, other) && after.settings == c.settings && after.legacy == c.legacy
  {
  }

  /**
   Accepted targets replace all others: a policy among them is judged by its own and stays as it was,
   and any other, known before or not, is judged by the legacy policy's and starts afresh. The legacy
   policy stays while it has a target and is the first one otherwise. Refused targets change nothing.
   */
  lemma RetargetObserved(c: Controller, targets: map<Key, int>, first: Key, key: Key)
    requires Consistent(c) && (targets != map[] ==> first in targets)
    ensures var after := Do(c, Retarget(targets, first)); var legacy := if c.legacy in targets then c.legacy else first;
      if targets != map[] && forall k :: k in targets ==> targets[k] > 0 then
        && after.legacy == legacy && legacy in targets && after.settings == c.settings && after.initial == c.initial
        && (key in targets ==> Judged(after, key) == targets[key] && StateOf(after, key) == StateOf(c, key))
        && (key !in targets ==>
              Judged(after, key) == targets[legacy] && StateOf(after, key) == Cell(c.initial, 0, 0, None, 1.0, 0.0))
      else after == c
  {
    assert key in c.cells <==> key in c.targets;
  }

  /** Tuning changes the three settings and nothing else; a reset starts every policy afresh. */
  lemma TuneObserved(c: Controller, minDuty: real, maxDuty: real, step: real, key: Key)
    requires Consistent(c)
    ensures Do(c, Tune(minDuty, maxDuty, step)) == c.(settings := Settings(minDuty, maxDuty, step, c.settings.yieldAt))
    ensures var after := Do(c, Reset);
      && StateOf(after, key) == Cell(c.initial, 0, 0, None, 1.0, 0.0) && Judged(after, key) == Judged(c, key)
      && after.settings == c.settings && after.legacy == c.legacy
  {
  }

  // ---------------------------------------------------------------- self-stabilisation

  predicate Sane(s: Settings) { 0.0 <= s.minDuty <= s.maxDuty && s.step >= 0.0 }

  /** How far a duty is from the configured range. */
  function Excess(s: Settings, duty: real): real {
    if duty > s.maxDuty then duty - s.maxDuty else if duty < s.minDuty then s.minDuty - duty else 0.0
  }

  /**
   The returned duty is inside [0, max] for any state, so also right after the settings changed.
   An update under enough external load, or with nothing allowed by the thermal clamp, returns zero
   and leaves the duty alone; any other keeps a duty in range there, and otherwise brings it into
   range or at least half a step closer.
   */
  lemma DutyStabilises(s: Settings, target: int, cell: Cell, feed: Feed)
    requires Sane(s)
    ensures 0.0 <= Output(s, target, cell, feed) <= s.maxDuty
    ensures feed.load >= s.yieldAt || feed.clamp <= 0.0 ==>
              Output(s, target, cell, feed) == 0.0 && NextCell(s, target, cell, feed).duty == cell.duty
    ensures feed.load < s.yieldAt && feed.clamp > 0.0 ==>
              var after := Excess(s, NextCell(s, target, cell, feed).duty);
              after == 0.0 || after <= Excess(s, cell.duty) - s.step * 0.5
  {
  }

  /**
   What counts as falling short, without an average: the samples sum to less than twenty megahertz
   under target each. A policy without samples never falls short.
   */
  lemma ShortfallExactly(feed: Feed, target: int)
    ensures FallsShort(feed, target) <==>
              feed.samples != [] && Sum(feed.samples) < |feed.samples| * (target - 20000)
  {
    if feed.samples != [] {
      var n, total, mean := |feed.samples|, Sum(feed.samples), Average(feed, target);
      assert mean * n as real == total as real;
      BelowEach(mean, n as real, target as real - 20000.0);
      assert n as real * (target - 20000) as real == (n * (target - 20000)) as real;
    }
  }

  /** The duty one update moves to, from its feed alone. */
  function Stepped(s: Settings, target: int, duty: real, feed: Feed): real {
    if feed.load >= s.yieldAt || feed.clamp <= 0.0 then duty
    else if feed.samples != [] && Sum(feed.samples) < |feed.samples| * (target - 20000) then Lesser(s.maxDuty, duty + s.step)
    else Greater(s.minDuty, duty - s.step / 2.0)
  }

  /**
   One update in full: the duty moves one step up on a shortfall and half a step down otherwise,
   unless it yields; what is returned is the new duty under the thermal clamp, or nothing; and the
   samples are counted, also when it yields.
   */
  lemma UpdateMeans(s: Settings, target: int, cell: Cell, feed: Feed)
    ensures var next := NextCell(s, target, cell, feed);
      && next.duty == Stepped(s, target, cell.duty, feed)
      && Output(s, target, cell, feed) ==
         (if feed.load >= s.yieldAt || feed.clamp <= 0.0 then 0.0 else Cap(0.0, s.maxDuty, next.duty * Cap(0.0, 1.0, feed.clamp)))
      && next.samples == cell.samples + |feed.samples|
      && next.compliant == cell.compliant + CountAtLeast(feed.samples, target)
      && next.clamp == Cap(0.0, 1.0, feed.clamp) && next.load == Cap(0.0, 100.0, feed.load)
      && (if feed.samples == [] then next.average == cell.average
          else next.average.Some? && Times(|feed.samples|, next.average.value) == Sum(feed.samples) as real)
  {
    ShortfallExactly(feed, target);
    if feed.samples != [] { AverageTimes(feed, target); }
  }

  lemma AverageTimes(feed: Feed, target: int)
    requires feed.samples != []
    ensures Times(|feed.samples|, Average(feed, target)) == Sum(feed.samples) as real
  {
    TimesMultiplies(|feed.samples|, Average(feed, target));
  }

  lemma BelowEach(mean: real, n: real, bound: real)
    requires n > 0.0
    ensures mean < bound <==> mean * n < n * bound
  {
    assert (bound - mean) * n == n * bound - mean * n;
    if mean < bound { Positive(bound - mean, n); }
    if mean >= bound { NotNegative(mean - bound, n); assert (mean - bound) * n == mean * n - n * bound; }
  }

  /**
   An acting update returns the new duty scaled by the thermal clamp, which never scales it up,
   inside [0, max]: whatever the duty was, and whatever the clamp.
   */
  lemma OutputScales(s: Settings, target: int, cell: Cell, feed: Feed)
    requires Sane(s) && !Yields(s, feed)
    ensures var d := NextCell(s, target, cell, feed).duty;
      && Output(s, target, cell, feed) == (if d < 0.0 then 0.0 else Lesser(s.maxDuty, d * Lesser(1.0, feed.clamp)))
      && Output(s, target, cell, feed) <= Greater(0.0, d)
  {
    var d, f := NextCell(s, target, cell, feed).duty, Lesser(1.0, feed.clamp);
    if d < 0.0 { Positive(-d, f); assert (-d) * f == -(d * f); }
    if d >= 0.0 {
      NotNegative(d, f);
      NotNegative(d, 1.0 - f);
      assert d * f == d - d * (1.0 - f);
    }
  }

  /** The state of one policy after several updates in a row. */
  function After(s: Settings, target: int, cell: Cell, feeds: seq<Feed>): Cell {
    if feeds == [] then cell
    else NextCell(s, target, After(s, target, cell, feeds[..|feeds| - 1]), feeds[|feeds| - 1])
  }

  function SampleTotal(feeds: seq<Feed>): nat {
    if feeds == [] then 0 else SampleTotal(feeds[..|feeds| - 1]) + |feeds[|feeds| - 1].samples|
  }

  function CompliantTotal(feeds: seq<Feed>, target: int): nat {
    if feeds == [] then 0
    else CompliantTotal(feeds[..|feeds| - 1], target) + CountAtLeast(feeds[|feeds| - 1].samples, target)
  }

  /** The counters are exact, also across updates that yield; compliance never exceeds one. */
  lemma {:induction false} CountersAreExact(s: Settings, target: int, cell: Cell, feeds: seq<Feed>)
    ensures var after := After(s, target, cell, feeds);
      && after.samples == cell.samples + SampleTotal(feeds)
      && after.compliant == cell.compliant + CompliantTotal(feeds, target)
      && CompliantTotal(feeds, target) <= SampleTotal(feeds)
  {
    if feeds != [] {
      CountersAreExact(s, target, cell, feeds[..|feeds| - 1]);
      CountBounds(feeds[|feeds| - 1].samples, target);
    }
  }

  /** Only the judgement of each feed matters to the duty. */
  function Moved(s: Settings, duty: real, short: bool, n: nat): real {
    if n == 0 then duty else NextDuty(s, Moved(s, duty, short, n - 1), short)
  }

  lemma {:induction false} MovedExactly(s: Settings, duty: real, n: nat)
    requires Sane(s) && n > 0
    ensures Moved(s, duty, true, n) == Lesser(s.maxDuty, duty + Times(n, s.step))
    ensures Moved(s, duty, false, n) == Greater(s.minDuty, duty - Times(n, HalfStep(s)))
  {
    if n > 1 { MovedExactly(s, duty, n - 1); }
  }

  /** Every feed of a run is acted on, and they all judge the frequency the same way. */
  ghost predicate Steady(s: Settings, target: int, feeds: seq<Feed>, short: bool) {
    forall f :: f in feeds ==> !Yields(s, f) && (FallsShort(f, target) <==> short)
  }

  lemma NextSteady(s: Settings, target: int, cell: Cell, feed: Feed)
    requires !Yields(s, feed)
    ensures NextCell(s, target, cell, feed).duty == NextDuty(s, cell.duty, FallsShort(feed, target))
  {
  }

  lemma {:induction false} SteadyRun(s: Settings, target: int, cell: Cell, feeds: seq<Feed>, short: bool)
    requires Steady(s, target, feeds, short)
    ensures After(s, target, cell, feeds).duty == Moved(s, cell.duty, short, |feeds|)
  {
    if feeds != [] {
      var k := |feeds| - 1;
      assert feeds[k] in feeds;
      SteadyRun(s, target, cell, feeds[..k], short);
      NextSteady(s, target, After(s, target, cell, feeds[..k]), feeds[k]);
    }
  }

  /** A lasting shortfall raises the duty one step per update, until it reaches the maximum. */
  lemma ShortfallClimbs(s: Settings, target: int, cell: Cell, feeds: seq<Feed>)
    requires Sane(s) && feeds != [] && Steady(s, target, feeds, true)
    ensures After(s, target, cell, feeds).duty == Lesser(s.maxDuty, cell.duty + Times(|feeds|, s.step))
    ensures Times(|feeds|, s.step) >= s.maxDuty - cell.duty ==> After(s, target, cell, feeds).duty == s.maxDuty
  {
    SteadyRun(s, target, cell, feeds, true);
    MovedExactly(s, cell.duty, |feeds|);
  }

  /** Steady compliance lowers the duty half a step per update, until it reaches the minimum. */
  lemma ComplianceDescends(s: Settings, target: int, cell: Cell, feeds: seq<Feed>)
    requires Sane(s) && feeds != [] && Steady(s, target, feeds, false)
    ensures After(s, target, cell, feeds).duty == Greater(s.minDuty, cell.duty - Times(|feeds|, HalfStep(s)))
    ensures Times(|feeds|, HalfStep(s)) >= cell.duty - s.minDuty ==>
              After(s, target, cell, feeds).duty == s.minDuty
  {
    SteadyRun(s, target, cell, feeds, false);
    MovedExactly(s, cell.duty, |feeds|);
  }

  // ---------------------------------------------------------------- stabilisation in a crowd

  /** The feeds of one policy's updates. */
  function FeedsOf(ops: seq<Op>, key: Key): seq<Feed> {
    if ops == [] then []
    else FeedsOf(ops[..|ops| - 1], key)
         + (if ops[|ops| - 1].Update? && ops[|ops| - 1].key == key then [ops[|ops| - 1].feed] else [])
  }

  lemma MiddleOf<T>(s: seq<T>)
    requires |s| >= 2
    ensures var k := |s| - 1;
      s[1..][..k - 1] == s[..k][1..] && s[..k][0] == s[0] && s[1..][k - 1] == s[k] && |s[1..]| == k
  {
  }

  lemma {:induction false} RunLast(c: Controller, ops: seq<Op>)
    requires Consistent(c) && ops != [] && forall op :: op in ops ==> ValidOp(op)
    ensures var k := |ops| - 1;
      && (forall op :: op in ops[..k] ==> ValidOp(op)) && ValidOp(ops[k])
      && Run(c, ops) == Do(Run(c, ops[..k]), ops[k])
    decreases ops
  {
    var k := |ops| - 1;
    assert ops[k] in ops && ops[0] in ops && forall op :: op in ops[..k] || op in ops[1..] ==> op in ops;
    if k > 0 {
      RunLast(Do(c, ops[0]), ops[1..]);
      MiddleOf(ops);
      assert Run(c, ops[..k]) == Run(Do(c, ops[0]), ops[..k][1..]);
    }
  }

  /** An update, or a replacement of the targets that is refused or keeps the target of key. */
  predicate Steadfast(op: Op, key: Key, target: int) {
    match op
    case Update(_, _) => true
    case Retarget(targets, _) => Acceptable(targets) ==> key in targets && targets[key] == target
    case _ => false
  }

  lemma CrowdStep(c: Controller, op: Op, key: Key)
    requires Consistent(c) && key in c.targets && ValidOp(op) && Steadfast(op, key, c.targets[key])
    ensures var after := Do(c, op);
      && after.settings == c.settings && key in after.targets && after.targets[key] == c.targets[key]
      && after.cells[key] ==
         if op.Update? && op.key == key then NextCell(c.settings, c.targets[key], c.cells[key], op.feed) else c.cells[key]
  {
    assert key in c.cells <==> key in c.targets;
  }

  lemma AfterOneMore(s: Settings, target: int, cell: Cell, feeds: seq<Feed>, feed: Feed)
    ensures After(s, target, cell, feeds + [feed]) == NextCell(s, target, After(s, target, cell, feeds), feed)
  {
    assert (feeds + [feed])[..|feeds|] == feeds;
  }

  /** Under updates and replacements that keep its target, a known policy goes through its own feeds only. */
  lemma {:induction false} CrowdRun(c: Controller, ops: seq<Op>, key: Key)
    requires Consistent(c) && key in c.targets && forall op :: op in ops ==> ValidOp(op) && Steadfast(op, key, c.targets[key])
    ensures var after := Run(c, ops);
      && after.settings == c.settings && key in after.targets && after.targets[key] == c.targets[key]
      && after.cells[key] == After(c.settings, c.targets[key], c.cells[key], FeedsOf(ops, key))
  {
    if ops != [] {
      var k := |ops| - 1;
      RunLast(c, ops);
      assert ops[k] in ops && forall op :: op in ops[..k] ==> op in ops;
      CrowdRun(c, ops[..k], key);
      CrowdStep(Run(c, ops[..k]), ops[k], key);
      var before := FeedsOf(ops[..k], key);
      if ops[k].Update? { AfterOneMore(c.settings, c.targets[key], c.cells[key], before, ops[k].feed); }
      assert FeedsOf(ops, key) == if ops[k].Update? && ops[k].key == key then before + [ops[k].feed] else before;
    }
  }

  /**
   However its updates are interleaved with those of other policies and with replacements of the
   targets that keep its own, a policy that keeps falling short reaches the maximal duty within the
   number of its own updates that the step asks for.
   */
  lemma CrowdClimbs(c: Controller, ops: seq<Op>, key: Key)
    requires Consistent(c) && Sane(c.settings) && key in c.targets
    requires forall op :: op in ops ==> ValidOp(op) && Steadfast(op, key, c.targets[key])
    requires FeedsOf(ops, key) != [] && Steady(c.settings, c.targets[key], FeedsOf(ops, key), true)
    requires Times(|FeedsOf(ops, key)|, c.settings.step) >= c.settings.maxDuty - c.cells[key].duty
    ensures key in Run(c, ops).cells && Run(c, ops).cells[key].duty == c.settings.maxDuty
  {
    CrowdRun(c, ops, key);
    ShortfallClimbs(c.settings, c.targets[key], c.cells[key], FeedsOf(ops, key));
  }

  /** In the same way one that keeps complying comes down to the minimal duty. */
  lemma CrowdDescends(c: Controller, ops: seq<Op>, key: Key)
    requires Consistent(c) && Sane(c.settings) && key in c.targets
    requires forall op :: op in ops ==> ValidOp(op) && Steadfast(op, key, c.targets[key])
    requires FeedsOf(ops, key) != [] && Steady(c.settings, c.targets[key], FeedsOf(ops, key), false)
    requires Times(|FeedsOf(ops, key)|, HalfStep(c.settings)) >= c.cells[key].duty - c.settings.minDuty
    ensures key in Run(c, ops).cells && Run(c, ops).cells[key].duty == c.settings.minDuty
  {
    CrowdRun(c, ops, key);
    ComplianceDescends(c.settings, c.targets[key], c.cells[key], FeedsOf(ops, key));
  }
}
