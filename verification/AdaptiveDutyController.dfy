/** The duty controller as the object the engine updates in place (boostlock/engine.py). */
module DutyControllers {
  import opened Arithmetic
  import opened Common
  import opened Duty

  lemma Updated(c: Controller, key: Key, feed: Feed, cell: Cell)
    requires Consistent(c)
    requires var known := Register(c, key); cell == NextCell(c.settings, known.targets[key], known.cells[key], feed)
    ensures var known := Register(c, key); Do(c, Update(key, feed)) == known.(cells := known.cells[key := cell])
    ensures OutputOf(c, key, feed) ==
            if Yields(c.settings, feed) then 0.0 else Cap(0.0, c.settings.maxDuty, cell.duty * cell.clamp)
  {
  }

  class AdaptiveDutyController {
    var minDutyPct: real
    var maxDutyPct: real
    var dutyStepPct: real
    const loadYieldThresholdPct: real
    const initialDutyPct: real
    var targetFreqKhz: int
    var legacyPolicyId: Key
    var policyTargets: map<Key, int>
    var policyStates: map<Key, Cell>

    ghost predicate Valid() reads this {
      policyStates.Keys == policyTargets.Keys && legacyPolicyId in policyTargets
    }

    ghost function View(): (c: Controller)
      reads this
    {
      Controller(Settings(minDutyPct, maxDutyPct, dutyStepPct, loadYieldThresholdPct), initialDutyPct,
                 targetFreqKhz, legacyPolicyId, policyTargets, policyStates)
    }

    /** first is the first key of the target dictionary. */
    constructor (targetFreqKhz: int, minDutyPct: real, maxDutyPct: real, dutyStepPct: real,
                 loadYieldThresholdPct: real, initialDuty: Option<real>, targets: map<Key, int>, first: Key)
      requires targets != map[] ==> first in targets
      ensures Valid()
      ensures var start := Cap(minDutyPct, maxDutyPct, if initialDuty.Some? then initialDuty.value else minDutyPct);
        var known := if targets == map[] then map[DefaultKey := targetFreqKhz] else targets;
        && View().settings == Settings(minDutyPct, maxDutyPct, dutyStepPct, loadYieldThresholdPct)
        && View().initial == start && View().fallback == targetFreqKhz && View().targets == known
        && (View().legacy == if DefaultKey in known then DefaultKey else first)
        && forall k :: k in known ==> View().cells[k] == NewCell(start)
    {
      var start := Cap(minDutyPct, maxDutyPct, if initialDuty.Some? then initialDuty.value else minDutyPct);
      var known := if targets == map[] then map[DefaultKey := targetFreqKhz] else targets;
      this.minDutyPct := minDutyPct;
      this.maxDutyPct := maxDutyPct;
      this.dutyStepPct := dutyStepPct;
      this.loadYieldThresholdPct := loadYieldThresholdPct;
      this.initialDutyPct := start;
      this.targetFreqKhz := targetFreqKhz;
      this.legacyPolicyId := if DefaultKey in known then DefaultKey else first;
      this.policyTargets := known;
      this.policyStates := map k | k in known :: NewCell(start);
    }

    /** Replace the targets; refused (a value error in the source) for none or a non-positive one. */
    method SetPolicyTargets(targets: map<Key, int>, first: Key) returns (accepted: bool)
      requires Valid() && (targets != map[] ==> first in targets)
      modifies this
      ensures Valid()
      ensures accepted == Acceptable(targets)
      ensures View() == Do(old(View()), Retarget(targets, first))
    {
      if targets == map[] || exists k :: k in targets && targets[k] <= 0 {
        return false;
      }
      var previous := policyStates;
      policyTargets := targets;
      policyStates := map k | k in targets :: if k in previous then previous[k] else NewCell(initialDutyPct);
      if legacyPolicyId !in targets {
        legacyPolicyId := first;
      }
      targetFreqKhz := targets[legacyPolicyId];
      return true;
    }

    method StateForPolicy(key: Key) returns (state: Cell)
      requires Valid()
      modifies this`policyTargets, this`policyStates
      ensures Valid()
      ensures View() == Register(old(View()), key) && state == View().cells[key]
    {
      if key !in policyTargets {
        policyTargets := policyTargets[key := targetFreqKhz];
      }
      if key !in policyStates {
        policyStates := policyStates[key := NewCell(initialDutyPct)];
      }
      return policyStates[key];
    }

    /** Count the samples against the target and note the clamp and the load. */
    method Measure(key: Key, samples: seq<int>, clamp: real, load: real) returns (average: real)
      requires Valid()
      modifies this`policyTargets, this`policyStates
      ensures Valid() && key in policyTargets
      ensures var known := Register(old(View()), key); var feed := Feed(samples, clamp, load);
        && View() == known.(cells := known.cells[key := Measured(known.cells[key], known.targets[key], feed)])
        && average == Average(feed, known.targets[key])
    {
      var state := StateForPolicy(key);
      var target := policyTargets[key];
      average := target as real;
      if samples != [] {
        average := Sum(samples) as real / |samples| as real;
        state := state.(average := Some(average),
                        samples := state.samples + |samples|,
                        compliant := state.compliant + CountAtLeast(samples, target));
      }
      state := state.(clamp := Cap(0.0, 1.0, clamp), load := Cap(0.0, 100.0, load));
      policyStates := policyStates[key := state];
    }

    /** Move a policy's duty one step up on a shortfall, and half a step down otherwise. */
    method Adjust(key: Key, short: bool)
      requires Valid() && key in policyTargets
      modifies this`policyStates
      ensures Valid()
      ensures policyStates == old(policyStates)[key := old(policyStates[key]).(
                duty := NextDuty(View().settings, old(policyStates[key].duty), short))]
    {
      var state := policyStates[key];
      if short {
        var raised := state.duty + dutyStepPct;
        state := state.(duty := if raised < maxDutyPct then raised else maxDutyPct);
      } else {
        var lowered := state.duty - dutyStepPct * 0.5;
        state := state.(duty := if lowered > minDutyPct then lowered else minDutyPct);
      }
      policyStates := policyStates[key := state];
    }

    /** The next duty of one policy from samples that belong to it alone. */
    method UpdateSamples(key: Key, samples: seq<int>, clamp: real, load: real) returns (duty: real)
      requires Valid()
      modifies this`policyTargets, this`policyStates
      ensures Valid()
      ensures View() == Do(old(View()), Update(key, Feed(samples, clamp, load)))
      ensures duty == OutputOf(old(View()), key, Feed(samples, clamp, load))
    {
      ghost var start, feed := View(), Feed(samples, clamp, load);
      ghost var before := Register(start, key);
      var average := Measure(key, samples, clamp, load);
      var yielding := load >= loadYieldThresholdPct || clamp <= 0.0;
      if !yielding {
        var error := policyTargets[key] as real - average;
        Adjust(key, error > 20000.0);
      }
      var state := policyStates[key];
      assert state == NextCell(before.settings, before.targets[key], before.cells[key], feed);
      Updated(start, key, feed, state);
      return if yielding then 0.0 else Cap(0.0, maxDutyPct, state.duty * state.clamp);
    }

    /** One sample for a policy, or for the legacy policy when none is named. */
    method UpdateOne(freqKhz: int, clamp: real, load: real, policy: Option<Key>) returns (duty: real)
      requires Valid()
      modifies this
      ensures Valid()
      ensures var key := if policy.Some? then policy.value else old(legacyPolicyId);
        && View() == Do(old(View()), Update(key, Feed([freqKhz], clamp, load)))
        && duty == OutputOf(old(View()), key, Feed([freqKhz], clamp, load))
    {
      duty := UpdateSamples(if policy.Some? then policy.value else legacyPolicyId, [freqKhz], clamp, load);
    }

    /** The engine adjusts the three settings directly when it is reconfigured. */
    method Tune(minDuty: real, maxDuty: real, step: real)
      requires Valid()
      modifies this
      ensures Valid() && View() == Do(old(View()), Duty.Tune(minDuty, maxDuty, step))
    {
      minDutyPct := minDuty;
      maxDutyPct := maxDuty;
      dutyStepPct := step;
    }

    method Reset()
      requires Valid()
      modifies this
      ensures Valid() && View() == Do(old(View()), Duty.Reset)
    {
      policyStates := map k | k in policyTargets :: NewCell(initialDutyPct);
    }
  }
}
