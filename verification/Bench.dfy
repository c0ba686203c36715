/**
 The benchmark's arithmetic (boostlock/bench.py): percentiles, per-policy targets, and the split of
 samples over policies.
 */
module Bench {
  import opened Arithmetic
  import opened Common
  import opened Policies
  import opened Planning
  import opened Sorting
  import Engines

  // ---------------------------------------------------------------- percentiles

  function Khz(x: int): real { x as real }

  /** Conversion of a number to an integer drops the fraction, towards zero. */
  function Truncate(x: real): int { if x >= 0.0 then x.Floor else -((-x).Floor) }

  /** The value at a fractional rank: a straight line between two neighbours. */
  function Interpolate(s: seq<int>, rank: real): real
    requires 0.0 <= rank && rank.Floor + 1 < |s|
  {
    var lo := rank.Floor;
    var part := rank - lo as real;
    s[lo] as real * (1.0 - part) + s[lo + 1] as real * part
  }

  function Percentile(s: seq<int>, pct: real): int {
    if s == [] then 0
    else if pct <= 0.0 then s[0]
    else if pct >= 100.0 then s[|s| - 1]
    else
      var rank := Rank(|s|, pct);
      if rank.Floor + 1 >= |s| then s[|s| - 1] else Truncate(Interpolate(s, rank))
  }

  function Rank(n: nat, pct: real): (r: real)
    requires 0.0 <= pct && n > 0
    ensures r >= 0.0
  {
    pct / 100.0 * (n - 1) as real
  }

  lemma RankGrows(n: nat, p: real, q: real)
    requires n > 0 && 0.0 <= p <= q
    ensures Rank(n, p) <= Rank(n, q)
  {
    var a, b, m := p / 100.0, q / 100.0, (n - 1) as real;
    assert (b - a) * m >= 0.0;
  }

  lemma TruncateGrows(x: real, y: real)
    requires x <= y
    ensures Truncate(x) <= Truncate(y)
  {
  }

  lemma TruncateOfInt(a: int)
    ensures Truncate(a as real) == a
  {
  }

  lemma LineBetween(a: real, b: real, f: real)
    requires a <= b && 0.0 <= f <= 1.0
    ensures a <= a * (1.0 - f) + b * f <= b
  {
    assert a * (1.0 - f) + b * f == a + (b - a) * f;
    assert a * (1.0 - f) + b * f == b - (b - a) * (1.0 - f);
    NotNegative(b - a, f);
    NotNegative(b - a, 1.0 - f);
  }

  lemma LineGrows(a: real, b: real, f: real, g: real)
    requires a <= b && f <= g
    ensures a * (1.0 - f) + b * f <= a * (1.0 - g) + b * g
  {
    assert a * (1.0 - g) + b * g - (a * (1.0 - f) + b * f) == (b - a) * (g - f);
    NotNegative(b - a, g - f);
  }

  lemma SortedAt(s: seq<int>, i: nat, j: nat)
    requires SortedBy(s, Khz) && i <= j < |s|
    ensures s[i] <= s[j]
  {
    if i < j { assert Khz(s[i]) <= Khz(s[j]); }
  }

  lemma InterpolateBetween(s: seq<int>, rank: real)
    requires SortedBy(s, Khz) && 0.0 <= rank && rank.Floor + 1 < |s|
    ensures s[rank.Floor] as real <= Interpolate(s, rank) <= s[rank.Floor + 1] as real
  {
    var lo := rank.Floor;
    SortedAt(s, lo, lo + 1);
    LineBetween(s[lo] as real, s[lo + 1] as real, rank - lo as real);
  }

  /** Monotone inside a segment and across segment boundaries. */
  lemma InterpolateGrows(s: seq<int>, p: real, q: real)
    requires SortedBy(s, Khz) && 0.0 <= p <= q && q.Floor + 1 < |s|
    ensures p.Floor + 1 < |s| && Interpolate(s, p) <= Interpolate(s, q)
  {
    var lo, hi := p.Floor, q.Floor;
    assert lo <= hi;
    if lo == hi {
      SortedAt(s, lo, lo + 1);
      LineGrows(s[lo] as real, s[lo + 1] as real, p - lo as real, q - lo as real);
    } else {
      InterpolateBetween(s, p);
      InterpolateBetween(s, q);
      SortedAt(s, lo + 1, hi);
    }
  }

  /** Every percentile lies between the smallest and the largest sample. */
  lemma PercentileInRange(s: seq<int>, pct: real)
    requires SortedBy(s, Khz) && s != []
    ensures s[0] <= Percentile(s, pct) <= s[|s| - 1]
  {
    SortedAt(s, 0, |s| - 1);
    if 0.0 < pct < 100.0 {
      var rank := Rank(|s|, pct);
      var lo := rank.Floor;
      if lo + 1 < |s| {
        InterpolateBetween(s, rank);
        SortedAt(s, 0, lo);
        SortedAt(s, lo + 1, |s| - 1);
        TruncateGrows(s[0] as real, Interpolate(s, rank));
        TruncateGrows(Interpolate(s, rank), s[|s| - 1] as real);
        TruncateOfInt(s[0]);
        TruncateOfInt(s[|s| - 1]);
      }
    }
  }

  /** A percentile lies between the two samples next to its rank. */
  lemma PercentileBetweenNeighbours(s: seq<int>, pct: real)
    requires SortedBy(s, Khz) && s != [] && 0.0 < pct < 100.0
    ensures var lo := Rank(|s|, pct).Floor;
      lo + 1 < |s| ==> s[lo] <= Percentile(s, pct) <= s[lo + 1]
  {
    var rank := Rank(|s|, pct);
    var lo := rank.Floor;
    if lo + 1 < |s| {
      InterpolateBetween(s, rank);
      TruncateGrows(s[lo] as real, Interpolate(s, rank));
      TruncateGrows(Interpolate(s, rank), s[lo + 1] as real);
      TruncateOfInt(s[lo]);
      TruncateOfInt(s[lo + 1]);
    }
  }

  /** Where the rank is whole the percentile is that very sample. */
  lemma PercentileAtRank(s: seq<int>, pct: real, k: nat)
    requires 0.0 < pct < 100.0 && k + 1 < |s| && Rank(|s|, pct) == k as real
    ensures Percentile(s, pct) == s[k]
  {
    assert (k as real).Floor == k;
    WholeRank(s[k] as real, s[k + 1] as real);
    TruncateOfInt(s[k]);
  }

  lemma WholeRank(a: real, b: real)
    ensures a * (1.0 - 0.0) + b * 0.0 == a
  {
  }

  /**
   p is the percentile of pct percent, in whole numbers: pct percent of the last index falls between
   two samples, and p is the point between them in that proportion, its fraction dropped.
   */
  predicate PercentileIs(s: seq<int>, pct: nat, p: int)
    requires s != [] && pct < 100
  {
    var at := pct * (|s| - 1);
    if at / 100 + 1 >= |s| then p == s[|s| - 1]
    else
      var line := s[at / 100] * (100 - at % 100) + s[at / 100 + 1] * (at % 100);
      if line >= 0 then 100 * p <= line < 100 * p + 100 else 100 * p - 100 < line <= 100 * p
  }

  lemma PercentileExactly(s: seq<int>, pct: nat)
    requires s != [] && 0 < pct < 100
    ensures PercentileIs(s, pct, Percentile(s, pct as real))
  {
    var at := pct * (|s| - 1);
    RankInHundredths(|s|, pct);
    var rank := Rank(|s|, pct as real);
    HundredthsFloor(at, rank);
    if at / 100 + 1 < |s| {
      var lo, part := at / 100, at % 100;
      LineInHundredths(s[lo], s[lo + 1], part, rank - lo as real);
      TruncateHundredths(s[lo] * (100 - part) + s[lo + 1] * part, Interpolate(s, rank));
    }
  }

  lemma RankInHundredths(n: nat, pct: nat)
    requires n > 0
    ensures Rank(n, pct as real) * 100.0 == (pct * (n - 1)) as real
  {
    var share, last := pct as real / 100.0, (n - 1) as real;
    assert share * last * 100.0 == share * 100.0 * last;
    assert pct as real * last == (pct * (n - 1)) as real;
  }

  lemma HundredthsFloor(at: nat, rank: real)
    requires rank * 100.0 == at as real
    ensures rank.Floor == at / 100 && (rank - (at / 100) as real) * 100.0 == (at % 100) as real
  {
  }

  lemma LineInHundredths(a: int, b: int, part: nat, f: real)
    requires f * 100.0 == part as real && part < 100
    ensures (a as real * (1.0 - f) + b as real * f) * 100.0 == (a * (100 - part) + b * part) as real
  {
    var x, y, r := a as real, b as real, part as real;
    assert x * (1.0 - f) * 100.0 == x * (100.0 - r) by { assert x * (f * 100.0) == x * f * 100.0; }
    assert y * f * 100.0 == y * r by { assert y * (f * 100.0) == y * f * 100.0; }
    assert x * (100.0 - r) == (a * (100 - part)) as real;
    assert y * r == (b * part) as real;
  }

  lemma TruncateHundredths(line: int, x: real)
    requires x * 100.0 == line as real
    ensures var p := Truncate(x);
      if line >= 0 then 100 * p <= line < 100 * p + 100 else 100 * p - 100 < line <= 100 * p
  {
  }

  /** The interpolated percentile never falls when the percentage rises. */
  lemma PercentileGrows(s: seq<int>, p: real, q: real)
    requires SortedBy(s, Khz) && p <= q
    ensures Percentile(s, p) <= Percentile(s, q)
  {
    if s != [] {
      PercentileInRange(s, p);
      PercentileInRange(s, q);
      if 0.0 < p && q < 100.0 {
        RankGrows(|s|, p, q);
        var a, b := Rank(|s|, p), Rank(|s|, q);
        if b.Floor + 1 < |s| {
          InterpolateGrows(s, a, b);
          TruncateGrows(Interpolate(s, a), Interpolate(s, b));
        }
      }
    }
  }

  // ---------------------------------------------------------------- samples

  /** One sampling round: the CPUs that were online and a frequency for each. */
  datatype Sample = Sample(cpus: seq<nat>, freqs: seq<int>)

  predicate ValidSample(s: Sample) { |s.cpus| == |s.freqs| }

  function Frequencies(samples: seq<Sample>): seq<int> {
    if samples == [] then [] else Frequencies(samples[..|samples| - 1]) + samples[|samples| - 1].freqs
  }

  /** The part of a round that belongs to some CPUs. */
  function Restrict(s: Sample, members: seq<nat>): (r: Sample)
    requires ValidSample(s)
    ensures ValidSample(r)
    decreases |s.cpus|
  {
    if s.cpus == [] then Sample([], [])
    else
      var n := |s.cpus| - 1;
      var rest := Restrict(Sample(s.cpus[..n], s.freqs[..n]), members);
      if s.cpus[n] in members then Sample(rest.cpus + [s.cpus[n]], rest.freqs + [s.freqs[n]]) else rest
  }

  function RestrictAll(samples: seq<Sample>, members: seq<nat>): (r: seq<Sample>)
    requires forall s :: s in samples ==> ValidSample(s)
    ensures |r| == |samples| && forall s :: s in r ==> ValidSample(s)
  {
    if samples == [] then []
    else
      var n := |samples| - 1;
      assert samples[n] in samples && forall s :: s in samples[..n] ==> s in samples;
      RestrictAll(samples[..n], members) + [Restrict(samples[n], members)]
  }

  // ---------------------------------------------------------------- results

  datatype Result = Result(
    target: int, sampleCount: nat, cpus: seq<nat>, all: seq<int>, min: int, max: int, mean: real,
    p50: int, p90: int, p99: int, compliance: real, policy: Option<PolicyId>)

  function Compute(target: int, samples: seq<Sample>, policy: Option<PolicyId>): Result {
    var all := Frequencies(samples);
    var cpus := if samples == [] then [] else samples[0].cpus;
    if all == [] then Result(target, |samples|, cpus, [], 0, 0, 0.0, 0, 0, 0, 0.0, policy)
    else
      SortIsSorting(all, Khz);
      var s := Sort(all, Khz);
      Result(target, |samples|, cpus, all, s[0], s[|s| - 1], Sum(all) as real / |all| as real,
             Percentile(s, 50.0), Percentile(s, 90.0), Percentile(s, 99.0),
             CountAtLeast(all, target) as real / |all| as real, policy)
  }

  lemma Ratio(x: int, n: nat, low: int, high: int)
    requires n > 0 && n * low <= x <= n * high
    ensures low as real <= x as real / n as real <= high as real
  {
    var q := x as real / n as real;
    assert q * n as real == x as real;
    assert n as real * low as real == (n * low) as real;
    assert n as real * high as real == (n * high) as real;
    SignOfFactor(q - low as real, n as real);
    SignOfFactor(high as real - q, n as real);
  }

  /** The smallest and the largest sample bound every sample. */
  lemma SortedEnds(all: seq<int>)
    requires all != []
    ensures var s := Sort(all, Khz);
      && |s| == |all| && SortedBy(s, Khz) && s[0] in all && s[|s| - 1] in all
      && forall x :: x in all ==> s[0] <= x <= s[|s| - 1]
  {
    SortIsSorting(all, Khz);
    var s := Sort(all, Khz);
    forall x ensures x in s <==> x in all {
      assert x in s <==> x in multiset(s);
      assert x in all <==> x in multiset(all);
    }
    forall x | x in all ensures s[0] <= x <= s[|s| - 1] {
      var i :| 0 <= i < |s| && s[i] == x;
      SortedAt(s, 0, i);
      SortedAt(s, i, |s| - 1);
    }
    assert s[0] in s && s[|s| - 1] in s;
  }

  /**
   A result over any samples keeps its statistics in order; minimum and maximum are samples and
   bound all of them, and the compliance is a share, full exactly when every sample meets the target.
   */
  lemma ResultInOrder(target: int, samples: seq<Sample>, policy: Option<PolicyId>)
    requires Frequencies(samples) != []
    ensures var r := Compute(target, samples, policy); var all := Frequencies(samples);
      && r.all == all && r.min in all && r.max in all
      && (forall x :: x in all ==> r.min <= x <= r.max)
      && r.min <= r.p50 <= r.p90 <= r.p99 <= r.max
  {
    var all := Frequencies(samples);
    SortedEnds(all);
    var s := Sort(all, Khz);
    PercentileInRange(s, 50.0);
    PercentileInRange(s, 99.0);
    PercentileGrows(s, 50.0, 90.0);
    PercentileGrows(s, 90.0, 99.0);
  }

  /**
   Which percentages a result reports, over its own samples in order; without any sample everything
   but the target, the rounds and the CPUs is zero.
   */
  lemma ResultReports(target: int, samples: seq<Sample>, policy: Option<PolicyId>)
    ensures var r := Compute(target, samples, policy); var s := Sort(r.all, Khz);
      && r.target == target && r.sampleCount == |samples| && r.policy == policy
      && r.cpus == (if samples == [] then [] else samples[0].cpus)
      && SortedBy(s, Khz) && multiset(s) == multiset(r.all)
      && (s != [] ==> PercentileIs(s, 50, r.p50) && PercentileIs(s, 90, r.p90) && PercentileIs(s, 99, r.p99))
      && (s == [] ==> r == Result(target, |samples|, r.cpus, [], 0, 0, 0.0, 0, 0, 0, 0.0, policy))
  {
    var all := Frequencies(samples);
    SortIsSorting(all, Khz);
    var s := Sort(all, Khz);
    if s != [] {
      PercentileExactly(s, 50);
      PercentileExactly(s, 90);
      PercentileExactly(s, 99);
    }
  }

  /** Mean and compliance are the total and the number of samples at target, shared over all samples. */
  lemma MeanIsExact(target: int, samples: seq<Sample>, policy: Option<PolicyId>)
    requires Frequencies(samples) != []
    ensures var r := Compute(target, samples, policy); var n := |Frequencies(samples)|;
      && Times(n, r.mean) == Sum(Frequencies(samples)) as real
      && Times(n, r.compliance) == CountAtLeast(Frequencies(samples), target) as real
  {
    var all := Frequencies(samples);
    QuotientTimes(Sum(all), |all|);
    QuotientTimes(CountAtLeast(all, target), |all|);
  }

  lemma QuotientTimes(x: int, n: nat)
    requires n > 0
    ensures Times(n, x as real / n as real) == x as real
  {
    TimesMultiplies(n, x as real / n as real);
    assert x as real / n as real * n as real == x as real;
  }

  lemma MeanAndCompliance(target: int, samples: seq<Sample>, policy: Option<PolicyId>)
    requires Frequencies(samples) != []
    ensures var r := Compute(target, samples, policy);
      && r.min as real <= r.mean <= r.max as real
      && 0.0 <= r.compliance <= 1.0
      && (r.compliance == 1.0 <==> forall x :: x in Frequencies(samples) ==> x >= target)
  {
    var all := Frequencies(samples);
    SortedEnds(all);
    var s := Sort(all, Khz);
    SumBounds(all, s[0], s[|s| - 1]);
    Ratio(Sum(all), |all|, s[0], s[|s| - 1]);
    CountBounds(all, target);
    Ratio(CountAtLeast(all, target), |all|, 0, 1);
    FullRatio(CountAtLeast(all, target), |all|);
  }

  lemma FullRatio(x: int, n: nat)
    requires n > 0
    ensures x as real / n as real == 1.0 <==> x == n
  {
    assert x as real / n as real * n as real == x as real;
  }

  // ---------------------------------------------------------------- targets

  datatype ClampReason =
    | BoundsUnavailable | BoundsIncompatible | AutomaticMaximum
    | RaisedTo(khz: int) | ClampedTo(khz: int) | AsRequested

  datatype Verdict = Verdict(target: Option<int>, reason: ClampReason)

  /** One request against one policy's bounds, with the reason for any change. None is automatic. */
  function PolicyTarget(l: Limits, requested: Option<int>): Verdict {
    var lower := MaxPositive(l.hardwareMin, l.activeMin);
    var upper := MinPositive(l.hardwareMax, l.activeMax);
    if lower.None? || upper.None? then Verdict(None, BoundsUnavailable)
    else if lower.value > upper.value then Verdict(None, BoundsIncompatible)
    else if requested.None? then Verdict(upper, AutomaticMaximum)
    else if requested.value < lower.value then Verdict(lower, RaisedTo(lower.value))
    else if requested.value > upper.value then Verdict(upper, ClampedTo(upper.value))
    else Verdict(requested, AsRequested)
  }

  /**
   The planner, the benchmark and the engine resolve the same target for every policy whose
   bounds are known; where they are not, planner and benchmark both refuse.
   */
  lemma ThreeResolveAlike(l: Limits, requested: Option<int>)
    ensures PolicyTarget(l, requested).target == EffectiveTarget(l, requested)
    ensures PolicyTarget(l, requested).reason != BoundsUnavailable ==>
              Engines.EngineTarget(l, requested) == EffectiveTarget(l, requested)
    ensures PolicyTarget(l, requested).reason == BoundsUnavailable ==>
              EffectiveTarget(l, requested).None? && Engines.EngineTarget(l, requested) == requested
    ensures PolicyTarget(l, requested).reason == AsRequested ==> PolicyTarget(l, requested).target == requested
  {
  }

  // ---------------------------------------------------------------- conservation

  datatype Group = Group(id: PolicyId, members: seq<nat>, target: int)

  /** The policies with a target; when there are none, every online CPU for itself. */
  function Groups(policies: seq<Policy>, online: seq<nat>, requested: Option<int>): seq<Group> {
    var resolved := Resolved(policies, requested);
    if resolved != [] then resolved
    else SingleGroups(online, if requested.Some? then requested.value else 4000000)
  }

  function SingleGroups(online: seq<nat>, target: int): seq<Group> {
    seq(|online|, i requires 0 <= i < |online| => Group(CpuName(online[i]), [online[i]], target))
  }

  function Resolved(policies: seq<Policy>, requested: Option<int>): seq<Group> {
    if policies == [] then []
    else
      var n := |policies| - 1;
      var verdict := PolicyTarget(policies[n].limits, requested);
      Resolved(policies[..n], requested)
      + (if verdict.target.Some? then [Group(policies[n].id, policies[n].cpus, verdict.target.value)] else [])
  }

  /** Why a target is what it is. */
  lemma VerdictMeans(l: Limits, requested: Option<int>)
    ensures var v := PolicyTarget(l, requested);
      && (v.target.None? <==> v.reason.BoundsUnavailable? || v.reason.BoundsIncompatible?)
      && (v.reason.BoundsUnavailable? <==>
            !((IsPositive(l.hardwareMin) || IsPositive(l.activeMin)) && (IsPositive(l.hardwareMax) || IsPositive(l.activeMax))))
      && (v.target.Some? && requested.None? ==> v.reason == AutomaticMaximum)
      && (v.target.Some? && requested.Some? && v.target.value > requested.value ==> v.reason == RaisedTo(v.target.value))
      && (v.target.Some? && requested.Some? && v.target.value < requested.value ==> v.reason == ClampedTo(v.target.value))
      && (v.target.Some? && v.target == requested ==> v.reason == AsRequested)
  {
  }

  /** The groups are the policies with a target, at that target, each with its own CPUs. */
  lemma {:induction false} ResolvedMeans(policies: seq<Policy>, requested: Option<int>, g: Group)
    ensures g in Resolved(policies, requested) <==>
            exists p :: p in policies && EffectiveTarget(p.limits, requested) == Some(g.target) && g.id == p.id && g.members == p.cpus
  {
    if policies != [] {
      var n := |policies| - 1;
      ResolvedMeans(policies[..n], requested, g);
      ThreeResolveAlike(policies[n].limits, requested);
      assert forall p :: p in policies <==> p in policies[..n] || p == policies[n];
    }
  }

  /** Without any, each online CPU is a group of its own, at the requested target or 4 GHz. */
  lemma OnlineMeans(policies: seq<Policy>, online: seq<nat>, requested: Option<int>, i: nat)
    requires forall p :: p in policies ==> EffectiveTarget(p.limits, requested).None?
    requires i < |online|
    ensures |Groups(policies, online, requested)| == |online|
    ensures Groups(policies, online, requested)[i]
         == Group(CpuName(online[i]), [online[i]], if requested.Some? then requested.value else 4000000)
  {
    var resolved := Resolved(policies, requested);
    if resolved != [] {
      ResolvedMeans(policies, requested, resolved[0]);
      assert false;
    }
  }

  /** Groups that fall back to the online CPUs partition them. */
  lemma FallbackPartitions(policies: seq<Policy>, online: seq<nat>, requested: Option<int>, samples: seq<Sample>)
    requires Resolved(policies, requested) == [] && Distinct(online)
    requires forall s, cpu :: s in samples && cpu in s.cpus ==> cpu in online
    ensures Partition(Groups(policies, online, requested), samples)
  {
    var groups := Groups(policies, online, requested);
    forall s, cpu | s in samples && cpu in s.cpus ensures Memberships(groups, cpu) == 1 {
      SingleMembership(groups, online, cpu);
    }
  }

  lemma {:induction false} SingleMembership(groups: seq<Group>, online: seq<nat>, cpu: nat)
    requires |groups| == |online| && forall i :: 0 <= i < |online| ==> groups[i].members == [online[i]]
    requires Distinct(online)
    ensures Memberships(groups, cpu) == if cpu in online then 1 else 0
  {
    if groups != [] {
      var n := |groups| - 1;
      SingleMembership(groups[..n], online[..n], cpu);
      assert online == online[..n] + [online[n]];
      assert online[n] !in online[..n];
    }
  }

  /** In how many groups a CPU is a member. */
  function Memberships(groups: seq<Group>, cpu: nat): nat {
    if groups == [] then 0
    else Memberships(groups[..|groups| - 1], cpu) + (if cpu in groups[|groups| - 1].members then 1 else 0)
  }

  /** Every sampled CPU is a member of exactly one group. */
  ghost predicate Partition(groups: seq<Group>, samples: seq<Sample>) {
    forall s, cpu :: s in samples && cpu in s.cpus ==> Memberships(groups, cpu) == 1
  }

  function GroupResult(g: Group, samples: seq<Sample>): Result
    requires forall s :: s in samples ==> ValidSample(s)
  {
    Compute(g.target, RestrictAll(samples, g.members), Some(g.id))
  }

  function GroupResults(groups: seq<Group>, samples: seq<Sample>): seq<Result>
    requires forall s :: s in samples ==> ValidSample(s)
  {
    seq(|groups|, i requires 0 <= i < |groups| => GroupResult(groups[i], samples))
  }

  /** The first n of some values, under the identifiers of their groups. */
  ghost predicate ResultsOf(results: map<PolicyId, Result>, groups: seq<Group>, n: nat, values: seq<Result>)
    requires n <= |groups| == |values|
  {
    && (forall id :: id in results <==> exists j :: 0 <= j < n && groups[j].id == id)
    && forall j :: 0 <= j < n ==> groups[j].id in results && results[groups[j].id] == values[j]
  }

  lemma OneMoreResult(results: map<PolicyId, Result>, groups: seq<Group>, n: nat, values: seq<Result>)
    requires n < |groups| == |values| && ResultsOf(results, groups, n, values)
    requires forall i, j :: 0 <= i < j < |groups| ==> groups[i].id != groups[j].id
    ensures ResultsOf(results[groups[n].id := values[n]], groups, n + 1, values)
  {
    var after := results[groups[n].id := values[n]];
    forall id ensures id in after <==> exists j :: 0 <= j < n + 1 && groups[j].id == id {
      if id == groups[n].id { assert groups[n].id == id; }
    }
  }

  lemma AllResults(results: map<PolicyId, Result>, groups: seq<Group>, samples: seq<Sample>)
    requires (forall s :: s in samples ==> ValidSample(s))
    requires ResultsOf(results, groups, |groups|, GroupResults(groups, samples))
    ensures results.Keys == set g | g in groups :: g.id
    ensures forall g :: g in groups ==> g.id in results && results[g.id] == GroupResult(g, samples)
  {
    forall g | g in groups ensures g.id in results && results[g.id] == GroupResult(g, samples) {
      var j :| 0 <= j < |groups| && groups[j] == g;
      assert GroupResults(groups, samples)[j] == GroupResult(g, samples);
    }
    forall id | id in results ensures exists g :: g in groups && g.id == id {
      var j :| 0 <= j < |groups| && groups[j].id == id;
      assert groups[j] in groups;
    }
  }

  /** The readings of a round that belong to some CPUs, in order. */
  function Belonging(cpus: seq<nat>, freqs: seq<int>, members: seq<nat>): (seq<nat>, seq<int>)
    requires |cpus| == |freqs|
  {
    if cpus == [] then ([], [])
    else
      var rest := Belonging(cpus[1..], freqs[1..], members);
      if cpus[0] in members then ([cpus[0]] + rest.0, [freqs[0]] + rest.1) else rest
  }

  lemma {:induction false} BelongingLast(cpus: seq<nat>, freqs: seq<int>, members: seq<nat>)
    requires |cpus| == |freqs| && cpus != []
    ensures var n := |cpus| - 1; var before := Belonging(cpus[..n], freqs[..n], members);
      Belonging(cpus, freqs, members) ==
      if cpus[n] in members then (before.0 + [cpus[n]], before.1 + [freqs[n]]) else before
  {
    var n := |cpus| - 1;
    if n > 0 {
      BelongingLast(cpus[1..], freqs[1..], members);
      assert cpus[1..][..n - 1] == cpus[..n][1..] && freqs[1..][..n - 1] == freqs[..n][1..];
      assert cpus[1..][n - 1] == cpus[n] && freqs[1..][n - 1] == freqs[n];
      var inner := Belonging(cpus[..n][1..], freqs[..n][1..], members);
      assert [cpus[0]] + (inner.0 + [cpus[n]]) == [cpus[0]] + inner.0 + [cpus[n]];
      assert [freqs[0]] + (inner.1 + [freqs[n]]) == [freqs[0]] + inner.1 + [freqs[n]];
    } else {
      var rest, before := Belonging(cpus[1..], freqs[1..], members), Belonging(cpus[..n], freqs[..n], members);
      assert cpus[..n] == [] && rest == before && rest.0 == [] && rest.1 == [];
      assert [cpus[0]] + rest.0 == before.0 + [cpus[0]] && [freqs[0]] + rest.1 == before.1 + [freqs[0]];
    }
  }

  lemma {:induction false} RestrictMeans(s: Sample, members: seq<nat>)
    requires ValidSample(s)
    ensures (Restrict(s, members).cpus, Restrict(s, members).freqs) == Belonging(s.cpus, s.freqs, members)
    decreases |s.cpus|
  {
    if s.cpus != [] {
      var n := |s.cpus| - 1;
      RestrictMeans(Sample(s.cpus[..n], s.freqs[..n]), members);
      BelongingLast(s.cpus, s.freqs, members);
    }
  }

  /** All readings of some rounds that belong to some CPUs. */
  function AllBelonging(samples: seq<Sample>, members: seq<nat>): seq<int>
    requires forall s :: s in samples ==> ValidSample(s)
  {
    if samples == [] then []
    else
      var n := |samples| - 1;
      assert samples[n] in samples && ValidSample(samples[n]) && forall s :: s in samples[..n] ==> s in samples;
      AllBelonging(samples[..n], members) + Belonging(samples[n].cpus, samples[n].freqs, members).1
  }

  lemma {:induction false} RestrictedReadings(samples: seq<Sample>, members: seq<nat>)
    requires forall s :: s in samples ==> ValidSample(s)
    ensures Frequencies(RestrictAll(samples, members)) == AllBelonging(samples, members)
  {
    if samples != [] {
      var n := |samples| - 1;
      assert samples[n] in samples && forall s :: s in samples[..n] ==> s in samples;
      RestrictedReadings(samples[..n], members);
      RestrictMeans(samples[n], members);
      var all := RestrictAll(samples, members);
      assert all[..n] == RestrictAll(samples[..n], members) && all[n] == Restrict(samples[n], members);
    }
  }

  /** A group's result: its own target, over the readings of its own CPUs in every round. */
  lemma GroupResultMeans(g: Group, samples: seq<Sample>)
    requires forall s :: s in samples ==> ValidSample(s)
    ensures var r := GroupResult(g, samples);
      && r.target == g.target && r.policy == Some(g.id) && r.sampleCount == |samples|
      && r.all == AllBelonging(samples, g.members)
      && (r.all != [] ==> Times(|r.all|, r.compliance) == CountAtLeast(r.all, g.target) as real)
  {
    var own := RestrictAll(samples, g.members);
    RestrictedReadings(samples, g.members);
    ResultReports(g.target, own, Some(g.id));
    var r := GroupResult(g, samples);
    if r.all != [] { MeanIsExact(g.target, own, Some(g.id)); }
  }

  /** The overall target: the requested one, or the largest of any group. */
  lemma {:induction false} LargestIsLargest(groups: seq<Group>)
    requires groups != []
    ensures forall g :: g in groups ==> g.target <= LargestTarget(groups)
    ensures exists g :: g in groups && g.target == LargestTarget(groups)
  {
    if |groups| > 1 {
      LargestIsLargest(groups[1..]);
      assert forall g :: g in groups <==> g == groups[0] || g in groups[1..];
      if groups[0].target < LargestTarget(groups[1..]) {
        var g :| g in groups[1..] && g.target == LargestTarget(groups[1..]);
        assert g in groups;
      } else {
        assert groups[0] in groups;
      }
    } else {
      assert groups[0] in groups;
    }
  }

  lemma AggregateMeans(groups: seq<Group>, requested: Option<int>)
    ensures var t := AggregateTarget(groups, requested);
      && (requested.Some? ==> t == requested.value)
      && (requested.None? && groups == [] ==> t == 4000000)
      && (requested.None? && groups != [] ==>
            (forall g :: g in groups ==> g.target <= t) && exists g :: g in groups && g.target == t)
  {
    if groups != [] { LargestIsLargest(groups); }
  }

  /** All samples of all group results together. */
  function Pooled(groups: seq<Group>, samples: seq<Sample>): multiset<int>
    requires forall s :: s in samples ==> ValidSample(s)
  {
    if groups == [] then multiset{}
    else Pooled(groups[..|groups| - 1], samples) + multiset(GroupResult(groups[|groups| - 1], samples).all)
  }

  /** What the groups keep of one round. */
  function PooledRound(groups: seq<Group>, s: Sample): multiset<int>
    requires ValidSample(s)
  {
    if groups == [] then multiset{}
    else PooledRound(groups[..|groups| - 1], s) + multiset(Restrict(s, groups[|groups| - 1].members).freqs)
  }

  function Copies(x: int, n: nat): multiset<int> { multiset{}[x := n] }

  lemma {:induction false} OneMoreReading(groups: seq<Group>, s: Sample)
    requires ValidSample(s) && s.cpus != []
    ensures var n := |s.cpus| - 1;
      PooledRound(groups, s) == PooledRound(groups, Sample(s.cpus[..n], s.freqs[..n]))
                              + Copies(s.freqs[n], Memberships(groups, s.cpus[n]))
  {
    if groups != [] { OneMoreReading(groups[..|groups| - 1], s); }
  }

  lemma {:induction false} NoReading(groups: seq<Group>)
    ensures PooledRound(groups, Sample([], [])) == multiset{}
  {
    if groups != [] { NoReading(groups[..|groups| - 1]); }
  }

  /** One round is split without loss or duplication. */
  lemma {:induction false} RoundConserved(groups: seq<Group>, s: Sample)
    requires ValidSample(s) && forall cpu :: cpu in s.cpus ==> Memberships(groups, cpu) == 1
    ensures PooledRound(groups, s) == multiset(s.freqs)
    decreases |s.cpus|
  {
    if s.cpus == [] {
      NoReading(groups);
    } else {
      var n := |s.cpus| - 1;
      var rest := Sample(s.cpus[..n], s.freqs[..n]);
      assert s.cpus[n] in s.cpus;
      RoundConserved(groups, rest);
      OneMoreReading(groups, s);
      assert s.freqs == rest.freqs + [s.freqs[n]];
    }
  }

  lemma GroupOneMore(g: Group, samples: seq<Sample>)
    requires samples != [] && forall s :: s in samples ==> ValidSample(s)
    ensures var n := |samples| - 1;
      && samples[n] in samples && (forall s :: s in samples[..n] ==> s in samples)
      && GroupResult(g, samples).all == GroupResult(g, samples[..n]).all + Restrict(samples[n], g.members).freqs
  {
    var n := |samples| - 1;
    assert samples[n] in samples && forall s :: s in samples[..n] ==> s in samples;
    assert RestrictAll(samples, g.members)[..n] == RestrictAll(samples[..n], g.members);
    ResultKeepsAll(g.target, RestrictAll(samples, g.members), Some(g.id));
    ResultKeepsAll(g.target, RestrictAll(samples[..n], g.members), Some(g.id));
  }

  lemma ResultKeepsAll(target: int, samples: seq<Sample>, policy: Option<PolicyId>)
    ensures Compute(target, samples, policy).all == Frequencies(samples)
  {
  }

  lemma {:induction false} OneMoreRound(groups: seq<Group>, samples: seq<Sample>)
    requires samples != [] && forall s :: s in samples ==> ValidSample(s)
    ensures var n := |samples| - 1;
      && samples[n] in samples && (forall s :: s in samples[..n] ==> s in samples)
      && Pooled(groups, samples) == Pooled(groups, samples[..n]) + PooledRound(groups, samples[n])
  {
    var n := |samples| - 1;
    assert samples[n] in samples && forall s :: s in samples[..n] ==> s in samples;
    if groups != [] {
      OneMoreRound(groups[..|groups| - 1], samples);
      GroupOneMore(groups[|groups| - 1], samples);
    }
  }

  lemma {:induction false} NoRounds(groups: seq<Group>)
    ensures Pooled(groups, []) == multiset{}
  {
    if groups != [] { NoRounds(groups[..|groups| - 1]); }
  }

  /**
   Sample conservation: when the policies partition the sampled CPUs, the samples of the policy
   results together are exactly the samples of the overall result.
   */
  lemma {:induction false} SamplesConserved(
    groups: seq<Group>, samples: seq<Sample>, target: int)
    requires forall s :: s in samples ==> ValidSample(s)
    requires Partition(groups, samples)
    ensures Pooled(groups, samples) == multiset(Compute(target, samples, None).all)
  {
    AllConserved(groups, samples);
  }

  lemma {:induction false} AllConserved(groups: seq<Group>, samples: seq<Sample>)
    requires forall s :: s in samples ==> ValidSample(s)
    requires Partition(groups, samples)
    ensures Pooled(groups, samples) == multiset(Frequencies(samples))
  {
    if samples == [] {
      NoRounds(groups);
    } else {
      var n := |samples| - 1;
      OneMoreRound(groups, samples);
      AllConserved(groups, samples[..n]);
      RoundConserved(groups, samples[n]);
    }
  }

  // ---------------------------------------------------------------- the runner

  class BenchmarkRunner {
    /** None asks for each policy's own maximum. */
    const targetKhz: Option<int>
    var samples: seq<Sample>

    constructor (targetKhz: Option<int>)
      requires targetKhz.Some? ==> targetKhz.value > 0
      ensures this.targetKhz == targetKhz && samples == []
    {
      this.targetKhz := targetKhz;
      samples := [];
    }

    predicate Valid() reads this { forall s :: s in samples ==> ValidSample(s) }

    /** The frequencies of the CPUs of a group, round by round. */
    static method SelectMembers(samples: seq<Sample>, members: seq<nat>) returns (selected: seq<Sample>)
      requires forall s :: s in samples ==> ValidSample(s)
      ensures selected == RestrictAll(samples, members)
    {
      selected := [];
      var i := 0;
      while i < |samples|
        invariant 0 <= i <= |samples|
        invariant selected == RestrictAll(samples[..i], members)
      {
        var sample := samples[i];
        assert sample in samples;
        var cpus, freqs := [], [];
        var j := 0;
        while j < |sample.cpus|
          invariant 0 <= j <= |sample.cpus|
          invariant Sample(cpus, freqs) == Restrict(Sample(sample.cpus[..j], sample.freqs[..j]), members)
        {
          assert sample.cpus[..j + 1][..j] == sample.cpus[..j] && sample.freqs[..j + 1][..j] == sample.freqs[..j];
          if sample.cpus[j] in members {
            cpus := cpus + [sample.cpus[j]];
            freqs := freqs + [sample.freqs[j]];
          }
          j := j + 1;
        }
        assert Sample(sample.cpus[..j], sample.freqs[..j]) == sample;
        selected := selected + [Sample(cpus, freqs)];
        assert samples[..i + 1][..i] == samples[..i];
        i := i + 1;
      }
      assert samples[..i] == samples;
    }

    static method ComputeResult(samples: seq<Sample>, target: int, policy: Option<PolicyId>) returns (r: Result)
      ensures r == Compute(target, samples, policy)
    {
      var all: seq<int> := [];
      var i := 0;
      while i < |samples|
        invariant 0 <= i <= |samples| && all == Frequencies(samples[..i])
      {
        assert samples[..i + 1][..i] == samples[..i];
        all := all + samples[i].freqs;
        i := i + 1;
      }
      assert samples[..i] == samples;
      var cpus := if samples == [] then [] else samples[0].cpus;
      if all == [] {
        return Result(target, |samples|, cpus, [], 0, 0, 0.0, 0, 0, 0, 0.0, policy);
      }
      var sorted := Sort(all, Khz);
      SortIsSorting(all, Khz);
      var compliance := CountAtLeast(all, target) as real / |all| as real;
      return Result(target, |samples|, cpus, all, sorted[0], sorted[|sorted| - 1], Sum(all) as real / |all| as real,
                    Percentile(sorted, 50.0), Percentile(sorted, 90.0), Percentile(sorted, 99.0), compliance, policy);
    }

    /** Resolve every discovered policy to its own target, or fall back to the online CPUs. */
    method ResolvePolicyTargets(policies: seq<Policy>, online: seq<nat>) returns (groups: seq<Group>)
      ensures groups == Groups(policies, online, targetKhz)
    {
      groups := [];
      var i := 0;
      while i < |policies|
        invariant 0 <= i <= |policies| && groups == Resolved(policies[..i], targetKhz)
      {
        assert policies[..i + 1][..i] == policies[..i];
        var verdict := PolicyTarget(policies[i].limits, targetKhz);
        if verdict.target.Some? {
          groups := groups + [Group(policies[i].id, policies[i].cpus, verdict.target.value)];
        }
        i := i + 1;
      }
      assert policies[..i] == policies;
      if groups != [] {
        return;
      }
      groups := OnlineGroups(online, if targetKhz.Some? then targetKhz.value else 4000000);
    }

    /** One group for each online CPU. */
    static method OnlineGroups(online: seq<nat>, target: int) returns (groups: seq<Group>)
      ensures groups == SingleGroups(online, target)
    {
      groups := [];
      var j := 0;
      while j < |online|
        invariant 0 <= j <= |online| && |groups| == j
        invariant forall k :: 0 <= k < j ==> groups[k] == Group(CpuName(online[k]), [online[k]], target)
      {
        groups := groups + [Group(CpuName(online[j]), [online[j]], target)];
        j := j + 1;
      }
    }

    /** The result of one group, over its members' samples. */
    method GroupResultOf(group: Group) returns (result: Result)
      requires Valid()
      ensures result == GroupResult(group, samples)
    {
      var members := SelectMembers(samples, group.members);
      result := ComputeResult(members, group.target, Some(group.id));
    }

    method PolicyResults(groups: seq<Group>) returns (results: map<PolicyId, Result>)
      requires Valid() && forall i, j :: 0 <= i < j < |groups| ==> groups[i].id != groups[j].id
      ensures results.Keys == set g | g in groups :: g.id
      ensures forall g :: g in groups ==> g.id in results && results[g.id] == GroupResult(g, samples)
    {
      results := map[];
      ghost var values := GroupResults(groups, samples);
      var i := 0;
      while i < |groups|
        invariant 0 <= i <= |groups| && ResultsOf(results, groups, i, values)
      {
        var result := GroupResultOf(groups[i]);
        OneMoreResult(results, groups, i, values);
        results := results[groups[i].id := result];
        i := i + 1;
      }
      AllResults(results, groups, samples);
    }

    /** Take the given rounds and evaluate them, overall and policy by policy. */
    method Run(rounds: seq<Sample>, policies: seq<Policy>, online: seq<nat>)
      returns (overall: Result, results: map<PolicyId, Result>)
      requires forall s :: s in rounds ==> ValidSample(s)
      requires var groups := Groups(policies, online, targetKhz);
        forall i, j :: 0 <= i < j < |groups| ==> groups[i].id != groups[j].id
      modifies this
      ensures Valid() && samples == rounds
      ensures overall == Compute(AggregateTarget(Groups(policies, online, targetKhz), targetKhz), rounds, None)
      ensures forall g :: g in Groups(policies, online, targetKhz) ==>
                g.id in results && results[g.id] == GroupResult(g, rounds)
      ensures Partition(Groups(policies, online, targetKhz), rounds) ==>
                Pooled(Groups(policies, online, targetKhz), rounds) == multiset(overall.all)
    {
      samples := [];
      var i := 0;
      while i < |rounds|
        invariant 0 <= i <= |rounds| && samples == rounds[..i]
      {
        samples := samples + [rounds[i]];
        i := i + 1;
      }
      var groups := ResolvePolicyTargets(policies, online);
      overall := ComputeResult(samples, AggregateTarget(groups, targetKhz), None);
      results := PolicyResults(groups);
      if Partition(groups, rounds) { SamplesConserved(groups, rounds, overall.target); }
    }
  }

  /** The requested target, or else the largest target of any group. */
  function AggregateTarget(groups: seq<Group>, requested: Option<int>): int {
    if requested.Some? then requested.value
    else if groups == [] then 4000000
    else LargestTarget(groups)
  }

  function LargestTarget(groups: seq<Group>): int
    requires groups != []
  {
    if |groups| == 1 then groups[0].target
    else
      var rest := LargestTarget(groups[1..]);
      if groups[0].target >= rest then groups[0].target else rest
  }
}
