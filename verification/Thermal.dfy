/**
 The thermal guard: a median spike filter and a latching trip with hysteresis
 (boostlock/thermal.py).
 */
module Thermal {
  import opened Arithmetic
  import opened Sorting

  // ---------------------------------------------------------------- median

  function Celsius(x: real): real { x }

  function Sorted(s: seq<real>): (r: seq<real>)
    ensures |r| == |s|
  {
    SortIsSorting(s, Celsius);
    Sort(s, Celsius)
  }

  /** The middle sample, or the mean of the two middle samples. */
  function Median(s: seq<real>): real
    requires s != []
  {
    var r := Sorted(s);
    if |s| % 2 == 1 then r[|s| / 2] else (r[|s| / 2 - 1] + r[|s| / 2]) / 2.0
  }

  /** How many samples lie in [lo, hi]. */
  function Within(s: seq<real>, lo: real, hi: real): nat {
    if s == [] then 0 else (if lo <= s[0] <= hi then 1 else 0) + Within(s[1..], lo, hi)
  }

  lemma {:induction false} WithinInsert(x: real, s: seq<real>, lo: real, hi: real)
    ensures Within(Insert(x, s, Celsius), lo, hi) == Within(s, lo, hi) + (if lo <= x <= hi then 1 else 0)
  {
    if s == [] || x <= s[0] {
      assert ([x] + s)[1..] == s;
    } else {
      WithinInsert(x, s[1..], lo, hi);
      assert ([s[0]] + Insert(x, s[1..], Celsius))[1..] == Insert(x, s[1..], Celsius);
    }
  }

  lemma {:induction false} WithinSorted(s: seq<real>, lo: real, hi: real)
    ensures Within(Sorted(s), lo, hi) == Within(s, lo, hi)
  {
    if s != [] {
      WithinSorted(s[1..], lo, hi);
      WithinInsert(s[0], Sorted(s[1..]), lo, hi);
    }
  }

  lemma {:induction false} WithinSplit(a: seq<real>, b: seq<real>, lo: real, hi: real)
    ensures Within(a + b, lo, hi) == Within(a, lo, hi) + Within(b, lo, hi)
  {
    if a == [] {
      assert a + b == b;
    } else {
      assert (a + b)[1..] == a[1..] + b;
      WithinSplit(a[1..], b, lo, hi);
    }
  }

  lemma {:induction false} WithinBound(s: seq<real>, lo: real, hi: real)
    ensures Within(s, lo, hi) <= |s|
    ensures (forall x :: x in s ==> !(lo <= x <= hi)) ==> Within(s, lo, hi) == 0
  {
    if s != [] {
      assert s[0] in s && forall x :: x in s[1..] ==> x in s;
      WithinBound(s[1..], lo, hi);
    }
  }

  lemma WithinTail(s: seq<real>, k: nat, lo: real, hi: real)
    requires k <= |s| && forall i :: 0 <= i < k ==> !(lo <= s[i] <= hi)
    ensures Within(s, lo, hi) <= |s| - k
  {
    assert s == s[..k] + s[k..];
    WithinSplit(s[..k], s[k..], lo, hi);
    WithinBound(s[..k], lo, hi);
    WithinBound(s[k..], lo, hi);
  }

  lemma WithinHead(s: seq<real>, k: nat, lo: real, hi: real)
    requires k <= |s| && forall i :: k <= i < |s| ==> !(lo <= s[i] <= hi)
    ensures Within(s, lo, hi) <= k
  {
    assert s == s[..k] + s[k..];
    WithinSplit(s[..k], s[k..], lo, hi);
    WithinBound(s[..k], lo, hi);
    WithinBound(s[k..], lo, hi);
  }

  /** A sorted sample at or inside both middles is in range when a strict majority is. */
  lemma MiddleInRange(s: seq<real>, m: nat, lo: real, hi: real)
    requires SortedBy(s, Celsius) && m < |s| && |s| <= 2 * m + 2 && 2 * m <= |s|
    requires 2 * Within(s, lo, hi) > |s|
    ensures lo <= s[m] <= hi
  {
    if s[m] < lo {
      assert forall i :: 0 <= i < m ==> Celsius(s[i]) <= Celsius(s[m]);
      WithinTail(s, m + 1, lo, hi);
      assert false;
    }
    if s[m] > hi {
      assert forall i :: m < i < |s| ==> Celsius(s[m]) <= Celsius(s[i]);
      WithinHead(s, m, lo, hi);
      assert false;
    }
  }

  /**
   Spike suppression: when strictly more than half of the window lies in a range, so does the
   median, for windows of odd and even length.
   */
  lemma MajorityRulesMedian(s: seq<real>, lo: real, hi: real)
    requires s != [] && 2 * Within(s, lo, hi) > |s|
    ensures lo <= Median(s) <= hi
  {
    SortIsSorting(s, Celsius);
    WithinSorted(s, lo, hi);
    MiddleInRange(Sorted(s), |s| / 2, lo, hi);
    if |s| % 2 == 0 {
      MiddleInRange(Sorted(s), |s| / 2 - 1, lo, hi);
      MeanBetween(Sorted(s)[|s| / 2 - 1], Sorted(s)[|s| / 2], lo, hi);
    }
  }

  lemma MeanBetween(a: real, b: real, lo: real, hi: real)
    requires lo <= a <= hi && lo <= b <= hi
    ensures lo <= (a + b) / 2.0 <= hi
  {
  }

  /** How many samples satisfy a condition. */
  function Count(s: seq<real>, p: real -> bool): nat {
    if s == [] then 0 else (if p(s[0]) then 1 else 0) + Count(s[1..], p)
  }

  lemma {:induction false} CountInsert(x: real, s: seq<real>, p: real -> bool)
    ensures Count(Insert(x, s, Celsius), p) == Count(s, p) + (if p(x) then 1 else 0)
  {
    if s == [] || x <= s[0] {
      assert ([x] + s)[1..] == s;
    } else {
      CountInsert(x, s[1..], p);
      assert ([s[0]] + Insert(x, s[1..], Celsius))[1..] == Insert(x, s[1..], Celsius);
    }
  }

  lemma {:induction false} CountSorted(s: seq<real>, p: real -> bool)
    ensures Count(Sorted(s), p) == Count(s, p)
  {
    if s != [] {
      CountSorted(s[1..], p);
      CountInsert(s[0], Sorted(s[1..]), p);
    }
  }

  lemma {:induction false} CountHead(s: seq<real>, k: nat, p: real -> bool)
    requires k <= |s| && forall i :: k <= i < |s| ==> !p(s[i])
    ensures Count(s, p) <= k
  {
    if s != [] {
      if k > 0 { CountHead(s[1..], k - 1, p); } else { CountHead(s[1..], 0, p); }
    }
  }

  lemma {:induction false} CountTail(s: seq<real>, k: nat, p: real -> bool)
    requires k <= |s| && forall i :: 0 <= i < k ==> !p(s[i])
    ensures Count(s, p) <= |s| - k
  {
    if s != [] { CountTail(s[1..], if k > 0 then k - 1 else 0, p); }
  }

  /** x is the sample of rank k: no more than k samples lie below it, and no more than the rest above. */
  ghost predicate Ranked(s: seq<real>, k: nat, x: real) {
    k < |s| && x in s && Count(s, y => y < x) <= k && Count(s, y => y > x) <= |s| - 1 - k
  }

  lemma SortedIsRanked(s: seq<real>, k: nat)
    requires k < |s|
    ensures Ranked(s, k, Sorted(s)[k])
  {
    SortIsSorting(s, Celsius);
    var r := Sorted(s);
    var x := r[k];
    assert x in multiset(r);
    forall i | k <= i < |r| ensures !(r[i] < x) { assert i == k || Celsius(r[k]) <= Celsius(r[i]); }
    forall i | 0 <= i < k + 1 ensures !(r[i] > x) { assert i == k || Celsius(r[i]) <= Celsius(r[k]); }
    CountHead(r, k, y => y < x);
    CountTail(r, k + 1, y => y > x);
    CountSorted(s, y => y < x);
    CountSorted(s, y => y > x);
  }

  /** The median is the mean of the two samples of middle rank, which are one in a window of odd length. */
  lemma MedianIsMiddle(s: seq<real>) returns (a: real, b: real)
    requires s != []
    ensures Ranked(s, (|s| - 1) / 2, a) && Ranked(s, |s| / 2, b) && 2.0 * Median(s) == a + b
    ensures |s| % 2 == 1 ==> a == b
  {
    a, b := Sorted(s)[(|s| - 1) / 2], Sorted(s)[|s| / 2];
    SortedIsRanked(s, (|s| - 1) / 2);
    SortedIsRanked(s, |s| / 2);
  }

  // ---------------------------------------------------------------- spike filter

  datatype FilterConfig = FilterConfig(window: nat, minTemp: real, maxTemp: real)

  predicate Accepts(c: FilterConfig, val: real) { c.minTemp <= val <= c.maxTemp }

  predicate ValidFilter(c: FilterConfig) { c.window >= 1 }

  function LastOf<T>(s: seq<T>, n: nat): seq<T> { if |s| <= n then s else s[|s| - n..] }

  /** History after one raw reading. */
  function Remember(c: FilterConfig, history: seq<real>, val: real): seq<real> {
    if Accepts(c, val) then LastOf(history + [val], c.window) else history
  }

  /** Filtered value of one raw reading. */
  function Filtered(c: FilterConfig, history: seq<real>, val: real): real
    requires ValidFilter(c)
  {
    if Accepts(c, val) then Median(Remember(c, history, val))
    else if history != [] then history[|history| - 1]
    else Cap(c.minTemp, c.maxTemp, val)
  }

  function InRange(c: FilterConfig, samples: seq<real>): seq<real> {
    if samples == [] then []
    else
      var last := samples[|samples| - 1];
      InRange(c, samples[..|samples| - 1]) + (if c.minTemp <= last <= c.maxTemp then [last] else [])
  }

  function HistoryOf(c: FilterConfig, samples: seq<real>): seq<real> {
    if samples == [] then []
    else Remember(c, HistoryOf(c, samples[..|samples| - 1]), samples[|samples| - 1])
  }

  lemma LastOfAppend<T>(s: seq<T>, x: T, n: nat)
    requires n >= 1
    ensures LastOf(LastOf(s, n) + [x], n) == LastOf(s + [x], n)
  {
  }

  /** The history is always the last window of in-range samples, whatever came in between. */
  lemma {:induction false} HistoryIsLastInRange(c: FilterConfig, samples: seq<real>)
    requires ValidFilter(c)
    ensures var all := InRange(c, samples);
      HistoryOf(c, samples) == if |all| <= c.window then all else all[|all| - c.window..]
    ensures forall x :: x in HistoryOf(c, samples) ==> c.minTemp <= x <= c.maxTemp
  {
    if samples != [] {
      var before, last := samples[..|samples| - 1], samples[|samples| - 1];
      HistoryIsLastInRange(c, before);
      if Accepts(c, last) {
        LastOfAppend(InRange(c, before), last, c.window);
        assert forall x :: x in HistoryOf(c, samples) ==> x in HistoryOf(c, before) + [last];
      }
    }
  }

  lemma {:induction false} AllWithin(s: seq<real>, lo: real, hi: real)
    requires forall x :: x in s ==> lo <= x <= hi
    ensures Within(s, lo, hi) == |s|
  {
    if s != [] {
      assert s[0] in s && forall x :: x in s[1..] ==> x in s;
      AllWithin(s[1..], lo, hi);
    }
  }

  /**
   Over any readings the output stays in the accepted range, and after an in-range reading a
   strict majority of the window in some range carries the output into that range. It is the median
   of the window then; an out-of-range reading gives the last one in range, or the nearest that would be.
   */
  lemma FilterIsSound(c: FilterConfig, samples: seq<real>, val: real, lo: real, hi: real)
    requires ValidFilter(c)
    ensures var before, window := HistoryOf(c, samples), HistoryOf(c, samples + [val]);
      var filtered := Filtered(c, before, val);
      if c.minTemp <= val <= c.maxTemp then
        && window != [] && filtered == Median(window) && c.minTemp <= filtered <= c.maxTemp
        && (2 * Within(window, lo, hi) > |window| ==> lo <= filtered <= hi)
      else if before != [] then filtered == before[|before| - 1] && c.minTemp <= filtered <= c.maxTemp
      else c.minTemp <= c.maxTemp ==> filtered == if val < c.minTemp then c.minTemp else c.maxTemp
  {
    HistoryIsLastInRange(c, samples);
    HistoryIsLastInRange(c, samples + [val]);
    assert (samples + [val])[..|samples|] == samples;
    var window := HistoryOf(c, samples + [val]);
    if Accepts(c, val) {
      assert window == Remember(c, HistoryOf(c, samples), val);
      AllWithin(window, c.minTemp, c.maxTemp);
      MajorityRulesMedian(window, c.minTemp, c.maxTemp);
      if 2 * Within(window, lo, hi) > |window| { MajorityRulesMedian(window, lo, hi); }
    } else if HistoryOf(c, samples) != [] {
      var h := HistoryOf(c, samples);
      assert h[|h| - 1] in h;
    }
  }

  // ---------------------------------------------------------------- guard

  datatype ThermalState = Normal | Warning | ThrottledState | Critical

  datatype Thresholds = Thresholds(warn: real, limit: real, recover: real)

  datatype Notice = TripNotice | RecoveryNotice

  /** The guard with the trip and recovery callbacks it has made so far. */
  datatype Guard = Guard(state: ThermalState, tripped: bool, clamp: real, notices: seq<Notice>)

  const COLD: Guard := Guard(Normal, false, 1.0, [])

  function WarnClamp(t: Thresholds, temp: real): real {
    var width := t.limit - t.warn;
    Cap(0.0, 1.0, (t.limit - temp) / (if width < 0.0001 then 0.0001 else width))
  }

  function Update(g: Guard, t: Thresholds, temp: real): Guard {
    if temp >= t.limit then
      Guard(Critical, true, 0.0, if g.tripped then g.notices else g.notices + [TripNotice])
    else if g.tripped then
      if temp <= t.recover then Guard(Normal, false, 1.0, g.notices + [RecoveryNotice])
      else Guard(ThrottledState, true, 0.0, g.notices)
    else if temp >= t.warn then Guard(Warning, false, WarnClamp(t, temp), g.notices)
    else Guard(Normal, false, 1.0, g.notices)
  }

  /** The duty a clamp allows; nothing while tripped or critical. */
  function DutyClamp(g: Guard, requested: real): real {
    if g.tripped || g.state.Critical? then 0.0
    else if requested * g.clamp < 0.0 then 0.0 else requested * g.clamp
  }

  /** One update of a run: the temperature, and the thresholds in force at that moment. */
  datatype Reading = Reading(temp: real, at: Thresholds)

  function After(g: Guard, rs: seq<Reading>): Guard {
    if rs == [] then g else Update(After(g, rs[..|rs| - 1]), rs[|rs| - 1].at, rs[|rs| - 1].temp)
  }

  predicate Reaches(r: Reading) { r.temp >= r.at.limit }

  predicate Releases(r: Reading) { r.temp < r.at.limit && r.temp <= r.at.recover }

  /** Some reading reached its limit, and none since has released the latch. */
  ghost predicate Latched(rs: seq<Reading>) {
    exists i :: 0 <= i < |rs| && Reaches(rs[i]) && forall j :: i < j < |rs| ==> !Releases(rs[j])
  }

  /** Trips and recoveries alternate, a trip first; a trip is outstanding exactly while tripped. */
  ghost predicate Alternating(g: Guard) {
    && (forall i :: 0 <= i < |g.notices| ==> (g.notices[i] == TripNotice <==> i % 2 == 0))
    && (g.tripped <==> |g.notices| % 2 == 1)
  }

  ghost predicate GuardInv(g: Guard) {
    && Alternating(g)
    && (if g.tripped then g.clamp == 0.0 else 0.0 < g.clamp <= 1.0)
    && (g.state.Critical? || g.state.ThrottledState? <==> g.tripped)
  }

  lemma WarnClampPositive(t: Thresholds, temp: real)
    requires t.warn <= temp < t.limit
    ensures 0.0 < WarnClamp(t, temp) <= 1.0
  {
    var width := t.limit - t.warn;
    var span := if width < 0.0001 then 0.0001 else width;
    QuotientPositive(t.limit - temp, span);
  }

  /**
   Between warning and limit the clamp falls linearly, in proportion to the distance from the limit
   over the width of the zone, or over 0.0001 where the zone is narrower; it never rises with the
   temperature, and is one at the warning threshold exactly where the zone is that wide.
   */
  lemma WarnClampIsLinear(t: Thresholds, temp: real, hotter: real)
    requires t.warn <= temp <= hotter < t.limit
    ensures WarnClamp(t, temp) * Greater(0.0001, t.limit - t.warn) == t.limit - temp
    ensures WarnClamp(t, hotter) <= WarnClamp(t, temp)
    ensures WarnClamp(t, t.warn) == 1.0 <==> t.limit - t.warn >= 0.0001
  {
    var span := Greater(0.0001, t.limit - t.warn);
    Fraction(t.limit - temp, span);
    Fraction(t.limit - hotter, span);
    Fraction(t.limit - t.warn, span);
    ShareGrows(t.limit - hotter, t.limit - temp, span);
  }

  lemma Fraction(x: real, y: real)
    requires 0.0 < x <= y
    ensures 0.0 < x / y <= 1.0 && x / y * y == x && (x == y <==> x / y == 1.0)
  {
    QuotientPositive(x, y);
  }

  lemma ShareGrows(x: real, z: real, y: real)
    requires 0.0 < x <= z && 0.0 < y
    ensures x / y <= z / y
  {
    assert (z / y - x / y) * y == z - x;
  }

  lemma QuotientPositive(x: real, y: real)
    requires x > 0.0 && y > 0.0
    ensures x / y > 0.0
  {
    assert x == (x / y) * y;
  }

  lemma UpdateKeepsInv(g: Guard, t: Thresholds, temp: real)
    requires GuardInv(g)
    ensures GuardInv(Update(g, t, temp))
  {
    if !g.tripped && t.warn <= temp < t.limit { WarnClampPositive(t, temp); }
  }

  /**
   The latch as history: after any readings, with thresholds changing arbitrarily between them,
   the guard is tripped exactly when some reading reached its limit and no later one both stayed
   below its limit and was at or below recovery. The clamp is zero exactly when tripped and in
   (0, 1] otherwise, and trip and recovery callbacks strictly alternate, a trip first.
   */
  lemma {:induction false} LatchIsHistory(rs: seq<Reading>)
    ensures After(COLD, rs).tripped <==> Latched(rs)
    ensures GuardInv(After(COLD, rs))
  {
    if rs != [] {
      var k := |rs| - 1;
      LatchIsHistory(rs[..k]);
      UpdateKeepsInv(After(COLD, rs[..k]), rs[k].at, rs[k].temp);
      LatchedStep(rs);
    }
  }

  lemma LatchedStep(rs: seq<Reading>)
    requires rs != []
    ensures var k := |rs| - 1;
      Latched(rs) <==> Reaches(rs[k]) || (Latched(rs[..k]) && !Releases(rs[k]))
  {
    var k := |rs| - 1;
    if Latched(rs) && !Reaches(rs[k]) {
      var i :| 0 <= i < |rs| && Reaches(rs[i]) && forall j :: i < j < |rs| ==> !Releases(rs[j]);
      assert rs[..k][i] == rs[i];
      assert forall j :: i < j < k ==> rs[..k][j] == rs[j];
    }
    if Latched(rs[..k]) && !Releases(rs[k]) {
      var i :| 0 <= i < k && Reaches(rs[..k][i]) && forall j :: i < j < k ==> !Releases(rs[..k][j]);
      forall j | i < j < |rs| ensures !Releases(rs[j]) {
        if j < k { assert rs[..k][j] == rs[j]; }
      }
      assert Reaches(rs[i]);
    }
  }

  /** The last of some readings released the latch the ones before had set. */
  ghost predicate JustRecovered(rs: seq<Reading>) { rs != [] && Latched(rs[..|rs| - 1]) && !Latched(rs) }

  /** The share of a whole that the distance of a temperature from its limit has of the zone. */
  predicate Shares(share: real, whole: real, last: Reading) {
    share * Greater(0.0001, last.at.limit - last.at.warn) == whole * (last.at.limit - last.temp)
  }

  /** Not latched, at or above warning, and the latch has not just been released. */
  ghost predicate Warned(rs: seq<Reading>) {
    rs != [] && !Latched(rs) && !JustRecovered(rs) && rs[|rs| - 1].temp >= rs[|rs| - 1].at.warn
  }

  /**
   The guard after any readings, from its history and the last one alone. Latched: CRITICAL at or
   above the limit and throttled below it, with no duty allowed. Not latched: at or above warning,
   unless the latch has just been released, WARNING with the distance from the limit shared over the
   width of the zone; otherwise NORMAL with everything allowed.
   */
  lemma GuardIsCurrent(rs: seq<Reading>)
    requires rs != []
    ensures var g := After(COLD, rs); var last := rs[|rs| - 1];
      if Latched(rs) then
        g.clamp == 0.0 && g.state == (if last.temp >= last.at.limit then Critical else ThrottledState)
      else if Warned(rs) then g.state.Warning? && Shares(g.clamp, 1.0, last)
      else g.clamp == 1.0 && g.state.Normal?
  {
    var k := |rs| - 1;
    LatchIsHistory(rs);
    LatchIsHistory(rs[..k]);
    LatchedStep(rs);
    UpdateIsCurrent(After(COLD, rs[..k]), rs[k]);
  }

  lemma UpdateIsCurrent(g: Guard, r: Reading)
    ensures var after := Update(g, r.at, r.temp);
      if r.temp >= r.at.limit then after.clamp == 0.0 && after.state.Critical?
      else if g.tripped then
        if r.temp <= r.at.recover then after.clamp == 1.0 && after.state.Normal?
        else after.clamp == 0.0 && after.state.ThrottledState?
      else if r.temp >= r.at.warn then after.state.Warning? && Shares(after.clamp, 1.0, r)
      else after.clamp == 1.0 && after.state.Normal?
  {
    if r.at.warn <= r.temp < r.at.limit { WarnClampIsLinear(r.at, r.temp, r.temp); }
  }

  /** The duty the guard allows of a requested one, in every state. */
  lemma DutyIsShared(rs: seq<Reading>, requested: real)
    requires rs != [] && requested >= 0.0
    ensures var duty := DutyClamp(After(COLD, rs), requested);
      if Latched(rs) then duty == 0.0
      else if Warned(rs) then Shares(duty, requested, rs[|rs| - 1])
      else duty == requested
  {
    GuardIsCurrent(rs);
    LatchIsHistory(rs);
    AllowedDuty(After(COLD, rs), requested, rs[|rs| - 1]);
  }

  lemma AllowedDuty(g: Guard, requested: real, last: Reading)
    requires requested >= 0.0 && GuardInv(g)
    ensures var duty := DutyClamp(g, requested);
      && (g.tripped ==> duty == 0.0)
      && (!g.tripped && Shares(g.clamp, 1.0, last) ==> Shares(duty, requested, last))
      && (!g.tripped && g.clamp == 1.0 ==> duty == requested)
  {
    if !g.tripped {
      NotNegative(requested, g.clamp);
      SharedOut(requested, g.clamp, Greater(0.0001, last.at.limit - last.at.warn), last.at.limit - last.temp);
    }
  }

  lemma SharedOut(whole: real, share: real, width: real, distance: real)
    ensures share * width == 1.0 * distance ==> whole * share * width == whole * distance
  {
    assert whole * share * width == whole * (share * width);
  }

  /** The clamped duty is zero while tripped, and otherwise positive but never more than requested. */
  lemma DutyClampSafe(rs: seq<Reading>, requested: real)
    ensures var g := After(COLD, rs); var duty := DutyClamp(g, requested);
      && 0.0 <= duty
      && (requested >= 0.0 ==> duty <= requested)
      && (duty == 0.0 <==> g.tripped || requested <= 0.0)
  {
    LatchIsHistory(rs);
    ClampedDuty(After(COLD, rs), requested);
  }

  lemma ClampedDuty(g: Guard, requested: real)
    requires GuardInv(g)
    ensures var duty := DutyClamp(g, requested);
      && 0.0 <= duty
      && (requested >= 0.0 ==> duty <= requested)
      && (duty == 0.0 <==> g.tripped || requested <= 0.0)
  {
    if !g.tripped {
      if requested > 0.0 { ScaleDown(requested, g.clamp); } else { ScaleNegative(requested, g.clamp); }
    }
  }

  lemma ScaleDown(x: real, f: real)
    requires x > 0.0 && 0.0 < f <= 1.0
    ensures 0.0 < x * f <= x
  {
    assert x * f > 0.0;
    assert x - x * f == x * (1.0 - f);
    assert x * (1.0 - f) >= 0.0;
  }

  lemma ScaleNegative(x: real, f: real)
    requires x <= 0.0 && 0.0 < f
    ensures x * f <= 0.0
  {
  }

  // ---------------------------------------------------------------- classes

  class SpikeFilter {
    const config: FilterConfig
    var history: seq<real>

    constructor (window: int, minTemp: real, maxTemp: real)
      ensures ValidFilter(config) && history == []
      ensures config == FilterConfig(if window < 1 then 1 else window, minTemp, maxTemp)
    {
      config := FilterConfig(if window < 1 then 1 else window, minTemp, maxTemp);
      history := [];
    }

    predicate Valid() reads this { ValidFilter(config) && |history| <= config.window }

    method AddSample(val: real) returns (filtered: real)
      requires Valid()
      modifies this
      ensures Valid()
      ensures history == Remember(config, old(history), val)
      ensures filtered == Filtered(config, old(history), val)
    {
      if val < config.minTemp || val > config.maxTemp {
        if history != [] {
          return history[|history| - 1];
        }
        return Cap(config.minTemp, config.maxTemp, val);
      }
      history := history + [val];
      if |history| > config.window {
        history := history[1..];
      }
      return Median(history);
    }
  }

  class ThermalGuard {
    var thresholds: Thresholds
    var state: ThermalState
    var isTripped: bool
    var clampFactor: real
    ghost var notices: seq<Notice>

    constructor (thresholds: Thresholds)
      ensures this.thresholds == thresholds && View() == COLD
    {
      this.thresholds := thresholds;
      state := Normal;
      isTripped := false;
      clampFactor := 1.0;
      notices := [];
    }

    ghost function View(): Guard reads this { Guard(state, isTripped, clampFactor, notices) }

    /** Evaluate a temperature; trip and recovery report whether their callback is invoked. */
    method UpdateState(temp: real) returns (trip: bool, recovery: bool)
      modifies this
      ensures View() == Update(old(View()), thresholds, temp) && thresholds == old(thresholds)
      ensures notices == old(notices) + (if trip then [TripNotice] else if recovery then [RecoveryNotice] else [])
    {
      trip, recovery := false, false;
      if temp >= thresholds.limit {
        trip := !isTripped;
        state := Critical;
        isTripped := true;
        clampFactor := 0.0;
        if trip {
          notices := notices + [TripNotice];
        }
      } else if isTripped {
        if temp <= thresholds.recover {
          isTripped := false;
          state := Normal;
          clampFactor := 1.0;
          recovery := true;
          notices := notices + [RecoveryNotice];
        } else {
          state := ThrottledState;
          clampFactor := 0.0;
        }
      } else if temp >= thresholds.warn {
        state := Warning;
        var width := thresholds.limit - thresholds.warn;
        var span := if width < 0.0001 then 0.0001 else width;
        clampFactor := Cap(0.0, 1.0, (thresholds.limit - temp) / span);
      } else {
        state := Normal;
        clampFactor := 1.0;
      }
    }

    method CalculateDutyClamp(requested: real) returns (duty: real)
      ensures duty == DutyClamp(View(), requested)
    {
      if isTripped || state.Critical? {
        return 0.0;
      }
      var scaled := requested * clampFactor;
      return if scaled < 0.0 then 0.0 else scaled;
    }
  }
}
