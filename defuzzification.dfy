/**
 * Centroid defuzzification of a linguistic variable, on values: each term contributes its
 * breakpoints and its rule-max (a Profile); the aggregated output surface is the maximum of
 * the capped degrees; scan bounds come from the finite outer breakpoints; the centroid is
 * integrated with the trapezoid rule.
 */
module Defuzzification {

  import opened Errors
  import opened Membership

  /** float.MaxValue and float.MinValue, which the scan-bound search uses as sentinels. */
  const FloatMax: real := 340282346638528859811704183484516925440.0
  const FloatMin: real := -340282346638528859811704183484516925440.0

  /** The fewest integration intervals used. */
  const MinIntervals: int := 10

  /** An integral of the surface below this means that no rule applied. */
  const NoAreaBelow: real := 0.00001

  /** What defuzzification needs of one term: its breakpoints and its rule-max. */
  datatype Profile = Profile(shape: Shape, cap: real)

  function CappedAt(p: Profile, x: real): real { p.shape.Capped(x, p.cap) }

  /**
   * The aggregated output surface at x: the highest capped degree over the terms, never
   * below 0 (the fold starts at 0 and keeps a strictly greater value).
   */
  function Envelope(ps: seq<Profile>, x: real): (m: real)
    ensures 0.0 <= m
  {
    if ps == [] then 0.0
    else
      var m := Envelope(ps[..|ps| - 1], x);
      var h := CappedAt(ps[|ps| - 1], x);
      if h > m then h else m
  }

  /** The surface is the maximum of the capped degrees, or 0 when none is positive. */
  lemma {:induction false} EnvelopeIsMax(ps: seq<Profile>, x: real)
    ensures forall i :: 0 <= i < |ps| ==> CappedAt(ps[i], x) <= Envelope(ps, x)
    ensures Envelope(ps, x) == 0.0 || exists i :: 0 <= i < |ps| && Envelope(ps, x) == CappedAt(ps[i], x)
  {
    if ps != [] {
      var init := ps[..|ps| - 1];
      EnvelopeIsMax(init, x);
      assert forall i :: 0 <= i < |init| ==> init[i] == ps[i];
    }
  }

  /** Folding one more profile into the surface. */
  lemma EnvelopeSnoc(ps: seq<Profile>, p: Profile, x: real)
    ensures Envelope(ps + [p], x) == if CappedAt(p, x) > Envelope(ps, x) then CappedAt(p, x) else Envelope(ps, x)
  {
    assert (ps + [p])[..|ps|] == ps;
  }

  /** A left bound candidate: an x1 that is finite and above float.MinValue. */
  predicate LeftCandidate(a: ExtReal) { a.Fin? && FloatMin < a.r }

  /** A right bound candidate: an x4 that is finite and below float.MaxValue. */
  predicate RightCandidate(a: ExtReal) { a.Fin? && a.r < FloatMax }

  /** The left scan bound: the least candidate x1, or float.MaxValue when there is none. */
  function LeftBound(ps: seq<Profile>): (l: real)
    ensures FloatMin < l <= FloatMax
  {
    if ps == [] then FloatMax
    else
      var l := LeftBound(ps[..|ps| - 1]);
      var a := ps[|ps| - 1].shape.x1;
      if Below(FloatMin, a) && Above(l, a) then a.r else l
  }

  /** The right scan bound: the greatest candidate x4, or float.MinValue when there is none. */
  function RightBound(ps: seq<Profile>): (r: real)
    ensures FloatMin <= r < FloatMax
  {
    if ps == [] then FloatMin
    else
      var r := RightBound(ps[..|ps| - 1]);
      var a := ps[|ps| - 1].shape.x4;
      if Above(FloatMax, a) && Below(r, a) then a.r else r
  }

  /** The left bound is the least candidate x1, or float.MaxValue when there is none. */
  lemma {:induction false} LeftBoundIsLeast(ps: seq<Profile>)
    ensures forall i :: 0 <= i < |ps| && LeftCandidate(ps[i].shape.x1) ==> LeftBound(ps) <= ps[i].shape.x1.r
    ensures LeftBound(ps) == FloatMax ||
      exists i :: 0 <= i < |ps| && LeftCandidate(ps[i].shape.x1) && LeftBound(ps) == ps[i].shape.x1.r
  {
    if ps != [] {
      var init := ps[..|ps| - 1];
      LeftBoundIsLeast(init);
      assert forall i :: 0 <= i < |init| ==> init[i] == ps[i];
    }
  }

  /** The right bound is the greatest candidate x4, or float.MinValue when there is none. */
  lemma {:induction false} RightBoundIsGreatest(ps: seq<Profile>)
    ensures forall i :: 0 <= i < |ps| && RightCandidate(ps[i].shape.x4) ==> ps[i].shape.x4.r <= RightBound(ps)
    ensures RightBound(ps) == FloatMin ||
      exists i :: 0 <= i < |ps| && RightCandidate(ps[i].shape.x4) && RightBound(ps) == ps[i].shape.x4.r
  {
    if ps != [] {
      var init := ps[..|ps| - 1];
      RightBoundIsGreatest(init);
      assert forall i :: 0 <= i < |init| ==> init[i] == ps[i];
    }
  }

  /** Folding one more profile into the scan bounds. */
  lemma BoundsSnoc(ps: seq<Profile>, p: Profile)
    ensures LeftBound(ps + [p]) ==
      if Below(FloatMin, p.shape.x1) && Above(LeftBound(ps), p.shape.x1) then p.shape.x1.r else LeftBound(ps)
    ensures RightBound(ps + [p]) ==
      if Above(FloatMax, p.shape.x4) && Below(RightBound(ps), p.shape.x4) then p.shape.x4.r else RightBound(ps)
  {
    assert (ps + [p])[..|ps|] == ps;
  }

  /** The C# cast (int)x: truncation toward zero (integer overflow of the cast is not modelled). */
  function TruncateToInt(x: real): (n: int)
    ensures x >= 0.0 ==> 0 <= n && n as real <= x < n as real + 1.0
    ensures x < 0.0 ==> n <= 0 && n as real - 1.0 < x <= n as real
  {
    if x >= 0.0 then x.Floor else -((-x).Floor)
  }

  /** Math.Max((int)(right - left), 10): one interval per whole unit of range, at least 10. */
  function Intervals(left: real, right: real): (n: int)
    ensures n >= MinIntervals
    ensures right - left >= MinIntervals as real ==> n as real <= right - left < n as real + 1.0
    ensures right - left < MinIntervals as real ==> n == MinIntervals
  {
    var t := TruncateToInt(right - left);
    if t > MinIntervals then t else MinIntervals
  }

  /** The i-th sample point: left moved right by h, i times. */
  function SampleAt(left: real, h: real, i: nat): real
  {
    if i == 0 then left else SampleAt(left, h, i - 1) + h
  }

  /** The running sums of the trapezoid rule: mean heights, and mean heights times their x. */
  datatype Totals = Totals(area: real, moment: real)

  /** One more interval between heights y0 and y1 ending at x: its mean height d adds d and x * d. */
  function AddInterval(s: Totals, y0: real, y1: real, x: real): Totals
  {
    var d := (y0 + y1) / 2.0;
    Totals(s.area + d, s.moment + x * d)
  }

  /** The aggregated surface sampled at x(0), ..., x(n). */
  function Samples(ps: seq<Profile>, left: real, h: real, n: nat): (ys: seq<real>)
    ensures |ys| == n + 1
    ensures forall k :: 0 <= k < |ys| ==> ys[k] >= 0.0
  {
    if n == 0 then [Envelope(ps, left)]
    else Samples(ps, left, h, n - 1) + [Envelope(ps, SampleAt(left, h, n))]
  }

  /**
   * The two trapezoid sums over intervals 1..n of the heights ys at x(0), ..., x(n): the sum of
   * the mean height d of each interval, and the sum of d times the interval's right end point
   * (as the source weights it).
   */
  function Trapezoids(ys: seq<real>, left: real, h: real, n: nat): Totals
    requires n < |ys|
  {
    if n == 0 then Totals(0.0, 0.0)
    else AddInterval(Trapezoids(ys, left, h, n - 1), ys[n - 1], ys[n], SampleAt(left, h, n))
  }

  /**
   * How many samples the source's scan takes: over a non-empty range exactly `n`; over a
   * reversed range none (its loop condition fails at once); over a point range the source
   * never stops (see ScanNeverEndsOnPointRange), and this model takes none.
   */
  function SampleCount(left: real, right: real, n: nat): nat { if left < right then n else 0 }

  /**
   * The private Calculate(left, right, intervals): integrate and take the centroid F2 / F1,
   * or fail when the integral F1 is below 0.00001.
   */
  function Integrate(name: string, ps: seq<Profile>, left: real, right: real, intervals: nat): (r: Result<real>)
    requires intervals == 0 || intervals >= 2
    ensures r.Err? ==> r.error == NoRuleFired(name, left, right)
    ensures left >= right ==> r.Err?
  {
    var n: nat := if intervals == 0 then Intervals(left, right) else intervals;
    var h := (right - left) / (n as real);
    var count := SampleCount(left, right, n);
    var s := Trapezoids(Samples(ps, left, h, count), left, h, count);
    Centroid(name, left, right, h, s.area, s.moment)
  }

  /**
   * From the two sums to the result: the integrals are F1 = h * sumD and F2 = h * sumXD; an
   * F1 below 0.00001 means that no rule fired, otherwise the centroid is F2 / F1.
   */
  function Centroid(name: string, left: real, right: real, h: real, sumD: real, sumXD: real): (r: Result<real>)
    ensures r.Err? <==> sumD * h < NoAreaBelow
    ensures r.Err? ==> r.error == NoRuleFired(name, left, right)
  {
    var f1 := sumD * h;
    var f2 := sumXD * h;
    if f1 < NoAreaBelow then Err(NoRuleFired(name, left, right)) else Ok(f2 / f1)
  }

  /** The public Calculate(): derive the scan bounds and the interval count, then integrate. */
  function Defuzzify(name: string, ps: seq<Profile>): (r: Result<real>)
    ensures r.Err? ==> r.error == NoRuleFired(name, LeftBound(ps), RightBound(ps))
    ensures LeftBound(ps) >= RightBound(ps) ==> r.Err?
  {
    var left := LeftBound(ps);
    var right := RightBound(ps);
    Integrate(name, ps, left, right, Intervals(left, right))
  }


  lemma MulLe(a: real, b: real, c: real)
    requires a <= b && c >= 0.0
    ensures a * c <= b * c
  {
  }

  /** The i-th sample point is left + i*h. */
  lemma {:induction false} SampleIsLinear(left: real, h: real, i: nat)
    ensures SampleAt(left, h, i) == left + (i as real) * h
  {
    if i > 0 {
      SampleIsLinear(left, h, i - 1);
      assert (i as real) * h == ((i - 1) as real) * h + h;
    }
  }

  /** With h >= 0, samples i..n lie in [x(i), x(n)]. */
  lemma {:induction false} SampleWithin(left: real, h: real, i: nat, n: nat)
    requires h >= 0.0 && i <= n
    ensures SampleAt(left, h, i) <= SampleAt(left, h, n)
    decreases n - i
  {
    if i < n {
      SampleWithin(left, h, i + 1, n);
    }
  }

  /** Sample k of the surface is its height at x(k). */
  lemma {:induction false} SamplesAreSurface(ps: seq<Profile>, left: real, h: real, n: nat, k: nat)
    requires k <= n
    ensures Samples(ps, left, h, n)[k] == Envelope(ps, SampleAt(left, h, k))
  {
    if k < n {
      SamplesAreSurface(ps, left, h, n - 1, k);
    }
  }

  /** The sums over the first n intervals depend only on the first n + 1 heights. */
  lemma {:induction false} TrapezoidsPrefix(ys: seq<real>, zs: seq<real>, left: real, h: real, n: nat)
    requires n < |ys| && n < |zs|
    requires forall k :: 0 <= k <= n ==> ys[k] == zs[k]
    ensures Trapezoids(ys, left, h, n) == Trapezoids(zs, left, h, n)
  {
    if n > 0 {
      TrapezoidsPrefix(ys, zs, left, h, n - 1);
    }
  }

  /** One step of the scan loop: one more height y adds the interval ending at x(n + 1). */
  lemma TrapezoidsSnoc(ys: seq<real>, y: real, left: real, h: real, n: nat, sumD: real, sumXD: real, x: real, d: real)
    requires |ys| == n + 1 && x == SampleAt(left, h, n + 1) && d == (ys[n] + y) / 2.0
    requires Totals(sumD, sumXD) == Trapezoids(ys, left, h, n)
    ensures Totals(sumD + d, sumXD + x * d) == Trapezoids(ys + [y], left, h, n + 1)
  {
    TrapezoidsPrefix(ys, ys + [y], left, h, n);
  }

  /**
   * One interval with non-negative heights keeps the bounds: the area stays non-negative and
   * the moment stays between `first` and the new right end point x times the area.
   */
  lemma BoundsStep(s: Totals, y0: real, y1: real, prev: real, first: real, x: real)
    requires y0 >= 0.0 && y1 >= 0.0 && prev <= x && first <= x
    requires s.area >= 0.0 && first * s.area <= s.moment <= prev * s.area
    ensures var t := AddInterval(s, y0, y1, x);
      t.area >= 0.0 && first * t.area <= t.moment <= x * t.area
  {
    var d := (y0 + y1) / 2.0;
    MulLe(prev, x, s.area);
    MulLe(first, x, d);
  }

  /** Over non-negative heights the area sum is non-negative, and the moment sum lies between x(1) and x(n) times it. */
  lemma {:induction false} TrapezoidBounds(ys: seq<real>, left: real, h: real, n: nat)
    requires h >= 0.0 && n < |ys|
    requires forall k :: 0 <= k < |ys| ==> ys[k] >= 0.0
    ensures Trapezoids(ys, left, h, n).area >= 0.0
    ensures SampleAt(left, h, 1) * Trapezoids(ys, left, h, n).area <= Trapezoids(ys, left, h, n).moment
    ensures Trapezoids(ys, left, h, n).moment <= SampleAt(left, h, n) * Trapezoids(ys, left, h, n).area
  {
    if n > 0 {
      TrapezoidBounds(ys, left, h, n - 1);
      SampleWithin(left, h, 1, n);
      BoundsStep(Trapezoids(ys, left, h, n - 1), ys[n - 1], ys[n], SampleAt(left, h, n - 1), SampleAt(left, h, 1), SampleAt(left, h, n));
    }
  }

  /** Over a non-empty range with n intervals, the n-th sample point is the right bound. */
  lemma LastSampleIsRight(left: real, right: real, n: nat)
    requires n >= 1 && left < right
    ensures SampleAt(left, (right - left) / (n as real), n) == right
    ensures (right - left) / (n as real) > 0.0
  {
    var h := (right - left) / (n as real);
    assert h * (n as real) == right - left;
    SampleIsLinear(left, h, n);
  }

  /** A centroid of weights at points in [left + h, right] lies in (left, right]. */
  lemma CentroidWithin(name: string, left: real, right: real, h: real, s0: real, s1: real)
    requires h > 0.0 && (left + h) * s0 <= s1 <= right * s0
    requires Centroid(name, left, right, h, s0, s1).Ok?
    ensures left < Centroid(name, left, right, h, s0, s1).value <= right
  {
    assert s0 * h >= NoAreaBelow;
    assert s0 > 0.0;
    assert (s1 * h) / (s0 * h) == s1 / s0;
    assert s1 / s0 * s0 == s1;
  }

  /** Over [left, right] cut into n intervals, the moment sum lies between (left + h) and right times the area sum. */
  lemma TrapezoidBoundsOnRange(ys: seq<real>, left: real, right: real, n: nat)
    requires n >= 1 && left < right && n < |ys|
    requires forall k :: 0 <= k < |ys| ==> ys[k] >= 0.0
    ensures var h := (right - left) / (n as real);
      var s := Trapezoids(ys, left, h, n);
      h > 0.0 && (left + h) * s.area <= s.moment <= right * s.area
  {
    var h := (right - left) / (n as real);
    LastSampleIsRight(left, right, n);
    TrapezoidBounds(ys, left, h, n);
    assert SampleAt(left, h, 1) == left + h;
  }

  /** A centroid the private Calculate(left, right, intervals) yields lies in (left, right]. */
  lemma IntegrateWithinRange(name: string, ps: seq<Profile>, left: real, right: real, n: nat)
    requires n >= 2 && left < right
    requires Integrate(name, ps, left, right, n).Ok?
    ensures left < Integrate(name, ps, left, right, n).value <= right
  {
    var h := (right - left) / (n as real);
    var ys := Samples(ps, left, h, n);
    TrapezoidBoundsOnRange(ys, left, right, n);
    var s := Trapezoids(ys, left, h, n);
    CentroidWithin(name, left, right, h, s.area, s.moment);
  }

  /** The centroid the public Calculate() yields lies in the scan range: left < c <= right. */
  lemma CentroidWithinScanRange(name: string, ps: seq<Profile>)
    requires Defuzzify(name, ps).Ok?
    ensures LeftBound(ps) < Defuzzify(name, ps).value <= RightBound(ps)
  {
    IntegrateWithinRange(name, ps, LeftBound(ps), RightBound(ps), Intervals(LeftBound(ps), RightBound(ps)));
  }

  /** Where no term carries a positive rule-max, the surface is 0 everywhere. */
  lemma NothingFiredFlat(ps: seq<Profile>, x: real)
    requires forall i :: 0 <= i < |ps| ==> ps[i].cap <= 0.0
    ensures Envelope(ps, x) == 0.0
  {
  }

  /** Where no term carries a positive rule-max, every sample of the surface is 0. */
  lemma {:induction false} FlatSamples(ps: seq<Profile>, left: real, h: real, n: nat)
    requires forall i :: 0 <= i < |ps| ==> ps[i].cap <= 0.0
    ensures forall k :: 0 <= k <= n ==> Samples(ps, left, h, n)[k] == 0.0
  {
    if n == 0 {
      NothingFiredFlat(ps, left);
    } else {
      FlatSamples(ps, left, h, n - 1);
      NothingFiredFlat(ps, SampleAt(left, h, n));
    }
  }

  /** Heights that are all 0 enclose no area and no moment. */
  lemma {:induction false} ZeroHeightsNoArea(ys: seq<real>, left: real, h: real, n: nat)
    requires n < |ys|
    requires forall k :: 0 <= k < |ys| ==> ys[k] == 0.0
    ensures Trapezoids(ys, left, h, n) == Totals(0.0, 0.0)
  {
    if n > 0 {
      ZeroHeightsNoArea(ys, left, h, n - 1);
    }
  }

  /** Fail, not default: if no rule asserted any term, defuzzification raises NoRuleFired. */
  lemma NothingFiredFails(name: string, ps: seq<Profile>)
    requires forall i :: 0 <= i < |ps| ==> ps[i].cap <= 0.0
    ensures Defuzzify(name, ps) == Err(NoRuleFired(name, LeftBound(ps), RightBound(ps)))
  {
    var left, right := LeftBound(ps), RightBound(ps);
    var n: nat := Intervals(left, right);
    var h := (right - left) / (n as real);
    var count := SampleCount(left, right, n);
    FlatSamples(ps, left, h, count);
    ZeroHeightsNoArea(Samples(ps, left, h, count), left, h, count);
  }

  // The scan loop as the source writes it: for (x = left + h; x <= right; x += h).

  /** Iterations of the source's scan loop from x on, in exact arithmetic, if it stops within `fuel`. */
  function ScanIterations(x: real, right: real, h: real, fuel: nat): Option<nat>
    decreases fuel
  {
    if x > right then Some(0)
    else if fuel == 0 then None
    else
      match ScanIterations(x + h, right, h, fuel - 1)
      case Some(k) => Some(k + 1)
      case None => None
  }

  lemma {:induction false} ScanFrom(left: real, right: real, n: nat, k: nat)
    requires n >= 1 && left < right && 1 <= k <= n + 1
    ensures var h := (right - left) / (n as real);
      ScanIterations(SampleAt(left, h, k), right, h, n + 1 - k) == Some(n + 1 - k)
    decreases n + 1 - k
  {
    var h := (right - left) / (n as real);
    LastSampleIsRight(left, right, n);
    if k == n + 1 {
    } else {
      SampleWithin(left, h, k, n);
      ScanFrom(left, right, n, k + 1);
    }
  }

  /** Over a non-empty range the source's loop takes exactly `n` samples, as SampleCount says. */
  lemma ScanTakesIntervals(left: real, right: real, n: nat)
    requires n >= 1 && left < right
    ensures var h := (right - left) / (n as real);
      ScanIterations(left + h, right, h, n) == Some(n)
  {
    ScanFrom(left, right, n, 1);
    assert SampleAt(left, (right - left) / (n as real), 1) == left + (right - left) / (n as real);
  }

  /** Over a reversed range the source's loop takes no sample, as SampleCount says. */
  lemma ScanSkipsReversedRange(left: real, right: real, n: nat)
    requires n >= 2 && left > right
    ensures var h := (right - left) / (n as real);
      ScanIterations(left + h, right, h, 0) == Some(0)
  {
    var h := (right - left) / (n as real);
    assert h * (n as real) == right - left;
    if h >= 0.0 {
      MulLe(0.0, h, n as real);
    }
    MulLe(2.0, n as real, -h);
    assert right - left <= 2.0 * h;
  }

  /** Over a point range (left == right) the step is 0 and the source's loop never stops. */
  lemma {:induction false} ScanNeverEndsOnPointRange(left: real, n: nat, fuel: nat)
    requires n >= 1
    ensures var h := (left - left) / (n as real);
      ScanIterations(left + h, left, h, fuel) == None
  {
    var h := (left - left) / (n as real);
    assert h == 0.0;
    if fuel > 0 {
      ScanNeverEndsOnPointRange(left, n, fuel - 1);
    }
  }

  /**
   * A concrete point range: the breakpoints a two-term variable gets when both its peaks are 5
   * (-inf,5,5,5) and (5,5,5,+inf): both scan bounds are 5, so the source's scan never stops,
   * while the model reports NoRuleFired.
   */
  lemma EqualPeaksScanForever(c0: real, c1: real, fuel: nat)
    ensures var ps := [Profile(Shape(NegInf, Fin(5.0), Fin(5.0), Fin(5.0)), c0),
                       Profile(Shape(Fin(5.0), Fin(5.0), Fin(5.0), PosInf), c1)];
      && LeftBound(ps) == 5.0 && RightBound(ps) == 5.0
      && (var h := (RightBound(ps) - LeftBound(ps)) / (Intervals(LeftBound(ps), RightBound(ps)) as real);
          ScanIterations(LeftBound(ps) + h, RightBound(ps), h, fuel) == None)
      && Defuzzify("v", ps).Err?
  {
    var ps := [Profile(Shape(NegInf, Fin(5.0), Fin(5.0), Fin(5.0)), c0),
               Profile(Shape(Fin(5.0), Fin(5.0), Fin(5.0), PosInf), c1)];
    assert ps[..1][..0] == [];
    assert LeftBound(ps[..1]) == FloatMax;
    assert RightBound(ps[..1]) == 5.0;
    ScanNeverEndsOnPointRange(5.0, Intervals(5.0, 5.0), fuel);
  }
}
