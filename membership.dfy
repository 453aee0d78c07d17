/**
 * The membership function of a fuzzy term: a trapezoid x1 <= x2 <= x3 <= x4 whose
 * outer breakpoints may be infinite (an open-ended category), evaluated at a crisp value.
 * Also the four threshold predicates that turn a degree back into boolean logic.
 */
module Membership {

  import opened Errors

  /** A breakpoint: a finite real or one of the two infinities of the float type. */
  datatype ExtReal = NegInf | Fin(r: real) | PosInf

  /** a <= b in the extended order. */
  predicate Le(a: ExtReal, b: ExtReal) {
    a.NegInf? || b.PosInf? || (a.Fin? && b.Fin? && a.r <= b.r)
  }

  /** v < a */
  predicate Below(v: real, a: ExtReal) { a.PosInf? || (a.Fin? && v < a.r) }

  /** v <= a */
  predicate AtMost(v: real, a: ExtReal) { a.PosInf? || (a.Fin? && v <= a.r) }

  /** v > a */
  predicate Above(v: real, a: ExtReal) { a.NegInf? || (a.Fin? && v > a.r) }

  /** v >= a */
  predicate AtLeast(v: real, a: ExtReal) { a.NegInf? || (a.Fin? && v >= a.r) }

  function Min(a: real, b: real): real { if a <= b then a else b }

  /** The four breakpoints of a term. */
  datatype Shape = Shape(x1: ExtReal, x2: ExtReal, x3: ExtReal, x4: ExtReal) {

    /** The condition the term constructor enforces. */
    predicate Ordered() { Le(x1, x2) && Le(x2, x3) && Le(x3, x4) }

    /** Neither ramp runs towards an infinity from a finite end (such a ramp evaluates to 0 in float). */
    predicate Proper() {
      !(x1.Fin? && x2.PosInf?) && !(x3.NegInf? && x4.Fin?)
    }

    predicate Outside(v: real) { AtMost(v, x1) || AtLeast(v, x4) }

    predicate OnPlateau(v: real) { AtLeast(v, x2) && AtMost(v, x3) }

    /** The rising ramp on (x1, x2); 1 when x1 is -infinity or the ramp is vertical. */
    function Rise(v: real): real
      requires Above(v, x1) && Below(v, x2)
    {
      if x1.NegInf? || x2 == x1 then 1.0
      else if x2.Fin? then (v - x1.r) / (x2.r - x1.r)
      else 0.0  // a finite value divided by an infinite width
    }

    /** The falling ramp on (x3, x4); 1 when x4 is +infinity or the ramp is vertical. */
    function Fall(v: real): real
      requires Above(v, x3) && Below(v, x4)
    {
      if x4.PosInf? || x4 == x3 then 1.0
      else if x3.Fin? then (x4.r - v) / (x4.r - x3.r)
      else 0.0
    }

    /** The degree of membership of v: 0 outside the support, 1 on the plateau, linear in between. */
    function Degree(v: real): (d: real)
      ensures 0.0 <= d <= 1.0
      ensures Outside(v) ==> d == 0.0
      ensures !Outside(v) && OnPlateau(v) ==> d == 1.0
    {
      if Outside(v) then 0.0
      else if OnPlateau(v) then 1.0
      else if Below(v, x2) then
        RiseIsGrade(v);
        Rise(v)
      else
        FallIsGrade(v);
        Fall(v)
    }

    lemma RiseIsGrade(v: real)
      requires Above(v, x1) && Below(v, x2)
      ensures 0.0 <= Rise(v) <= 1.0
    {
      if !x1.NegInf? && x2 != x1 && x2.Fin? {
        var num, den := v - x1.r, x2.r - x1.r;
        assert 0.0 < num < den;
        DivIsGrade(num, den);
      }
    }

    lemma FallIsGrade(v: real)
      requires Above(v, x3) && Below(v, x4)
      ensures 0.0 <= Fall(v) <= 1.0
    {
      if !x4.PosInf? && x4 != x3 && x3.Fin? {
        var num, den := x4.r - v, x4.r - x3.r;
        assert 0.0 < num < den;
        DivIsGrade(num, den);
      }
    }

    /**
     * The degree capped by the strength some rule asserted for this term (its rule-max);
     * 0 outside the support whatever the cap.
     */
    function Capped(v: real, cap: real): (d: real)
      ensures d <= Degree(v)
      ensures cap >= 0.0 ==> 0.0 <= d <= cap && d == Min(Degree(v), cap)
      ensures cap <= 0.0 ==> d <= 0.0
    {
      if Outside(v) then 0.0 else Min(Degree(v), cap)
    }

    /**
     * The first finite breakpoint, if any (the source yields NaN when there is none); for an
     * ordered term it is the least finite breakpoint.
     */
    function MinX(): (r: Option<real>)
      ensures r.None? <==> !x1.Fin? && !x2.Fin? && !x3.Fin? && !x4.Fin?
      ensures r.Some? ==> Fin(r.value) in [x1, x2, x3, x4]
      ensures r.Some? && Ordered() ==>
        (x1.Fin? ==> r.value <= x1.r) && (x2.Fin? ==> r.value <= x2.r) &&
        (x3.Fin? ==> r.value <= x3.r) && (x4.Fin? ==> r.value <= x4.r)
    {
      if x1.Fin? then Some(x1.r)
      else if x2.Fin? then Some(x2.r)
      else if x3.Fin? then Some(x3.r)
      else if x4.Fin? then Some(x4.r)
      else None
    }

    /** The last finite breakpoint, if any; for an ordered term the greatest finite one. */
    function MaxX(): (r: Option<real>)
      ensures r.None? <==> !x1.Fin? && !x2.Fin? && !x3.Fin? && !x4.Fin?
      ensures r.Some? ==> Fin(r.value) in [x1, x2, x3, x4]
      ensures r.Some? && Ordered() ==>
        (x1.Fin? ==> x1.r <= r.value) && (x2.Fin? ==> x2.r <= r.value) &&
        (x3.Fin? ==> x3.r <= r.value) && (x4.Fin? ==> x4.r <= r.value)
    {
      if x4.Fin? then Some(x4.r)
      else if x3.Fin? then Some(x3.r)
      else if x2.Fin? then Some(x2.r)
      else if x1.Fin? then Some(x1.r)
      else None
    }
  }

  lemma DivIsGrade(num: real, den: real)
    requires 0.0 < num <= den
    ensures 0.0 < num / den <= 1.0
  {
    assert num / den * den == num;
  }

  /** The ramp quotient grows with its numerator. */
  lemma DivMonotone(a: real, b: real, den: real)
    requires a <= b && den > 0.0
    ensures a / den <= b / den
  {
    assert a / den * den == a;
    assert b / den * den == b;
  }

  /** On the rising side, up to the start of the plateau, the degree never decreases. */
  lemma {:induction false} RisingSideMonotone(s: Shape, v: real, w: real)
    requires s.Ordered()
    requires v <= w && AtMost(w, s.x2) && Below(w, s.x4)
    ensures s.Degree(v) <= s.Degree(w)
  {
    if s.Outside(v) || s.OnPlateau(w) {
    } else {
      assert !s.Outside(w);
      assert Below(w, s.x2);
      assert Above(v, s.x1) && Below(v, s.x2);
      if !s.x1.NegInf? && s.x2 != s.x1 && s.x2.Fin? {
        DivMonotone(v - s.x1.r, w - s.x1.r, s.x2.r - s.x1.r);
      }
    }
  }

  /** On the falling side, from the end of the plateau on, the degree never increases. */
  lemma {:induction false} FallingSideMonotone(s: Shape, v: real, w: real)
    requires s.Ordered()
    requires v <= w && AtLeast(v, s.x3) && Above(v, s.x1)
    ensures s.Degree(v) >= s.Degree(w)
  {
    if s.Outside(w) || s.OnPlateau(v) {
    } else {
      assert !s.Outside(v);
      assert Above(v, s.x3);
      assert Above(w, s.x3) && Below(w, s.x4);
      if !s.x4.PosInf? && s.x4 != s.x3 && s.x3.Fin? {
        DivMonotone(s.x4.r - w, s.x4.r - v, s.x4.r - s.x3.r);
      }
    }
  }

  /** For a proper ordered term, the degree is positive exactly strictly inside (x1, x4). */
  lemma {:induction false} PositiveExactlyInsideSupport(s: Shape, v: real)
    requires s.Ordered() && s.Proper()
    ensures s.Degree(v) > 0.0 <==> !s.Outside(v)
  {
    if !s.Outside(v) && !s.OnPlateau(v) {
      if Below(v, s.x2) {
        if !s.x1.NegInf? && s.x2 != s.x1 {
          assert s.x2.Fin?;
          DivIsGrade(v - s.x1.r, s.x2.r - s.x1.r);
        }
      } else {
        if !s.x4.PosInf? && s.x4 != s.x3 {
          assert s.x3.Fin?;
          DivIsGrade(s.x4.r - v, s.x4.r - s.x3.r);
        }
      }
    }
  }

  /** For an ordered term, the first finite breakpoint never lies right of the last one. */
  lemma MinXAtMostMaxX(s: Shape)
    requires s.Ordered() && s.MinX().Some?
    ensures s.MaxX().Some? && s.MinX().value <= s.MaxX().value
  {
  }

  // Converting a degree to boolean logic: four threshold bands.

  const TotallyFrom: real := 0.685
  const RatherFrom: real := 0.64
  const NotReallyAbove: real := 0.55

  predicate Totally(d: real) { d >= TotallyFrom }
  predicate Rather(d: real) { RatherFrom <= d < TotallyFrom }
  predicate NotReally(d: real) { NotReallyAbove < d < RatherFrom }
  predicate NotAtAll(d: real) { d <= NotReallyAbove }

  datatype Grade = TotallyGrade | RatherGrade | NotReallyGrade | NotAtAllGrade

  /** The band a degree falls into; exactly one predicate holds for every degree. */
  function Classify(d: real): (g: Grade)
    ensures (g == TotallyGrade) == Totally(d)
    ensures (g == RatherGrade) == Rather(d)
    ensures (g == NotReallyGrade) == NotReally(d)
    ensures (g == NotAtAllGrade) == NotAtAll(d)
  {
    if d >= TotallyFrom then TotallyGrade
    else if d >= RatherFrom then RatherGrade
    else if d > NotReallyAbove then NotReallyGrade
    else NotAtAllGrade
  }
}
