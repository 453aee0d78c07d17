/**
 * Fuzzy terms and linguistic variables as objects: a term belongs to a variable, reads the
 * variable's crisp value to compute its degree, and accumulates the strength rules assert for
 * it in its rule-max; a variable owns a table of named terms and is defuzzified into its value.
 */
module Variables {

  import opened Errors
  import opened Membership
  import opened Defuzzification

  /** The rule-max update: keep the larger of the current rule-max and the new strength. */
  function Raise(current: real, strength: real): (r: real)
    ensures r >= current && r >= strength
    ensures r == current || r == strength
  {
    if current <= strength then strength else current
  }

  /** A fuzzy term: four breakpoints, the variable it belongs to, and its rule-max. */
  class Term {
    const owner: Linguistic
    const name: string
    const x1: ExtReal
    const x2: ExtReal
    const x3: ExtReal
    const x4: ExtReal
    var ruleMax: real

    function Shape(): Shape { Membership.Shape(x1, x2, x3, x4) }

    /** The degree of the owning variable's current value (the parameterless Value()). */
    function Degree(): real
      reads owner
    {
      Shape().Degree(owner.value)
    }

    /** The degree at x capped by the rule-max (Value(float)). */
    function CappedValue(x: real): real
      reads this
    {
      Shape().Capped(x, ruleMax)
    }

    /** What defuzzification needs of this term. */
    function Profile(): Profile
      reads this
    {
      Defuzzification.Profile(Shape(), ruleMax)
    }

    constructor (owner: Linguistic, name: string, x1: ExtReal, x2: ExtReal, x3: ExtReal, x4: ExtReal)
      ensures this.owner == owner && this.name == name
      ensures Shape() == Membership.Shape(x1, x2, x3, x4)
      ensures ruleMax == 0.0
    {
      this.owner := owner;
      this.name := name;
      this.x1, this.x2, this.x3, this.x4 := x1, x2, x3, x4;
      ruleMax := 0.0;
    }

    /** The 4-point constructor: refuses breakpoints that are not ordered. */
    static method Create(owner: Linguistic, name: string, x1: ExtReal, x2: ExtReal, x3: ExtReal, x4: ExtReal)
      returns (r: Result<Term>)
      ensures r.Ok? <==> Membership.Shape(x1, x2, x3, x4).Ordered()
      ensures r.Err? ==> r.error == InvalidTermDefinition
      ensures r.Ok? ==> fresh(r.value) && r.value.owner == owner && r.value.name == name
      ensures r.Ok? ==> r.value.Shape() == Membership.Shape(x1, x2, x3, x4) && r.value.ruleMax == 0.0
    {
      if !(Le(x1, x2) && Le(x2, x3) && Le(x3, x4)) {
        return Err(InvalidTermDefinition);
      }
      var t := new Term(owner, name, x1, x2, x3, x4);
      return Ok(t);
    }

    /** The 3-point constructor: the 4-point term whose plateau is the single point x2. */
    static method CreateTriangle(owner: Linguistic, name: string, x1: ExtReal, x2: ExtReal, x3: ExtReal)
      returns (r: Result<Term>)
      ensures r.Ok? <==> Le(x1, x2) && Le(x2, x3)
      ensures r.Err? ==> r.error == InvalidTermDefinition
      ensures r.Ok? ==> fresh(r.value) && r.value.owner == owner && r.value.name == name
      ensures r.Ok? ==> r.value.Shape() == Membership.Shape(x1, x2, x2, x3) && r.value.ruleMax == 0.0
    {
      r := Create(owner, name, x1, x2, x2, x3);
    }

    /** Raise the rule-max to `strength` if that is not lower. */
    method SetRuleMax(strength: real)
      modifies this
      ensures ruleMax == Raise(old(ruleMax), strength)
    {
      if ruleMax <= strength {
        ruleMax := strength;
      }
    }

    method ResetRuleMax()
      modifies this
      ensures ruleMax == 0.0
    {
      ruleMax := 0.0;
    }
  }

  /** A term's degree at its own peak is 1 unless the peak coincides with an outer breakpoint. */
  lemma TrianglePeak(x1: ExtReal, p: real, x3: ExtReal)
    requires Le(x1, Fin(p)) && Le(Fin(p), x3)
    requires x1 != Fin(p) && x3 != Fin(p)
    ensures Membership.Shape(x1, Fin(p), Fin(p), x3).Degree(p) == 1.0
  {
  }

  /** A term whose peak is its left foot has degree 0 there: the 0 test comes first. */
  lemma LeftFootPeak(p: real, x3: ExtReal)
    requires Le(Fin(p), x3)
    ensures Membership.Shape(Fin(p), Fin(p), Fin(p), x3).Degree(p) == 0.0
  {
  }

  /**
   * The term table of a variable (its private dictionary), as a value: the names in
   * insertion order, which is the order the dictionary enumerates them in, and the terms.
   */
  datatype Table = Table(keys: seq<string>, entries: map<string, Term>) {

    /** The names are distinct and are exactly the names in the map. */
    ghost predicate Valid() {
      (forall i, j :: 0 <= i < j < |keys| ==> keys[i] != keys[j]) &&
      (forall k :: k in keys ==> k in entries) &&
      (forall k :: k in entries ==> k in keys)
    }

    /** Store t under k, replacing any term there; a new name goes to the end of the order. */
    function Put(k: string, t: Term): Table {
      Table(if k in entries then keys else keys + [k], entries[k := t])
    }

    /** The breakpoints of every term, by name. */
    function ShapeMap(): map<string, Shape> {
      map k | k in entries :: entries[k].Shape()
    }

    /** The profiles of the first n terms in enumeration order. */
    function ProfilesUpTo(n: nat): seq<Profile>
      requires Valid() && n <= |keys|
      reads entries.Values
    {
      if n == 0 then [] else ProfilesUpTo(n - 1) + [entries[keys[n - 1]].Profile()]
    }

    /** The profiles of all terms in enumeration order. */
    function Profiles(): seq<Profile>
      requires Valid()
      reads entries.Values
    {
      ProfilesUpTo(|keys|)
    }
  }

  /** Storing a term keeps the table well formed, maps k to t and keeps every other entry. */
  lemma PutKeepsValid(tb: Table, k: string, t: Term)
    requires tb.Valid()
    ensures tb.Put(k, t).Valid()
    ensures k in tb.Put(k, t).entries && tb.Put(k, t).entries[k] == t
    ensures forall j :: j in tb.entries && j != k ==> j in tb.Put(k, t).entries && tb.Put(k, t).entries[j] == tb.entries[j]
    ensures |tb.Put(k, t).keys| == if k in tb.entries then |tb.keys| else |tb.keys| + 1
  {
    var r := tb.Put(k, t);
    if k !in tb.entries {
      forall i, j | 0 <= i < j < |r.keys|
        ensures r.keys[i] != r.keys[j]
      {
        if j == |tb.keys| {
          assert r.keys[i] == tb.keys[i] && tb.keys[i] in tb.entries;
        }
      }
    }
  }

  /** Storing a term changes the shape map at k alone. */
  lemma PutShapes(tb: Table, after: Table, k: string, t: Term)
    requires after.entries == tb.entries[k := t]
    ensures after.ShapeMap() == tb.ShapeMap()[k := t.Shape()]
  {
  }

  lemma {:induction false} ProfilesUpToLength(tb: Table, n: nat)
    requires tb.Valid() && n <= |tb.keys|
    ensures |tb.ProfilesUpTo(n)| == n
    ensures forall i :: 0 <= i < n ==> tb.ProfilesUpTo(n)[i] == tb.entries[tb.keys[i]].Profile()
  {
    if n > 0 {
      ProfilesUpToLength(tb, n - 1);
    }
  }

  /** A linguistic variable: a named crisp value and its table of terms. */
  class Linguistic {
    const name: string
    var value: real
    var terms: Table

    /** A variable with no terms and value 0. */
    constructor (name: string)
      ensures this.name == name && value == 0.0 && terms == Table([], map[])
    {
      this.name := name;
      value := 0.0;
      terms := Table([], map[]);
    }

    /**
     * Every term belongs to this variable, is stored under its own name and has not been fired
     * into yet: the state the constructors with a term layout leave.
     */
    ghost predicate Pristine()
      reads this, terms.entries.Values
    {
      forall k :: k in terms.entries ==>
        terms.entries[k].owner == this && terms.entries[k].name == k && terms.entries[k].ruleMax == 0.0
    }

    /** The term under termName (the indexer's getter). */
    function Lookup(termName: string): (r: Result<Term>)
      reads this
      ensures r.Ok? <==> termName in terms.entries
      ensures r.Ok? ==> r.value == terms.entries[termName]
      ensures r.Err? ==> r.error == KeyNotFound(termName)
    {
      if termName in terms.entries then Ok(terms.entries[termName]) else Err(KeyNotFound(termName))
    }

    /** The term under termName; the error names the variable too. */
    function FindTerm(termName: string): (r: Result<Term>)
      reads this
      ensures r.Ok? <==> termName in terms.entries
      ensures r.Ok? ==> r.value == terms.entries[termName]
      ensures r.Err? ==> r.error == KeyNotFound(name + "." + termName)
    {
      if termName !in terms.entries then Err(KeyNotFound(name + "." + termName)) else Ok(terms.entries[termName])
    }

    /** Store a term under termName (the indexer's setter); the term may belong to any variable. */
    method SetTerm(termName: string, t: Term)
      requires terms.Valid()
      modifies this
      ensures terms == old(terms).Put(termName, t) && terms.Valid()
      ensures value == old(value)
    {
      PutKeepsValid(terms, termName, t);
      terms := terms.Put(termName, t);
    }

    /** Add or replace a 4-point term; nothing changes when its breakpoints are not ordered. */
    method Add(termName: string, x1: ExtReal, x2: ExtReal, x3: ExtReal, x4: ExtReal) returns (o: Outcome)
      requires terms.Valid()
      modifies this
      ensures terms.Valid() && value == old(value)
      ensures o.Pass? <==> Membership.Shape(x1, x2, x3, x4).Ordered()
      ensures o.Fail? ==> o.error == InvalidTermDefinition && terms == old(terms)
      ensures o.Pass? ==> termName in terms.entries && fresh(terms.entries[termName])
      ensures o.Pass? ==> terms.entries == old(terms.entries)[termName := terms.entries[termName]]
      ensures o.Pass? ==> terms.entries[termName].Shape() == Membership.Shape(x1, x2, x3, x4)
      ensures o.Pass? ==> terms.ShapeMap() == old(terms.ShapeMap())[termName := Membership.Shape(x1, x2, x3, x4)]
      ensures o.Pass? ==> terms.entries[termName].owner == this && terms.entries[termName].name == termName
      ensures o.Pass? ==> terms.entries[termName].ruleMax == 0.0
      ensures old(Pristine()) ==> Pristine()
    {
      var r := Term.Create(this, termName, x1, x2, x3, x4);
      if r.Err? {
        return Fail(r.error);
      }
      ghost var before := terms;
      SetTerm(termName, r.value);
      PutShapes(before, terms, termName, r.value);
      o := Pass;
    }

    /** Add or replace a 3-point term: the 4-point term (x1, x2, x2, x3). */
    method AddTriangle(termName: string, x1: ExtReal, x2: ExtReal, x3: ExtReal) returns (o: Outcome)
      requires terms.Valid()
      modifies this
      ensures terms.Valid() && value == old(value)
      ensures o.Pass? <==> Membership.Shape(x1, x2, x2, x3).Ordered()
      ensures o.Fail? ==> o.error == InvalidTermDefinition && terms == old(terms)
      ensures o.Pass? ==> termName in terms.entries && fresh(terms.entries[termName])
      ensures o.Pass? ==> terms.entries == old(terms.entries)[termName := terms.entries[termName]]
      ensures o.Pass? ==> terms.entries[termName].Shape() == Membership.Shape(x1, x2, x2, x3)
      ensures o.Pass? ==> terms.ShapeMap() == old(terms.ShapeMap())[termName := Membership.Shape(x1, x2, x2, x3)]
      ensures o.Pass? ==> terms.entries[termName].owner == this && terms.entries[termName].name == termName
      ensures o.Pass? ==> terms.entries[termName].ruleMax == 0.0
      ensures old(Pristine()) ==> Pristine()
    {
      var r := Term.CreateTriangle(this, termName, x1, x2, x3);
      if r.Err? {
        return Fail(r.error);
      }
      ghost var before := terms;
      SetTerm(termName, r.value);
      PutShapes(before, terms, termName, r.value);
      o := Pass;
    }

    /** The aggregated output surface at x: the highest capped degree of any term, at least 0. */
    method Fmax(x: real) returns (m: real)
      requires terms.Valid()
      ensures m == Envelope(terms.Profiles(), x)
    {
      m := 0.0;
      var i := 0;
      while i < |terms.keys|
        invariant 0 <= i <= |terms.keys|
        invariant m == Envelope(terms.ProfilesUpTo(i), x)
      {
        var t := terms.entries[terms.keys[i]];
        var h := t.CappedValue(x);
        EnvelopeSnoc(terms.ProfilesUpTo(i), t.Profile(), x);
        if h > m {
          m := h;
        }
        i := i + 1;
      }
    }

    /** Set every term's rule-max back to 0. */
    method ResetTerms()
      requires terms.Valid()
      modifies terms.entries.Values
      ensures forall k :: k in terms.entries ==> terms.entries[k].ruleMax == 0.0
    {
      var i := 0;
      while i < |terms.keys|
        invariant 0 <= i <= |terms.keys|
        invariant forall j :: 0 <= j < i ==> terms.entries[terms.keys[j]].ruleMax == 0.0
      {
        terms.entries[terms.keys[i]].ResetRuleMax();
        i := i + 1;
      }
    }

    /** The scan bounds: the least x1 above float.MinValue and the greatest x4 below float.MaxValue. */
    method ScanBounds() returns (left: real, right: real)
      requires terms.Valid()
      ensures left == LeftBound(terms.Profiles()) && right == RightBound(terms.Profiles())
    {
      left, right := FloatMax, FloatMin;
      var i := 0;
      while i < |terms.keys|
        invariant 0 <= i <= |terms.keys|
        invariant left == LeftBound(terms.ProfilesUpTo(i))
        invariant right == RightBound(terms.ProfilesUpTo(i))
      {
        var t := terms.entries[terms.keys[i]];
        BoundsSnoc(terms.ProfilesUpTo(i), t.Profile());
        if Below(FloatMin, t.x1) && Above(left, t.x1) {
          left := t.x1.r;
        }
        if Above(FloatMax, t.x4) && Below(right, t.x4) {
          right := t.x4.r;
        }
        i := i + 1;
      }
    }

    /**
     * The sample loop: evaluate the surface at left, left + h, ..., left + count * h and
     * accumulate the trapezoid sums of the surface and of x times the surface.
     */
    method SampleSums(left: real, h: real, count: nat) returns (sumD: real, sumXD: real)
      requires terms.Valid()
      ensures Totals(sumD, sumXD) == Trapezoids(Samples(terms.Profiles(), left, h, count), left, h, count)
    {
      var f1 := Fmax(left);
      sumD, sumXD := 0.0, 0.0;
      var x := left + h;
      var i := 0;
      ghost var ys := [f1];
      while i < count
        invariant i <= count
        invariant x == SampleAt(left, h, i + 1)
        invariant ys == Samples(terms.Profiles(), left, h, i)
        invariant f1 == ys[i]
        invariant Totals(sumD, sumXD) == Trapezoids(ys, left, h, i)
      {
        var f2 := Fmax(x);
        var d := (f1 + f2) / 2.0;
        TrapezoidsSnoc(ys, f2, left, h, i, sumD, sumXD, x, d);
        sumD := sumD + d;
        sumXD := sumXD + x * d;
        ys := ys + [f2];
        f1 := f2;
        x := x + h;
        i := i + 1;
      }
    }

    /**
     * Integrate between left and right over `intervals` intervals (0 meaning the default
     * count), then take the centroid F2 / F1, failing when F1 is below 0.00001.
     */
    method CalculateBetween(left: real, right: real, intervals: nat) returns (r: Result<real>)
      requires terms.Valid()
      requires intervals == 0 || intervals >= 2
      ensures r == Integrate(name, terms.Profiles(), left, right, intervals)
    {
      var n: nat := if intervals == 0 then Intervals(left, right) else intervals;
      var h := (right - left) / (n as real);
      var sumD, sumXD := SampleSums(left, h, SampleCount(left, right, n));
      // F1 = h * sumD and F2 = h * sumXD; too little area fails, otherwise the centroid F2 / F1.
      r := Centroid(name, left, right, h, sumD, sumXD);
    }

    /** Defuzzify: find the scan bounds, integrate, and store the centroid as the value on success. */
    method Calculate() returns (r: Result<real>)
      requires terms.Valid()
      modifies this
      ensures terms == old(terms)
      ensures r == Defuzzify(name, terms.Profiles())
      ensures r.Ok? ==> value == r.value
      ensures r.Err? ==> value == old(value)
    {
      var left, right := ScanBounds();
      r := CalculateBetween(left, right, Intervals(left, right));
      if r.Ok? {
        value := r.value;
      }
    }

    /** The degree of the named term at its variable's value; the name must exist. */
    function TermDegree(termName: string): (r: Result<real>)
      reads this, set t | t in terms.entries.Values :: t.owner
      ensures r.Ok? <==> termName in terms.entries
      ensures r.Ok? ==> 0.0 <= r.value <= 1.0
    {
      match Lookup(termName)
      case Ok(t) => Ok(t.Degree())
      case Err(e) => Err(e)
    }

    function IsTotally(termName: string): (r: Result<bool>)
      reads this, set t | t in terms.entries.Values :: t.owner
      ensures r.Ok? <==> termName in terms.entries
      ensures r.Ok? ==> r.value == (TermDegree(termName).value >= TotallyFrom)
    {
      match TermDegree(termName)
      case Ok(d) => Ok(Totally(d))
      case Err(e) => Err(e)
    }

    function IsRather(termName: string): (r: Result<bool>)
      reads this, set t | t in terms.entries.Values :: t.owner
      ensures r.Ok? <==> termName in terms.entries
      ensures r.Ok? ==> r.value == (RatherFrom <= TermDegree(termName).value < TotallyFrom)
    {
      match TermDegree(termName)
      case Ok(d) => Ok(Rather(d))
      case Err(e) => Err(e)
    }

    function IsNotReally(termName: string): (r: Result<bool>)
      reads this, set t | t in terms.entries.Values :: t.owner
      ensures r.Ok? <==> termName in terms.entries
      ensures r.Ok? ==> r.value == (NotReallyAbove < TermDegree(termName).value < RatherFrom)
    {
      match TermDegree(termName)
      case Ok(d) => Ok(NotReally(d))
      case Err(e) => Err(e)
    }

    function IsNotAtAll(termName: string): (r: Result<bool>)
      reads this, set t | t in terms.entries.Values :: t.owner
      ensures r.Ok? <==> termName in terms.entries
      ensures r.Ok? ==> r.value == (TermDegree(termName).value <= NotReallyAbove)
    {
      match TermDegree(termName)
      case Ok(d) => Ok(NotAtAll(d))
      case Err(e) => Err(e)
    }

    /** For an existing term exactly one of the four verdicts is true; for a missing one all four fail. */
    lemma VerdictsPartition(termName: string)
      ensures termName in terms.entries ==>
        var a, b, c, d := IsTotally(termName).value, IsRather(termName).value,
                          IsNotReally(termName).value, IsNotAtAll(termName).value;
        (a || b || c || d) && !(a && b) && !(a && c) && !(a && d) && !(b && c) && !(b && d) && !(c && d)
      ensures termName !in terms.entries ==>
        IsTotally(termName) == Err(KeyNotFound(termName)) && IsRather(termName) == Err(KeyNotFound(termName)) &&
        IsNotReally(termName) == Err(KeyNotFound(termName)) && IsNotAtAll(termName) == Err(KeyNotFound(termName))
    {
      if termName in terms.entries {
        var g := Classify(TermDegree(termName).value);
      }
    }

    /** A variable with two terms: a falling one peaking at max0 and a rising one peaking at max1. */
    static method TwoTerms(name: string, term0: string, term1: string, max0: real, max1: real)
      returns (r: Result<Linguistic>)
      ensures r.Ok? <==> TwoTermsFit(max0, max1)
      ensures r.Err? ==> r.error == InvalidTermDefinition
      ensures r.Ok? ==> fresh(r.value) && r.value.terms.Valid()
      ensures r.Ok? ==> r.value.name == name && r.value.value == 0.0
      ensures r.Ok? ==> r.value.Pristine()
      ensures r.Ok? ==> forall k :: k in r.value.terms.entries ==> fresh(r.value.terms.entries[k])
      ensures r.Ok? ==> (r.value.terms.ShapeMap() ==
        map[term0 := LeftShoulder(max0, max1)]
           [term1 := RightShoulder(max0, max1)])
    {
      var l := new Linguistic(name);
      var o := l.AddTriangle(term0, NegInf, Fin(max0), Fin(max1));
      if o.Pass? { o := l.AddTriangle(term1, Fin(max0), Fin(max1), PosInf); }
      r := if o.Pass? then Ok(l) else Err(o.error);
    }

    /** A variable with three terms; the middle one is a trapezoid on [max11, max12]. */
    static method ThreeTerms(name: string, term0: string, term1: string, term2: string,
                             max0: real, max11: real, max12: real, max2: real)
      returns (r: Result<Linguistic>)
      ensures r.Ok? <==> ThreeTermsFit(max0, max11, max12, max2)
      ensures r.Err? ==> r.error == InvalidTermDefinition
      ensures r.Ok? ==> fresh(r.value) && r.value.terms.Valid()
      ensures r.Ok? ==> r.value.name == name && r.value.value == 0.0
      ensures r.Ok? ==> r.value.Pristine()
      ensures r.Ok? ==> forall k :: k in r.value.terms.entries ==> fresh(r.value.terms.entries[k])
      ensures r.Ok? ==> (r.value.terms.ShapeMap() ==
        map[term0 := LeftShoulder(max0, max12)]
           [term1 := Trapezoid(max0, max11, max12, max2)]
           [term2 := RightShoulder(max11, max2)])
    {
      var l := new Linguistic(name);
      var o := l.AddTriangle(term0, NegInf, Fin(max0), Fin(max12));
      if o.Pass? { o := l.Add(term1, Fin(max0), Fin(max11), Fin(max12), Fin(max2)); }
      if o.Pass? { o := l.AddTriangle(term2, Fin(max11), Fin(max2), PosInf); }
      r := if o.Pass? then Ok(l) else Err(o.error);
    }

    /** A variable with five terms; the inner three are trapezoids. */
    static method FiveTerms(name: string, term0: string, term1: string, term2: string, term3: string, term4: string,
                            max0: real, max11: real, max12: real, max21: real, max22: real,
                            max31: real, max32: real, max4: real)
      returns (r: Result<Linguistic>)
      ensures r.Ok? <==> FiveTermsFit(max0, max11, max12, max21, max22, max31, max32, max4)
      ensures r.Err? ==> r.error == InvalidTermDefinition
      ensures r.Ok? ==> fresh(r.value) && r.value.terms.Valid()
      ensures r.Ok? ==> r.value.name == name && r.value.value == 0.0
      ensures r.Ok? ==> r.value.Pristine()
      ensures r.Ok? ==> forall k :: k in r.value.terms.entries ==> fresh(r.value.terms.entries[k])
      ensures r.Ok? ==> (r.value.terms.ShapeMap() ==
        map[term0 := LeftShoulder(max0, max11)]
           [term1 := Trapezoid(max0, max11, max12, max21)]
           [term2 := Trapezoid(max12, max21, max22, max31)]
           [term3 := Trapezoid(max22, max31, max32, max4)]
           [term4 := RightShoulder(max32, max4)])
    {
      var l := new Linguistic(name);
      var o := l.AddTriangle(term0, NegInf, Fin(max0), Fin(max11));
      // After each passing step every stored term is new, owned by l, under its name and unfired.
      assert o.Pass? ==> l.Pristine() && forall k :: k in l.terms.entries ==> fresh(l.terms.entries[k]);
      if o.Pass? { o := l.Add(term1, Fin(max0), Fin(max11), Fin(max12), Fin(max21)); }
      assert o.Pass? ==> l.Pristine() && forall k :: k in l.terms.entries ==> fresh(l.terms.entries[k]);
      if o.Pass? { o := l.Add(term2, Fin(max12), Fin(max21), Fin(max22), Fin(max31)); }
      assert o.Pass? ==> l.Pristine() && forall k :: k in l.terms.entries ==> fresh(l.terms.entries[k]);
      if o.Pass? { o := l.Add(term3, Fin(max22), Fin(max31), Fin(max32), Fin(max4)); }
      assert o.Pass? ==> l.Pristine() && forall k :: k in l.terms.entries ==> fresh(l.terms.entries[k]);
      if o.Pass? { o := l.AddTriangle(term4, Fin(max32), Fin(max4), PosInf); }
      r := if o.Pass? then Ok(l) else Err(o.error);
    }

    /**
     * A variable with seven terms from twelve breakpoints x[0..11]; a short list fails with
     * IndexOutOfRange at the first term that reads past its end.
     */
    static method SevenTerms(name: string, term0: string, term1: string, term2: string, term3: string,
                             term4: string, term5: string, term6: string, x: seq<real>)
      returns (r: Result<Linguistic>)
      ensures r.Ok? <==> |x| >= 12 && SevenTermsFit(x)
      ensures r.Err? && r.error == IndexOutOfRange ==> |x| < 12
      ensures r.Err? && |x| >= 12 ==> r.error == InvalidTermDefinition
      ensures |x| < 2 ==> r == Err(IndexOutOfRange)
      ensures r.Ok? ==> fresh(r.value) && r.value.terms.Valid()
      ensures r.Ok? ==> r.value.name == name && r.value.value == 0.0
      ensures r.Ok? ==> r.value.Pristine()
      ensures r.Ok? ==> forall k :: k in r.value.terms.entries ==> fresh(r.value.terms.entries[k])
      ensures r.Ok? ==> (r.value.terms.ShapeMap() ==
        map[term0 := LeftShoulder(x[0], x[1])]
           [term1 := Trapezoid(x[0], x[1], x[2], x[3])]
           [term2 := Trapezoid(x[2], x[3], x[4], x[5])]
           [term3 := Trapezoid(x[4], x[5], x[6], x[7])]
           [term4 := Trapezoid(x[6], x[7], x[8], x[9])]
           [term5 := Trapezoid(x[8], x[9], x[10], x[11])]
           [term6 := RightShoulder(x[10], x[11])])
    {
      var l := new Linguistic(name);
      // Each step runs only if the previous one passed; reading past the end of x fails it.
      var o := Fail(IndexOutOfRange);
      if |x| >= 2 { o := l.AddTriangle(term0, NegInf, Fin(x[0]), Fin(x[1])); }
      // After each passing step every stored term is new, owned by l, under its name and unfired.
      assert o.Pass? ==> l.Pristine() && forall k :: k in l.terms.entries ==> fresh(l.terms.entries[k]);
      if o.Pass? {
        if |x| < 4 { o := Fail(IndexOutOfRange); } else { o := l.Add(term1, Fin(x[0]), Fin(x[1]), Fin(x[2]), Fin(x[3])); }
      }
      assert o.Pass? ==> l.Pristine() && forall k :: k in l.terms.entries ==> fresh(l.terms.entries[k]);
      if o.Pass? {
        if |x| < 6 { o := Fail(IndexOutOfRange); } else { o := l.Add(term2, Fin(x[2]), Fin(x[3]), Fin(x[4]), Fin(x[5])); }
      }
      assert o.Pass? ==> l.Pristine() && forall k :: k in l.terms.entries ==> fresh(l.terms.entries[k]);
      if o.Pass? {
        if |x| < 8 { o := Fail(IndexOutOfRange); } else { o := l.Add(term3, Fin(x[4]), Fin(x[5]), Fin(x[6]), Fin(x[7])); }
      }
      assert o.Pass? ==> l.Pristine() && forall k :: k in l.terms.entries ==> fresh(l.terms.entries[k]);
      if o.Pass? {
        if |x| < 10 { o := Fail(IndexOutOfRange); } else { o := l.Add(term4, Fin(x[6]), Fin(x[7]), Fin(x[8]), Fin(x[9])); }
      }
      assert o.Pass? ==> l.Pristine() && forall k :: k in l.terms.entries ==> fresh(l.terms.entries[k]);
      if o.Pass? {
        if |x| < 12 { o := Fail(IndexOutOfRange); } else { o := l.Add(term5, Fin(x[8]), Fin(x[9]), Fin(x[10]), Fin(x[11])); }
      }
      if o.Pass? { o := l.AddTriangle(term6, Fin(x[10]), Fin(x[11]), PosInf); }
      r := if o.Pass? then Ok(l) else Err(o.error);
    }
  }

  // The shapes the multi-term constructors lay out, and when they are all well formed.

  /** A falling term open to the left, 1 up to peak and 0 from foot on. */
  function LeftShoulder(peak: real, foot: real): Shape { Shape(NegInf, Fin(peak), Fin(peak), Fin(foot)) }

  /** A rising term open to the right, 0 up to foot and 1 from peak on. */
  function RightShoulder(foot: real, peak: real): Shape { Shape(Fin(foot), Fin(peak), Fin(peak), PosInf) }

  function Trapezoid(a: real, b: real, c: real, d: real): Shape { Shape(Fin(a), Fin(b), Fin(c), Fin(d)) }

  predicate TwoTermsFit(max0: real, max1: real) {
    LeftShoulder(max0, max1).Ordered() && RightShoulder(max0, max1).Ordered()
  }

  predicate ThreeTermsFit(max0: real, max11: real, max12: real, max2: real) {
    LeftShoulder(max0, max12).Ordered() && Trapezoid(max0, max11, max12, max2).Ordered() &&
    RightShoulder(max11, max2).Ordered()
  }

  predicate FiveTermsFit(max0: real, max11: real, max12: real, max21: real, max22: real,
                         max31: real, max32: real, max4: real) {
    LeftShoulder(max0, max11).Ordered() && Trapezoid(max0, max11, max12, max21).Ordered() &&
    Trapezoid(max12, max21, max22, max31).Ordered() && Trapezoid(max22, max31, max32, max4).Ordered() &&
    RightShoulder(max32, max4).Ordered()
  }

  predicate SevenTermsFit(x: seq<real>)
    requires |x| >= 12
  {
    LeftShoulder(x[0], x[1]).Ordered() && Trapezoid(x[0], x[1], x[2], x[3]).Ordered() &&
    Trapezoid(x[2], x[3], x[4], x[5]).Ordered() && Trapezoid(x[4], x[5], x[6], x[7]).Ordered() &&
    Trapezoid(x[6], x[7], x[8], x[9]).Ordered() && Trapezoid(x[8], x[9], x[10], x[11]).Ordered() &&
    RightShoulder(x[10], x[11]).Ordered()
  }

  /** The two-term layout is well formed exactly when max0 <= max1. */
  lemma TwoTermsFitExactly(max0: real, max1: real)
    ensures TwoTermsFit(max0, max1) <==> max0 <= max1
  {
  }

  /** The three-term layout is well formed exactly when its breakpoints ascend. */
  lemma ThreeTermsFitExactly(max0: real, max11: real, max12: real, max2: real)
    ensures ThreeTermsFit(max0, max11, max12, max2) <==> max0 <= max11 <= max12 <= max2
  {
  }

  /** The five-term layout is well formed exactly when its breakpoints ascend. */
  lemma FiveTermsFitExactly(max0: real, max11: real, max12: real, max21: real, max22: real,
                            max31: real, max32: real, max4: real)
    ensures FiveTermsFit(max0, max11, max12, max21, max22, max31, max32, max4) <==>
      max0 <= max11 <= max12 <= max21 <= max22 <= max31 <= max32 <= max4
  {
  }

  /** The seven-term layout is well formed exactly when the twelve breakpoints ascend. */
  lemma SevenTermsFitExactly(x: seq<real>)
    requires |x| >= 12
    ensures SevenTermsFit(x) <==> forall i :: 0 <= i < 11 ==> x[i] <= x[i + 1]
  {
  }
}
