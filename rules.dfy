/**
 * Fuzzy rules: one or two antecedent terms combined by AND (a minimum) or OR (a maximum);
 * the combined degree is the rule's strength, which it pushes onto the rule-max of its
 * consequent term in the output variable.
 */
module Rules {

  import opened Errors
  import opened Variables

  datatype Operator = And | Or

  /** The value the fold starts from: 1 for AND, 0 for OR. */
  function Unit(op: Operator): real { if op == And then 1.0 else 0.0 }

  /** One fold step: AND takes a degree not above the running value, OR one not below it. */
  function Step(op: Operator, acc: real, d: real): real
  {
    if op == And then (if d <= acc then d else acc)
    else (if d >= acc then d else acc)
  }

  /** The antecedent degrees ds folded left to right with op. */
  function Combine(op: Operator, ds: seq<real>): real
  {
    if ds == [] then Unit(op) else Step(op, Combine(op, ds[..|ds| - 1]), ds[|ds| - 1])
  }

  /** AND yields the least of the degrees, or 1 when none is below 1. */
  lemma {:induction false} AndIsMinimum(ds: seq<real>)
    ensures Combine(And, ds) <= 1.0
    ensures forall i :: 0 <= i < |ds| ==> Combine(And, ds) <= ds[i]
    ensures Combine(And, ds) == 1.0 || exists i :: 0 <= i < |ds| && Combine(And, ds) == ds[i]
  {
    if ds != [] {
      var init := ds[..|ds| - 1];
      AndIsMinimum(init);
      assert forall i :: 0 <= i < |init| ==> init[i] == ds[i];
      if Combine(And, ds) != ds[|ds| - 1] && Combine(And, ds) != 1.0 {
        var k :| 0 <= k < |init| && Combine(And, init) == init[k];
        assert Combine(And, ds) == ds[k];
      }
    }
  }

  /** OR yields the greatest of the degrees, or 0 when none is above 0. */
  lemma {:induction false} OrIsMaximum(ds: seq<real>)
    ensures Combine(Or, ds) >= 0.0
    ensures forall i :: 0 <= i < |ds| ==> Combine(Or, ds) >= ds[i]
    ensures Combine(Or, ds) == 0.0 || exists i :: 0 <= i < |ds| && Combine(Or, ds) == ds[i]
  {
    if ds != [] {
      var init := ds[..|ds| - 1];
      OrIsMaximum(init);
      assert forall i :: 0 <= i < |init| ==> init[i] == ds[i];
      if Combine(Or, ds) != ds[|ds| - 1] && Combine(Or, ds) != 0.0 {
        var k :| 0 <= k < |init| && Combine(Or, init) == init[k];
        assert Combine(Or, ds) == ds[k];
      }
    }
  }

  /** Degrees in [0, 1] combine to a degree in [0, 1]. */
  lemma CombineIsGrade(op: Operator, ds: seq<real>)
    requires forall i :: 0 <= i < |ds| ==> 0.0 <= ds[i] <= 1.0
    ensures 0.0 <= Combine(op, ds) <= 1.0
  {
    if op == And {
      AndIsMinimum(ds);
    } else {
      OrIsMaximum(ds);
    }
  }

  /**
   * Both folds are commutative: antecedents holding the same degrees, in any order and
   * with any repetition, combine to the same strength (so a mirrored rule is redundant).
   */
  lemma CombineIgnoresOrder(op: Operator, ds: seq<real>, es: seq<real>)
    requires forall d :: d in ds <==> d in es
    ensures Combine(op, ds) == Combine(op, es)
  {
    var a, b := Combine(op, ds), Combine(op, es);
    if op == And {
      AndIsMinimum(ds);
      AndIsMinimum(es);
      assert a <= b by {
        if b != 1.0 {
          var j :| 0 <= j < |es| && b == es[j];
          assert es[j] in ds;
        }
      }
      assert b <= a by {
        if a != 1.0 {
          var i :| 0 <= i < |ds| && a == ds[i];
          assert ds[i] in es;
        }
      }
    } else {
      OrIsMaximum(ds);
      OrIsMaximum(es);
      assert a >= b by {
        if b != 0.0 {
          var j :| 0 <= j < |es| && b == es[j];
          assert es[j] in ds;
        }
      }
      assert b >= a by {
        if a != 0.0 {
          var i :| 0 <= i < |ds| && a == ds[i];
          assert ds[i] in es;
        }
      }
    }
  }

  /** The variables the terms ts belong to. */
  function Owners(ts: seq<Term>): set<Linguistic>
  {
    set t | t in ts :: t.owner
  }

  /** The degrees of the terms ts, each read from the value of its own variable. */
  function DegreesOf(ts: seq<Term>): (ds: seq<real>)
    reads Owners(ts)
    ensures |ds| == |ts|
    ensures forall i :: 0 <= i < |ts| ==> ds[i] == ts[i].Degree() && 0.0 <= ds[i] <= 1.0
  {
    if ts == [] then [] else DegreesOf(ts[..|ts| - 1]) + [ts[|ts| - 1].Degree()]
  }

  /** A rule: if (in1 is t1) op (in2 is t2) then (outVar is outTerm). */
  class FuzzyRule {
    const outVar: Linguistic
    const outTerm: Term
    const inVars: seq<Linguistic>
    const inTerms: seq<Term>
    const op: Operator
    /** The strength found the last time the rule was evaluated. */
    var possibility: real

    /** The strength of the rule at the current values of the input variables. */
    function Strength(): real
      reads Owners(inTerms)
    {
      Combine(op, DegreesOf(inTerms))
    }

    /** Every strength is a degree. */
    lemma StrengthIsGrade()
      ensures 0.0 <= Strength() <= 1.0
    {
      CombineIsGrade(op, DegreesOf(inTerms));
    }

    constructor (outVar: Linguistic, outTerm: Term, inVars: seq<Linguistic>, inTerms: seq<Term>, op: Operator)
      ensures this.outVar == outVar && this.outTerm == outTerm
      ensures this.inVars == inVars && this.inTerms == inTerms && this.op == op
      ensures possibility == 0.0
    {
      this.outVar := outVar;
      this.outTerm := outTerm;
      this.inVars := inVars;
      this.inTerms := inTerms;
      this.op := op;
      possibility := 0.0;
    }

    /** The one-antecedent rule (an OR over one term); the names are looked up as FindTerm does. */
    static method Unary(outVar: Linguistic, outTermName: string, in1: Linguistic, in1TermName: string)
      returns (r: Result<FuzzyRule>)
      ensures r.Ok? <==> outTermName in outVar.terms.entries && in1TermName in in1.terms.entries
      ensures outTermName !in outVar.terms.entries ==> r == Err(KeyNotFound(outVar.name + "." + outTermName))
      ensures outTermName in outVar.terms.entries && in1TermName !in in1.terms.entries ==>
        r == Err(KeyNotFound(in1.name + "." + in1TermName))
      ensures r.Ok? ==> fresh(r.value) && r.value.possibility == 0.0 && r.value.outVar == outVar
      ensures r.Ok? ==> r.value.outTerm == outVar.terms.entries[outTermName] && r.value.op == Or
      ensures r.Ok? ==> r.value.inVars == [in1] && r.value.inTerms == [in1.terms.entries[in1TermName]]
    {
      var o := outVar.FindTerm(outTermName);
      if o.Err? {
        return Err(o.error);
      }
      var t1 := in1.FindTerm(in1TermName);
      if t1.Err? {
        return Err(t1.error);
      }
      var rule := new FuzzyRule(outVar, o.value, [in1], [t1.value], Or);
      return Ok(rule);
    }

    /** The two-antecedent rule; the output term is looked up first, then t1, then t2. */
    static method Binary(outVar: Linguistic, outTermName: string, in1: Linguistic, in1TermName: string,
                         op: Operator, in2: Linguistic, in2TermName: string)
      returns (r: Result<FuzzyRule>)
      ensures r.Ok? <==> (outTermName in outVar.terms.entries &&
                          in1TermName in in1.terms.entries && in2TermName in in2.terms.entries)
      ensures outTermName !in outVar.terms.entries ==> r == Err(KeyNotFound(outVar.name + "." + outTermName))
      ensures outTermName in outVar.terms.entries && in1TermName !in in1.terms.entries ==>
        r == Err(KeyNotFound(in1.name + "." + in1TermName))
      ensures (outTermName in outVar.terms.entries && in1TermName in in1.terms.entries &&
               in2TermName !in in2.terms.entries) ==> r == Err(KeyNotFound(in2.name + "." + in2TermName))
      ensures r.Ok? ==> fresh(r.value) && r.value.possibility == 0.0 && r.value.outVar == outVar
      ensures r.Ok? ==> r.value.outTerm == outVar.terms.entries[outTermName] && r.value.op == op
      ensures r.Ok? ==> r.value.inVars == [in1, in2]
      ensures r.Ok? ==> r.value.inTerms == [in1.terms.entries[in1TermName], in2.terms.entries[in2TermName]]
    {
      var o := outVar.FindTerm(outTermName);
      if o.Err? {
        return Err(o.error);
      }
      var t1 := in1.FindTerm(in1TermName);
      if t1.Err? {
        return Err(t1.error);
      }
      var t2 := in2.FindTerm(in2TermName);
      if t2.Err? {
        return Err(t2.error);
      }
      var rule := new FuzzyRule(outVar, o.value, [in1, in2], [t1.value, t2.value], op);
      return Ok(rule);
    }

    /**
     * Evaluate the rule: fold the antecedent degrees, remember the strength, and raise the
     * consequent's rule-max to it. No other term changes.
     */
    method Calculate()
      modifies this, outTerm
      ensures possibility == Strength()
      ensures outTerm.ruleMax == Raise(old(outTerm.ruleMax), Strength())
    {
      ghost var ds := DegreesOf(inTerms);
      var opt := Unit(op);
      var i := 0;
      while i < |inTerms|
        invariant 0 <= i <= |inTerms|
        invariant opt == Combine(op, ds[..i])
      {
        var current := inTerms[i].Degree();
        if op == And {
          if current <= opt {
            opt := current;
          }
        } else {
          if current >= opt {
            opt := current;
          }
        }
        assert ds[..i + 1][..i] == ds[..i];
        i := i + 1;
      }
      assert ds[..i] == ds;
      label Evaluated:
      possibility := opt;
      outTerm.SetRuleMax(opt);
      // Neither the rule nor its consequent is a variable, so updating them keeps the strength.
      ghost var read: set<object> := Owners(inTerms);
      assert this !in read && outTerm !in read;
      StrengthKept@Evaluated(this);
    }
  }

  /** A rule's strength reads only the values of its antecedents' variables. */
  twostate lemma StrengthKept(r: FuzzyRule)
    requires unchanged(Owners(r.inTerms))
    ensures r.Strength() == old(r.Strength())
  {
  }

  /** A one-antecedent rule passes the antecedent's degree through unchanged. */
  lemma UnaryStrength(r: FuzzyRule)
    requires r.op == Or && |r.inTerms| == 1
    ensures r.Strength() == r.inTerms[0].Degree()
  {
    OrIsMaximum(DegreesOf(r.inTerms));
  }

  /** A rule and its mirror (antecedents swapped) have the same strength. */
  lemma MirrorStrength(r: FuzzyRule, m: FuzzyRule)
    requires r.op == m.op && |r.inTerms| == 2 && m.inTerms == [r.inTerms[1], r.inTerms[0]]
    ensures r.Strength() == m.Strength()
  {
    var ds, es := DegreesOf(r.inTerms), DegreesOf(m.inTerms);
    assert ds == [ds[0], ds[1]] && es == [ds[1], ds[0]];
    CombineIgnoresOrder(r.op, ds, es);
  }

  /** The variables the antecedents of rules rs read. */
  function AntecedentOwners(rs: seq<FuzzyRule>): set<Linguistic>
  {
    set r, t | r in rs && t in r.inTerms :: t.owner
  }

  /** The rule-max that evaluating rules rs in order leaves on t, starting from 0. */
  function MaxStrength(rs: seq<FuzzyRule>, t: Term): real
    reads AntecedentOwners(rs)
  {
    if rs == [] then 0.0
    else
      var m := MaxStrength(rs[..|rs| - 1], t);
      if rs[|rs| - 1].outTerm == t then Raise(m, rs[|rs| - 1].Strength()) else m
  }

  /** The aggregate reads only the variables the antecedents of rs read. */
  twostate lemma MaxStrengthKept(rs: seq<FuzzyRule>)
    requires unchanged(AntecedentOwners(rs))
    ensures forall t: Term :: old(allocated(t)) ==> MaxStrength(rs, t) == old(MaxStrength(rs, t))
  {
  }

  /** Every rule of rs keeps its strength while the variables its antecedents read keep their values. */
  twostate lemma StrengthsKept(rs: seq<FuzzyRule>)
    requires unchanged(AntecedentOwners(rs))
    ensures forall i :: 0 <= i < |rs| ==> rs[i].Strength() == old(rs[i].Strength())
  {
    forall i | 0 <= i < |rs|
      ensures rs[i].Strength() == old(rs[i].Strength())
    {
      assert Owners(rs[i].inTerms) <= AntecedentOwners(rs);
      StrengthKept(rs[i]);
    }
  }

  /** The same aggregate over the strengths the rules recorded when they were last evaluated. */
  function MaxPossibility(rs: seq<FuzzyRule>, t: Term): real
    reads set r | r in rs
  {
    if rs == [] then 0.0
    else
      var m := MaxPossibility(rs[..|rs| - 1], t);
      if rs[|rs| - 1].outTerm == t then Raise(m, rs[|rs| - 1].possibility) else m
  }

  /** The recorded aggregate reads only the rules themselves. */
  twostate lemma MaxPossibilityKept(rs: seq<FuzzyRule>)
    requires unchanged(set r | r in rs)
    ensures forall t: Term :: old(allocated(t)) ==> MaxPossibility(rs, t) == old(MaxPossibility(rs, t))
  {
  }

  /** The aggregate is max(0, the recorded strengths of the rules whose consequent is t). */
  lemma {:induction false} MaxPossibilityIsMaximum(rs: seq<FuzzyRule>, t: Term)
    ensures MaxPossibility(rs, t) >= 0.0
    ensures forall i :: 0 <= i < |rs| && rs[i].outTerm == t ==> MaxPossibility(rs, t) >= rs[i].possibility
    ensures MaxPossibility(rs, t) == 0.0 ||
      exists i :: 0 <= i < |rs| && rs[i].outTerm == t && MaxPossibility(rs, t) == rs[i].possibility
  {
    if rs != [] {
      var init := rs[..|rs| - 1];
      MaxPossibilityIsMaximum(init, t);
      assert forall i :: 0 <= i < |init| ==> init[i] == rs[i];
      var m := MaxPossibility(rs, t);
      if m != 0.0 && !(rs[|rs| - 1].outTerm == t && m == rs[|rs| - 1].possibility) {
        var k :| 0 <= k < |init| && init[k].outTerm == t && MaxPossibility(init, t) == init[k].possibility;
        assert rs[k].outTerm == t && m == rs[k].possibility;
      }
    }
  }

  /** Where every rule recorded its current strength, the two aggregates agree. */
  lemma {:induction false} MaxPossibilityIsMaxStrength(rs: seq<FuzzyRule>, t: Term)
    requires forall i :: 0 <= i < |rs| ==> rs[i].possibility == rs[i].Strength()
    ensures MaxPossibility(rs, t) == MaxStrength(rs, t)
  {
    if rs != [] {
      MaxPossibilityIsMaxStrength(rs[..|rs| - 1], t);
    }
  }
}
