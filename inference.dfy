/**
 * The inference engine: an output variable, the input variables by name and an append-only
 * list of rules. Execute assigns input values, resets the output terms, evaluates every rule
 * in order and defuzzifies the output variable.
 */
module Inference {

  import opened Errors
  import opened Defuzzification
  import opened Variables
  import opened Rules

  /** One input assignment: the name of an input variable and the crisp value it receives. */
  datatype Binding = Binding(name: string, value: real)

  /** How many leading bindings name a known input variable: the first unknown one fails. */
  function KnownPrefix(bs: seq<Binding>, names: set<string>): (n: nat)
    ensures n <= |bs|
    ensures forall j :: 0 <= j < n ==> bs[j].name in names
    ensures n < |bs| ==> bs[n].name !in names
  {
    if bs == [] || bs[0].name !in names then 0
    else
      var n := KnownPrefix(bs[1..], names);
      assert forall j :: 1 <= j < n + 1 ==> bs[j] == bs[1..][j - 1];
      1 + n
  }

  /** Whether binding b assigns to variable v. */
  predicate Targets(b: Binding, inVars: map<string, Linguistic>, v: Linguistic)
  {
    b.name in inVars && inVars[b.name] == v
  }

  /** The value variable v holds after the assignments bs, starting from `initial`. */
  function Assigned(bs: seq<Binding>, inVars: map<string, Linguistic>, v: Linguistic, initial: real): real
  {
    if bs == [] then initial
    else if Targets(bs[|bs| - 1], inVars, v) then bs[|bs| - 1].value
    else Assigned(bs[..|bs| - 1], inVars, v, initial)
  }

  /** The last assignment to v wins; when none names v, v keeps its value. */
  lemma {:induction false} AssignedIsLast(bs: seq<Binding>, inVars: map<string, Linguistic>, v: Linguistic, initial: real)
    ensures (forall j :: 0 <= j < |bs| ==> !Targets(bs[j], inVars, v)) ==> Assigned(bs, inVars, v, initial) == initial
    ensures forall j :: (0 <= j < |bs| && Targets(bs[j], inVars, v) &&
                          (forall k :: j < k < |bs| ==> !Targets(bs[k], inVars, v))) ==>
                        Assigned(bs, inVars, v, initial) == bs[j].value
  {
    if bs != [] {
      var init := bs[..|bs| - 1];
      AssignedIsLast(init, inVars, v, initial);
      assert forall j :: 0 <= j < |init| ==> init[j] == bs[j];
    }
  }

  /** A lookup the rule builders make before adding anything. */
  datatype Check =
    | OutVarNamed(name: string)               // the rule's output variable is the local one
    | InVar(name: string)                     // an input variable of that name exists
    | InTerm(varName: string, termName: string) // that input variable has a term of that name
    | OutTerm(termName: string)               // the output variable has a term of that name

  /** What a new rule is to look like: its consequent, its antecedents and its operator. */
  datatype RuleSpec = RuleSpec(outTerm: Term, inTerms: seq<Term>, op: Operator)

  /** The AND rules over every pair of four antecedents, in the order 12, 13, 14, 23, 24, 34. */
  function PairSpecs(t: Term, t1: Term, t2: Term, t3: Term, t4: Term): (specs: seq<RuleSpec>)
    ensures |specs| == 6
    ensures forall i :: 0 <= i < 6 ==> specs[i].outTerm == t && specs[i].op == And && |specs[i].inTerms| == 2
  {
    [RuleSpec(t, [t1, t2], And), RuleSpec(t, [t1, t3], And), RuleSpec(t, [t1, t4], And),
     RuleSpec(t, [t2, t3], And), RuleSpec(t, [t2, t4], And), RuleSpec(t, [t3, t4], And)]
  }

  /** The AND rules pairing a term of one variable, t11 or t12, with a term of another, t21 or t22. */
  function CrossSpecs(t: Term, t11: Term, t12: Term, t21: Term, t22: Term): (specs: seq<RuleSpec>)
    ensures |specs| == 4
    ensures forall i :: 0 <= i < 4 ==> specs[i].outTerm == t && specs[i].op == And && |specs[i].inTerms| == 2
  {
    [RuleSpec(t, [t11, t21], And), RuleSpec(t, [t11, t22], And),
     RuleSpec(t, [t12, t21], And), RuleSpec(t, [t12, t22], And)]
  }

  class Reasoning {
    const outVar: Linguistic
    const inVars: map<string, Linguistic>
    var rules: seq<FuzzyRule>

    /** An engine over two input variables, keyed by their names, with no rules. */
    constructor (out: Linguistic, in0: Linguistic, in1: Linguistic)
      ensures outVar == out && inVars == map[in0.name := in0][in1.name := in1] && rules == []
    {
      outVar := out;
      inVars := map[in0.name := in0][in1.name := in1];
      rules := [];
    }

    /** An engine over four input variables. */
    constructor Four(out: Linguistic, in0: Linguistic, in1: Linguistic, in2: Linguistic, in3: Linguistic)
      ensures outVar == out && rules == []
      ensures inVars == map[in0.name := in0][in1.name := in1][in2.name := in2][in3.name := in3]
    {
      outVar := out;
      inVars := map[in0.name := in0][in1.name := in1][in2.name := in2][in3.name := in3];
      rules := [];
    }

    /** Whether a check succeeds against the current variables. */
    predicate Passes(c: Check)
      reads outVar, inVars.Values
    {
      match c
      case OutVarNamed(n) => n == outVar.name
      case InVar(n) => n in inVars
      case InTerm(v, t) => v in inVars && t in inVars[v].terms.entries
      case OutTerm(t) => t in outVar.terms.entries
    }

    /** The exception a failing check raises: the dictionary's, or FindTerm's for the output term. */
    function Failure(c: Check): Error
    {
      match c
      case OutVarNamed(n) => KeyNotFound(n)
      case InVar(n) => KeyNotFound(n)
      case InTerm(_, t) => KeyNotFound(t)
      case OutTerm(t) => KeyNotFound(outVar.name + "." + t)
    }

    /** The checks made in order: the first that fails decides the exception. */
    function Run(cs: seq<Check>): (o: Outcome)
      reads outVar, inVars.Values
      ensures o.Pass? <==> forall i :: 0 <= i < |cs| ==> Passes(cs[i])
      ensures o.Fail? ==> exists i :: (0 <= i < |cs| && !Passes(cs[i]) && o.error == Failure(cs[i]) &&
                                      forall j :: 0 <= j < i ==> Passes(cs[j]))
    {
      if cs == [] then Pass
      else if !Passes(cs[0]) then Fail(Failure(cs[0]))
      else
        var o := Run(cs[1..]);
        assert forall i :: 1 <= i < |cs| ==> cs[i] == cs[1..][i - 1];
        if o.Fail? then
          var k :| 0 <= k < |cs| - 1 && !Passes(cs[1..][k]) && o.error == Failure(cs[1..][k]) &&
            forall j :: 0 <= j < k ==> Passes(cs[1..][j]);
          assert !Passes(cs[k + 1]) && o.error == Failure(cs[k + 1]);
          o
        else o
    }

    /** The term termName of input variable varName; the check InTerm(varName, termName) passed. */
    function TermOf(varName: string, termName: string): Term
      requires Passes(InTerm(varName, termName))
      reads outVar, inVars.Values
    {
      inVars[varName].terms.entries[termName]
    }

    /** The term termName of the output variable; the check OutTerm(termName) passed. */
    function OutTermOf(termName: string): Term
      requires Passes(OutTerm(termName))
      reads outVar, inVars.Values
    {
      outVar.terms.entries[termName]
    }

    /** Rule r has the output variable of this engine and the shape spec describes. */
    ghost predicate Matches(r: FuzzyRule, spec: RuleSpec)
    {
      r.outVar == outVar && r.outTerm == spec.outTerm && r.inTerms == spec.inTerms && r.op == spec.op
    }

    /** after is before followed by one rule per spec, in order. */
    ghost predicate Extends(before: seq<FuzzyRule>, after: seq<FuzzyRule>, specs: seq<RuleSpec>)
    {
      |after| == |before| + |specs| && after[..|before|] == before &&
      forall i :: 0 <= i < |specs| ==> Matches(after[|before| + i], specs[i])
    }


    /** Appends the six AND rules over every pair of (v1, t1) .. (v4, t4), concluding t. */
    method AppendPairRules(t: Term, v1: Linguistic, t1: Term, v2: Linguistic, t2: Term,
                           v3: Linguistic, t3: Term, v4: Linguistic, t4: Term)
      modifies this
      ensures Extends(old(rules), rules, PairSpecs(t, t1, t2, t3, t4))
      ensures forall i :: |old(rules)| <= i < |rules| ==> fresh(rules[i]) && rules[i].possibility == 0.0
    {
      var r12 := new FuzzyRule(outVar, t, [v1, v2], [t1, t2], And);
      var r13 := new FuzzyRule(outVar, t, [v1, v3], [t1, t3], And);
      var r14 := new FuzzyRule(outVar, t, [v1, v4], [t1, t4], And);
      var r23 := new FuzzyRule(outVar, t, [v2, v3], [t2, t3], And);
      var r24 := new FuzzyRule(outVar, t, [v2, v4], [t2, t4], And);
      var r34 := new FuzzyRule(outVar, t, [v3, v4], [t3, t4], And);
      rules := rules + [r12, r13, r14, r23, r24, r34];
    }

    /** Appends the four AND rules pairing t11 or t12 of v1 with t21 or t22 of v2, concluding t. */
    method AppendCrossRules(t: Term, v1: Linguistic, t11: Term, t12: Term, v2: Linguistic, t21: Term, t22: Term)
      modifies this
      ensures Extends(old(rules), rules, CrossSpecs(t, t11, t12, t21, t22))
      ensures forall i :: |old(rules)| <= i < |rules| ==> fresh(rules[i]) && rules[i].possibility == 0.0
    {
      var r11 := new FuzzyRule(outVar, t, [v1, v2], [t11, t21], And);
      var r12 := new FuzzyRule(outVar, t, [v1, v2], [t11, t22], And);
      var r21 := new FuzzyRule(outVar, t, [v1, v2], [t12, t21], And);
      var r22 := new FuzzyRule(outVar, t, [v1, v2], [t12, t22], And);
      rules := rules + [r11, r12, r21, r22];
    }

    /** Appends the rule (t1, t2) => t and its mirror (t2, t1) => t, both combined with op. */
    method AppendMirrored(t: Term, v1: Linguistic, t1: Term, v2: Linguistic, t2: Term, op: Operator)
      modifies this
      ensures Extends(old(rules), rules, [RuleSpec(t, [t1, t2], op), RuleSpec(t, [t2, t1], op)])
      ensures forall i :: |old(rules)| <= i < |rules| ==> fresh(rules[i]) && rules[i].possibility == 0.0
    {
      var rule := new FuzzyRule(outVar, t, [v1, v2], [t1, t2], op);
      var mirror := new FuzzyRule(outVar, t, [v2, v1], [t2, t1], op);
      rules := rules + [rule, mirror];
    }

    /** Appends the one-antecedent rule t1 => t, combined with OR. */
    method AppendUnary(t: Term, v1: Linguistic, t1: Term)
      modifies this
      ensures Extends(old(rules), rules, [RuleSpec(t, [t1], Or)])
      ensures forall i :: |old(rules)| <= i < |rules| ==> fresh(rules[i]) && rules[i].possibility == 0.0
    {
      var rule := new FuzzyRule(outVar, t, [v1], [t1], Or);
      rules := rules + [rule];
    }

    /**
     * Two rules with the same consequent and operator, (in1, in2) and its mirror (in2, in1).
     * Every name is checked first, in the order below, against the variables as they are when
     * the call starts; nothing is added when a check fails.
     */
    method AddRule(outVarName: string, outTermName: string, op: Operator,
                   in1: string, in1TermName: string, in2: string, in2TermName: string)
      returns (o: Outcome)
      modifies this
      ensures o == old(Run([OutVarNamed(outVarName), InVar(in1), InVar(in2),
                            InTerm(in1, in1TermName), InTerm(in2, in2TermName), OutTerm(outTermName)]))
      ensures o.Fail? ==> rules == old(rules)
      ensures o.Pass? ==> old(Passes(InTerm(in1, in1TermName)) && Passes(InTerm(in2, in2TermName)) &&
                              Passes(OutTerm(outTermName))) &&
                          Extends(old(rules), rules, old([
                            RuleSpec(OutTermOf(outTermName), [TermOf(in1, in1TermName), TermOf(in2, in2TermName)], op),
                            RuleSpec(OutTermOf(outTermName), [TermOf(in2, in2TermName), TermOf(in1, in1TermName)], op)]))
      ensures forall i :: |old(rules)| <= i < |rules| ==> fresh(rules[i]) && rules[i].possibility == 0.0
    {
      var cs := [OutVarNamed(outVarName), InVar(in1), InVar(in2),
                 InTerm(in1, in1TermName), InTerm(in2, in2TermName), OutTerm(outTermName)];
      o := Run(cs);
      if o.Fail? {
        return;
      }
      assert Passes(cs[3]) && Passes(cs[4]) && Passes(cs[5]);
      var v1, v2 := inVars[in1], inVars[in2];
      AppendMirrored(outVar.terms.entries[outTermName], v1, v1.terms.entries[in1TermName],
                     v2, v2.terms.entries[in2TermName], op);
    }

    /** AddRule with the variables given as objects: they are looked up by their names. */
    method AddRuleVars(outV: Linguistic, outTermName: string, op: Operator,
                       in1: Linguistic, in1TermName: string, in2: Linguistic, in2TermName: string)
      returns (o: Outcome)
      modifies this
      ensures o == old(Run([OutVarNamed(outV.name), InVar(in1.name), InVar(in2.name),
                            InTerm(in1.name, in1TermName), InTerm(in2.name, in2TermName), OutTerm(outTermName)]))
      ensures o.Fail? ==> rules == old(rules)
      ensures o.Pass? ==> old(Passes(InTerm(in1.name, in1TermName)) && Passes(InTerm(in2.name, in2TermName)) &&
                              Passes(OutTerm(outTermName))) &&
                          Extends(old(rules), rules, old([
                            RuleSpec(OutTermOf(outTermName), [TermOf(in1.name, in1TermName), TermOf(in2.name, in2TermName)], op),
                            RuleSpec(OutTermOf(outTermName), [TermOf(in2.name, in2TermName), TermOf(in1.name, in1TermName)], op)]))
      ensures forall i :: |old(rules)| <= i < |rules| ==> fresh(rules[i]) && rules[i].possibility == 0.0
    {
      o := AddRule(outV.name, outTermName, op, in1.name, in1TermName, in2.name, in2TermName);
    }

    /** One rule with a single antecedent, which the engine combines with OR. */
    method AddUnaryRule(outVarName: string, outTermName: string, in1: string, in1TermName: string)
      returns (o: Outcome)
      modifies this
      ensures o == old(Run([OutVarNamed(outVarName), InVar(in1), InTerm(in1, in1TermName), OutTerm(outTermName)]))
      ensures o.Fail? ==> rules == old(rules)
      ensures o.Pass? ==> old(Passes(InTerm(in1, in1TermName)) && Passes(OutTerm(outTermName))) &&
                          Extends(old(rules), rules, old([RuleSpec(OutTermOf(outTermName), [TermOf(in1, in1TermName)], Or)]))
      ensures forall i :: |old(rules)| <= i < |rules| ==> fresh(rules[i]) && rules[i].possibility == 0.0
    {
      var cs := [OutVarNamed(outVarName), InVar(in1), InTerm(in1, in1TermName), OutTerm(outTermName)];
      o := Run(cs);
      if o.Fail? {
        return;
      }
      assert Passes(cs[2]) && Passes(cs[3]);
      var v1 := inVars[in1];
      AppendUnary(outVar.terms.entries[outTermName], v1, v1.terms.entries[in1TermName]);
    }

    /** AddUnaryRule with the variables given as objects. */
    method AddUnaryRuleVars(outV: Linguistic, outTermName: string, in1: Linguistic, in1TermName: string)
      returns (o: Outcome)
      modifies this
      ensures o == old(Run([OutVarNamed(outV.name), InVar(in1.name), InTerm(in1.name, in1TermName), OutTerm(outTermName)]))
      ensures o.Fail? ==> rules == old(rules)
      ensures o.Pass? ==> old(Passes(InTerm(in1.name, in1TermName)) && Passes(OutTerm(outTermName))) &&
                          Extends(old(rules), rules, old([RuleSpec(OutTermOf(outTermName), [TermOf(in1.name, in1TermName)], Or)]))
      ensures forall i :: |old(rules)| <= i < |rules| ==> fresh(rules[i]) && rules[i].possibility == 0.0
    {
      o := AddUnaryRule(outV.name, outTermName, in1.name, in1TermName);
    }

    /** The six AND rules over every pair of four antecedents: 12, 13, 14, 23, 24, 34. */
    method AddRuleSet(outVarName: string, outTermName: string, in1: string, in1TermName: string,
                      in2: string, in2TermName: string, in3: string, in3TermName: string,
                      in4: string, in4TermName: string)
      returns (o: Outcome)
      modifies this
      ensures o == old(Run([OutVarNamed(outVarName), InVar(in1), InVar(in2), InVar(in3), InVar(in4),
                            InTerm(in1, in1TermName), InTerm(in2, in2TermName),
                            InTerm(in3, in3TermName), InTerm(in4, in4TermName), OutTerm(outTermName)]))
      ensures o.Fail? ==> rules == old(rules)
      ensures o.Pass? ==> old(Passes(InTerm(in1, in1TermName)) && Passes(InTerm(in2, in2TermName)) &&
                              Passes(InTerm(in3, in3TermName)) && Passes(InTerm(in4, in4TermName)) &&
                              Passes(OutTerm(outTermName))) &&
                          Extends(old(rules), rules, old(PairSpecs(OutTermOf(outTermName), TermOf(in1, in1TermName),
                            TermOf(in2, in2TermName), TermOf(in3, in3TermName), TermOf(in4, in4TermName))))
      ensures forall i :: |old(rules)| <= i < |rules| ==> fresh(rules[i]) && rules[i].possibility == 0.0
    {
      var cs := [OutVarNamed(outVarName), InVar(in1), InVar(in2), InVar(in3), InVar(in4),
                 InTerm(in1, in1TermName), InTerm(in2, in2TermName),
                 InTerm(in3, in3TermName), InTerm(in4, in4TermName), OutTerm(outTermName)];
      o := Run(cs);
      if o.Fail? {
        return;
      }
      assert Passes(cs[5]) && Passes(cs[6]) && Passes(cs[7]) && Passes(cs[8]) && Passes(cs[9]);
      var v1, v2, v3, v4 := inVars[in1], inVars[in2], inVars[in3], inVars[in4];
      AppendPairRules(outVar.terms.entries[outTermName], v1, v1.terms.entries[in1TermName],
                      v2, v2.terms.entries[in2TermName], v3, v3.terms.entries[in3TermName],
                      v4, v4.terms.entries[in4TermName]);
    }

    /** AddRuleSet with the variables given as objects. */
    method AddRuleSetVars(outV: Linguistic, outTermName: string, in1: Linguistic, in1TermName: string,
                          in2: Linguistic, in2TermName: string, in3: Linguistic, in3TermName: string,
                          in4: Linguistic, in4TermName: string)
      returns (o: Outcome)
      modifies this
      ensures o == old(Run([OutVarNamed(outV.name), InVar(in1.name), InVar(in2.name), InVar(in3.name), InVar(in4.name),
                            InTerm(in1.name, in1TermName), InTerm(in2.name, in2TermName),
                            InTerm(in3.name, in3TermName), InTerm(in4.name, in4TermName), OutTerm(outTermName)]))
      ensures o.Fail? ==> rules == old(rules)
      ensures o.Pass? ==> old(Passes(InTerm(in1.name, in1TermName)) && Passes(InTerm(in2.name, in2TermName)) &&
                              Passes(InTerm(in3.name, in3TermName)) && Passes(InTerm(in4.name, in4TermName)) &&
                              Passes(OutTerm(outTermName))) &&
                          Extends(old(rules), rules, old(PairSpecs(OutTermOf(outTermName), TermOf(in1.name, in1TermName),
                            TermOf(in2.name, in2TermName), TermOf(in3.name, in3TermName), TermOf(in4.name, in4TermName))))
      ensures forall i :: |old(rules)| <= i < |rules| ==> fresh(rules[i]) && rules[i].possibility == 0.0
    {
      o := AddRuleSet(outV.name, outTermName, in1.name, in1TermName, in2.name, in2TermName,
                      in3.name, in3TermName, in4.name, in4TermName);
    }

    /** The four AND rules pairing either term of in1 with either term of in2. */
    method AddRulePermutations(outVarName: string, outTermName: string, in1: string, in1TermName1: string,
                               in1TermName2: string, in2: string, in2TermName1: string, in2TermName2: string)
      returns (o: Outcome)
      modifies this
      ensures o == old(Run([OutVarNamed(outVarName), InVar(in1), InVar(in2),
                            InTerm(in1, in1TermName1), InTerm(in2, in2TermName1),
                            InTerm(in1, in1TermName2), InTerm(in2, in2TermName2), OutTerm(outTermName)]))
      ensures o.Fail? ==> rules == old(rules)
      ensures o.Pass? ==> old(Passes(InTerm(in1, in1TermName1)) && Passes(InTerm(in2, in2TermName1)) &&
                              Passes(InTerm(in1, in1TermName2)) && Passes(InTerm(in2, in2TermName2)) &&
                              Passes(OutTerm(outTermName))) &&
                          Extends(old(rules), rules, old(CrossSpecs(OutTermOf(outTermName), TermOf(in1, in1TermName1),
                            TermOf(in1, in1TermName2), TermOf(in2, in2TermName1), TermOf(in2, in2TermName2))))
      ensures forall i :: |old(rules)| <= i < |rules| ==> fresh(rules[i]) && rules[i].possibility == 0.0
    {
      var cs := [OutVarNamed(outVarName), InVar(in1), InVar(in2),
                 InTerm(in1, in1TermName1), InTerm(in2, in2TermName1),
                 InTerm(in1, in1TermName2), InTerm(in2, in2TermName2), OutTerm(outTermName)];
      o := Run(cs);
      if o.Fail? {
        return;
      }
      assert Passes(cs[3]) && Passes(cs[4]) && Passes(cs[5]) && Passes(cs[6]) && Passes(cs[7]);
      var v1, v2 := inVars[in1], inVars[in2];
      AppendCrossRules(outVar.terms.entries[outTermName], v1, v1.terms.entries[in1TermName1],
                       v1.terms.entries[in1TermName2], v2, v2.terms.entries[in2TermName1],
                       v2.terms.entries[in2TermName2]);
    }

    /** AddRulePermutations with the variables given as objects. */
    method AddRulePermutationsVars(outV: Linguistic, outTermName: string, in1: Linguistic, in1TermName1: string,
                                   in1TermName2: string, in2: Linguistic, in2TermName1: string, in2TermName2: string)
      returns (o: Outcome)
      modifies this
      ensures o == old(Run([OutVarNamed(outV.name), InVar(in1.name), InVar(in2.name),
                            InTerm(in1.name, in1TermName1), InTerm(in2.name, in2TermName1),
                            InTerm(in1.name, in1TermName2), InTerm(in2.name, in2TermName2), OutTerm(outTermName)]))
      ensures o.Fail? ==> rules == old(rules)
      ensures o.Pass? ==> old(Passes(InTerm(in1.name, in1TermName1)) && Passes(InTerm(in2.name, in2TermName1)) &&
                              Passes(InTerm(in1.name, in1TermName2)) && Passes(InTerm(in2.name, in2TermName2)) &&
                              Passes(OutTerm(outTermName))) &&
                          Extends(old(rules), rules, old(CrossSpecs(OutTermOf(outTermName), TermOf(in1.name, in1TermName1),
                            TermOf(in1.name, in1TermName2), TermOf(in2.name, in2TermName1), TermOf(in2.name, in2TermName2))))
      ensures forall i :: |old(rules)| <= i < |rules| ==> fresh(rules[i]) && rules[i].possibility == 0.0
    {
      o := AddRulePermutations(outV.name, outTermName, in1.name, in1TermName1, in1TermName2,
                               in2.name, in2TermName1, in2TermName2);
    }

    /**
     * Assigns each binding's value to the input variable it names, in order. An unknown name
     * fails at once; the bindings before it stay applied.
     */
    method ApplyBindings(bindings: seq<Binding>) returns (o: Outcome)
      modifies inVars.Values
      ensures var n := KnownPrefix(bindings, inVars.Keys);
        (n == |bindings| ==> o == Pass) && (n < |bindings| ==> o == Fail(KeyNotFound(bindings[n].name)))
      ensures forall v :: v in inVars.Values ==>
        v.value == Assigned(bindings[..KnownPrefix(bindings, inVars.Keys)], inVars, v, old(v.value))
      ensures forall v :: v in inVars.Values ==> v.terms == old(v.terms)
    {
      var i := 0;
      while i < |bindings|
        invariant 0 <= i <= |bindings|
        invariant forall j :: 0 <= j < i ==> bindings[j].name in inVars
        invariant forall v :: v in inVars.Values ==> v.value == Assigned(bindings[..i], inVars, v, old(v.value))
        invariant forall v :: v in inVars.Values ==> v.terms == old(v.terms)
      {
        var b := bindings[i];
        if b.name !in inVars {
          assert KnownPrefix(bindings, inVars.Keys) == i;
          return Fail(KeyNotFound(b.name));
        }
        label Assigning:
        var target := inVars[b.name];
        target.value := b.value;
        forall v | v in inVars.Values
          ensures v.value == Assigned(bindings[..i + 1], inVars, v, old(v.value))
        {
          assert bindings[..i + 1][..i] == bindings[..i] && bindings[..i + 1][i] == b;
          if v != target {
            assert v.value == old@Assigning(v.value);
          }
        }
        i := i + 1;
      }
      assert KnownPrefix(bindings, inVars.Keys) == i && bindings[..i] == bindings;
      return Pass;
    }

    /**
     * Evaluates rule i, the step of EvaluateRules: the rule records its strength and raises its
     * consequent's rule-max, and no variable changes.
     */
    method EvaluateRule(i: nat, ghost ts: set<Term>)
      requires i < |rules|
      requires forall j :: 0 <= j < i ==> rules[j].possibility == rules[j].Strength()
      requires forall t :: t in ts ==> t.ruleMax == MaxStrength(rules[..i], t)
      modifies rules[i], rules[i].outTerm
      ensures forall j :: 0 <= j <= i ==> rules[j].possibility == rules[j].Strength()
      ensures forall t :: t in ts ==> t.ruleMax == MaxStrength(rules[..i + 1], t)
      ensures unchanged(AntecedentOwners(rules))
    {
      var rule := rules[i];
      ghost var read: set<object> := AntecedentOwners(rules);
      assert rule !in read && rule.outTerm !in read;
      rule.Calculate();
      StrengthsKept(rules);
      assert AntecedentOwners(rules[..i]) <= AntecedentOwners(rules);
      MaxStrengthKept(rules[..i]);
      assert rules[..i + 1][..i] == rules[..i];
      forall j | 0 <= j <= i
        ensures rules[j].possibility == rules[j].Strength()
      {
        if rules[j] != rule {
          assert rules[j] as object != rule.outTerm as object;
        }
      }
      forall t | t in ts
        ensures t.ruleMax == MaxStrength(rules[..i + 1], t)
      {
        assert t as object != rule as object;
      }
    }

    /**
     * Evaluates every rule in order. Each rule records its strength and raises its consequent's
     * rule-max, so a term of ts that started at 0 ends at the aggregate of the rules asserting it.
     */
    method EvaluateRules(ghost ts: set<Term>)
      requires forall t :: t in ts ==> t.ruleMax == 0.0
      modifies set r | r in rules, set r | r in rules :: r.outTerm
      ensures forall i :: 0 <= i < |rules| ==> rules[i].possibility == rules[i].Strength()
      ensures forall t :: t in ts ==> t.ruleMax == MaxStrength(rules, t)
      ensures forall t :: t in ts ==> t.ruleMax == MaxPossibility(rules, t)
      ensures unchanged(AntecedentOwners(rules))
    {
      var i := 0;
      while i < |rules|
        invariant 0 <= i <= |rules|
        invariant unchanged(AntecedentOwners(rules))
        invariant forall j :: 0 <= j < i ==> rules[j].possibility == rules[j].Strength()
        invariant forall t :: t in ts ==> t.ruleMax == MaxStrength(rules[..i], t)
      {
        EvaluateRule(i, ts);
        i := i + 1;
      }
      assert rules[..i] == rules;
      forall t | t in ts
        ensures t.ruleMax == MaxPossibility(rules, t)
      {
        MaxPossibilityIsMaxStrength(rules, t);
      }
    }

    /** Resets the output terms, then evaluates every rule in order. */
    method Fuzzify()
      requires outVar.terms.Valid()
      modifies outVar.terms.entries.Values
      modifies set r | r in rules, set r | r in rules :: r.outTerm
      ensures outVar.terms == old(outVar.terms)
      ensures forall i :: 0 <= i < |rules| ==> rules[i].possibility == rules[i].Strength()
      ensures forall t :: t in outVar.terms.entries.Values ==> t.ruleMax == MaxPossibility(rules, t)
    {
      outVar.ResetTerms();
      EvaluateRules(outVar.terms.entries.Values);
    }

    /**
     * One inference on the current input values (Execute called without an object): reset the
     * output terms, evaluate the rules in order and defuzzify the output variable.
     */
    method Infer() returns (r: Result<real>)
      requires outVar.terms.Valid()
      modifies outVar, outVar.terms.entries.Values
      modifies set r | r in rules, set r | r in rules :: r.outTerm
      ensures outVar.terms == old(outVar.terms)
      ensures r == Defuzzify(outVar.name, outVar.terms.Profiles())
      ensures forall t :: t in outVar.terms.entries.Values ==> t.ruleMax == MaxPossibility(rules, t)
      ensures outVar !in AntecedentOwners(rules) ==>
        forall i :: 0 <= i < |rules| ==> rules[i].possibility == rules[i].Strength()
      ensures r.Ok? ==> outVar.value == r.value
      ensures r.Err? ==> outVar.value == old(outVar.value)
    {
      Fuzzify();
      label Evaluated:
      r := outVar.Calculate();
      MaxPossibilityKept@Evaluated(rules);
      if outVar !in AntecedentOwners(rules) {
        // Defuzzification writes only the output variable, which no antecedent reads.
        StrengthsKept@Evaluated(rules);
      }
    }

    /**
     * One inference: apply the bindings, then Infer. An unknown name fails before any rule runs:
     * the input variables keep the values assigned up to it, and the output value, the output
     * terms' rule maxima and the rules' possibilities are untouched. A failed defuzzification
     * leaves the output value as the bindings left it. No term table changes.
     */
    method Execute(bindings: seq<Binding>) returns (r: Result<real>)
      requires outVar.terms.Valid()
      modifies inVars.Values, outVar, outVar.terms.entries.Values
      modifies set r | r in rules, set r | r in rules :: r.outTerm
      ensures var n := KnownPrefix(bindings, inVars.Keys);
        n < |bindings| ==> r == Err(KeyNotFound(bindings[n].name))
      ensures forall v :: v in inVars.Values && (v != outVar || r.Err?) ==>
        v.value == Assigned(bindings[..KnownPrefix(bindings, inVars.Keys)], inVars, v, old(v.value))
      ensures forall v :: v in inVars.Values ==> v.terms == old(v.terms)
      ensures outVar.terms == old(outVar.terms)
      ensures KnownPrefix(bindings, inVars.Keys) == |bindings| ==>
        r == Defuzzify(outVar.name, outVar.terms.Profiles()) &&
        (forall t :: t in outVar.terms.entries.Values ==> t.ruleMax == MaxPossibility(rules, t)) &&
        (outVar !in AntecedentOwners(rules) ==>
          forall i :: 0 <= i < |rules| ==> rules[i].possibility == rules[i].Strength())
      ensures r.Ok? ==> outVar.value == r.value
      ensures outVar !in inVars.Values && r.Err? ==> outVar.value == old(outVar.value)
      ensures KnownPrefix(bindings, inVars.Keys) < |bindings| ==>
        (forall i :: 0 <= i < |rules| ==> rules[i].possibility == old(rules[i].possibility)) &&
        (forall t :: t in outVar.terms.entries.Values ==> t.ruleMax == old(t.ruleMax))
    {
      var o := ApplyBindings(bindings);
      if o.Fail? {
        return Err(o.error);
      }
      r := Infer();
    }
  }
}
