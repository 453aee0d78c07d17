# Fuzzy reasoning engine — a verified Dafny model

This project models the Mamdani-style fuzzy inference engine in `Fuzzy/FuzzyRules.cs`. It
has the following parts:

- A **fuzzy term** (`FuzzyTerm`) is a trapezoid membership function given by four breakpoints
  `x1 <= x2 <= x3 <= x4`. A triangle is the special case `x3 = x2`. Each term keeps a rule
  maximum (`RuleMax`), the highest strength of any rule that fired into it.
- A **linguistic variable** (`Linguistic`) has a crisp `Value` and a dictionary of terms. It
  can report how strongly the current value belongs to each term, and it can classify that
  degree with the thresholds 0.685, 0.64 and 0.55. It can also defuzzify:
  - it takes the pointwise maximum of its terms' capped degrees (`Fmax`);
  - it integrates that surface by the trapezoid rule from the least `X1` above `float.MinValue`
    to the greatest `X4` below `float.MaxValue`, with these sentinels as the starting bounds;
  - it stores the centroid as its new `Value`.
- A **fuzzy rule** (`FuzzyRule`) combines the degrees of its input terms. AND takes the
  minimum, starting from 1. OR takes the maximum, starting from 0. The rule stores the
  result as its possibility and raises its output term's `RuleMax` to it.
- A **reasoning** (`Reasoning`) owns an output variable, a dictionary of input variables and
  a list of rules. Its builders look up variables and terms by name and append rules:
  - a binary rule together with its mirror;
  - a unary OR rule;
  - the six pairwise AND rules of four antecedents;
  - the four cross AND rules of two variables with two terms each.

  `Execute` assigns the inputs, resets the output terms, evaluates every rule in order and
  defuzzifies the output variable.

The model has six modules:

- `Errors`: the error kinds the source raises, plus `Result` and `Outcome` values for the error paths.
- `Membership`: the trapezoid degree, capping, `MinX`/`MaxX` and the classification bands.
- `Defuzzification`:
  - the aggregated surface and the scan bounds;
  - the interval count with the source's `(int)` truncation;
  - the trapezoid sums and the centroid with its 0.00001 threshold.
- `Variables`: the classes `Term` and `Linguistic`, and the insertion-ordered term table.
- `Rules`: the AND/OR folds, the class `FuzzyRule`, and the per-term maximum over a rule list.
- `Inference`: the class `Reasoning`, with its rule builders and `Execute`.

Floats are modelled as `real`. Breakpoints are extended reals, so that a term can have
infinite breakpoints. `float.MinValue` and `float.MaxValue` are the finite constants ±3.40282347e38.

## Model

| member | source | states |
|---|---|---|
| Membership.Shape.Degree | Fuzzy/FuzzyRules.cs:51-67 | the degree is in [0,1]; it is 0 at or outside the feet `x1`/`x4` and 1 on the plateau `[x2,x3]` |
| Membership.Shape.RiseIsGrade | Fuzzy/FuzzyRules.cs:58-63 | on the rising side, `(v-x1)/(x2-x1)` (or 1 for an infinite or vertical side) is in [0,1] |
| Membership.Shape.FallIsGrade | Fuzzy/FuzzyRules.cs:64-66 | on the falling side, `(x4-v)/(x4-x3)` (or 1) is in [0,1] |
| Membership.Shape.Capped | Fuzzy/FuzzyRules.cs:72-92 | the capped value is never above the degree; for a non-negative cap it equals `min(degree, RuleMax)` and lies in [0, cap] |
| Membership.Shape.MinX | Fuzzy/FuzzyRules.cs:93-96 | the result is absent (NaN in the source) exactly when all four breakpoints are infinite; otherwise it is one of the breakpoints, and for an ordered term the least finite one |
| Membership.Shape.MaxX | Fuzzy/FuzzyRules.cs:97-100 | the result is absent exactly when all four breakpoints are infinite; otherwise it is one of the breakpoints, and for an ordered term the greatest finite one |
| Membership.RisingSideMonotone | Fuzzy/FuzzyRules.cs:54-63 | for an ordered term, the degree never decreases up to `x2` while below `x4` |
| Membership.FallingSideMonotone | Fuzzy/FuzzyRules.cs:54-66 | for an ordered term, the degree never increases from `x3` on while above `x1` |
| Membership.PositiveExactlyInsideSupport | Fuzzy/FuzzyRules.cs:54-66 | for an ordered term in which no ramp runs from a finite foot to an infinite shoulder (not a finite `x1` with `x2 = +inf`, and not `x3 = -inf` with a finite `x4`), the degree is positive if and only if `x1 < v < x4`; infinite feet and vertical sides are allowed |
| Membership.MinXAtMostMaxX | Fuzzy/FuzzyRules.cs:93-100 | for an ordered term, `MinX <= MaxX` whenever `MinX` exists |
| Membership.Classify | Fuzzy/FuzzyRules.cs:280-297 | every degree falls into exactly one band: totally `>= 0.685`, rather `[0.64, 0.685)`, not really `(0.55, 0.64)`, not at all `<= 0.55` |
| Variables.Raise | Fuzzy/FuzzyRules.cs:21-28 | the accumulator result is at least the old value and at least the new strength, and it is one of the two (monotone maximum) |
| Variables.Term.constructor | Fuzzy/FuzzyRules.cs:122-140 | a new term has the given owner, name and breakpoints, and `RuleMax = 0` |
| Variables.Term.Create | Fuzzy/FuzzyRules.cs:122-140 | the 4-point constructor succeeds if and only if `x1 <= x2 <= x3 <= x4`, and fails with the definition error otherwise; on success the term is fresh with those breakpoints and `RuleMax = 0` |
| Variables.Term.CreateTriangle | Fuzzy/FuzzyRules.cs:109-111 | the 3-point constructor is the 4-point one with `x3 = x2`: it succeeds if and only if `x1 <= x2 <= x3`, and builds the shape `(x1, x2, x2, x3)` |
| Variables.Term.SetRuleMax | Fuzzy/FuzzyRules.cs:21-28 | `RuleMax` becomes `Raise(old RuleMax, strength)` |
| Variables.Term.ResetRuleMax | Fuzzy/FuzzyRules.cs:29-33 | `RuleMax` becomes 0 |
| Variables.TrianglePeak | Fuzzy/FuzzyRules.cs:109-111 | a triangle with distinct feet has degree 1 at its peak |
| Variables.LeftFootPeak | Fuzzy/FuzzyRules.cs:54-55 | a triangle whose peak equals its left foot has degree 0 at the peak, because the `<= X1` test comes first |
| Variables.PutKeepsValid | Fuzzy/FuzzyRules.cs:156-166 | storing a term under a key keeps the table well formed, binds the key, leaves other keys alone, and adds a key to the order only when it is new |
| Variables.Linguistic.constructor | Fuzzy/FuzzyRules.cs:309-314 | a new variable has the given name, value 0 and no terms |
| Variables.Linguistic.Lookup | Fuzzy/FuzzyRules.cs:156-166 | the indexer returns the stored term if and only if the name is present, and otherwise fails with `KeyNotFound(name)` |
| Variables.Linguistic.FindTerm | Fuzzy/FuzzyRules.cs:173-178 | like the indexer, but the missing-key error carries `Variable.Term` |
| Variables.Linguistic.SetTerm | Fuzzy/FuzzyRules.cs:162-165 | the indexer setter stores the term in the table and leaves the value alone |
| Variables.Linguistic.Add | Fuzzy/FuzzyRules.cs:198-201 | adding a 4-point term succeeds if and only if the breakpoints are ordered; on failure the table is unchanged; on success exactly that key is bound to a fresh term with those breakpoints, this owner and `RuleMax = 0`; a table whose terms all belong to this variable, sit under their own names and have `RuleMax = 0` stays so |
| Variables.Linguistic.AddTriangle | Fuzzy/FuzzyRules.cs:186-189 | the same for a 3-point term with the shape `(x1, x2, x2, x3)` |
| Variables.Linguistic.Fmax | Fuzzy/FuzzyRules.cs:207-218 | the loop computes the aggregated surface `Envelope` at x |
| Defuzzification.Envelope | Fuzzy/FuzzyRules.cs:207-218 | the surface is never negative |
| Defuzzification.EnvelopeIsMax | Fuzzy/FuzzyRules.cs:207-218 | the surface is at least every term's capped degree, and it is 0 or equal to one of them |
| Variables.Linguistic.ResetTerms | Fuzzy/FuzzyRules.cs:222-226 | every term of the variable ends with `RuleMax = 0` |
| Variables.Linguistic.ScanBounds | Fuzzy/FuzzyRules.cs:234-245 | the loop computes `LeftBound` and `RightBound` of the term profiles |
| Defuzzification.LeftBound | Fuzzy/FuzzyRules.cs:234-245 | the left bound lies in `(float.MinValue, float.MaxValue]` |
| Defuzzification.RightBound | Fuzzy/FuzzyRules.cs:234-245 | the right bound lies in `[float.MinValue, float.MaxValue)` |
| Defuzzification.LeftBoundIsLeast | Fuzzy/FuzzyRules.cs:240-241 | the left bound is at most every finite `X1` above `float.MinValue`, and it is either one of them or `float.MaxValue` |
| Defuzzification.RightBoundIsGreatest | Fuzzy/FuzzyRules.cs:242-243 | the right bound is at least every finite `X4` below `float.MaxValue`, and it is either one of them or `float.MinValue` |
| Defuzzification.TruncateToInt | Fuzzy/FuzzyRules.cs:247 | the `(int)` cast truncates toward zero, for both signs |
| Defuzzification.Intervals | Fuzzy/FuzzyRules.cs:247 | the interval count is `max((int)(right-left), 10)`: at least 10, and the truncated width when the width is at least 10 |
| Defuzzification.Samples | Fuzzy/FuzzyRules.cs:262-271 | there are `n+1` surface samples, and all are non-negative |
| Defuzzification.SamplesAreSurface | Fuzzy/FuzzyRules.cs:262-271 | sample k is the surface at `left + k*h` |
| Defuzzification.TrapezoidBounds | Fuzzy/FuzzyRules.cs:264-273 | the accumulated area is non-negative, and the moment lies between `(left+h)*area` and `(left+n*h)*area` |
| Defuzzification.Integrate | Fuzzy/FuzzyRules.cs:256-278 | an error is always "no rule applied" with these bounds, and a range with `left >= right` always errs |
| Defuzzification.Centroid | Fuzzy/FuzzyRules.cs:272-277 | the result is an error if and only if F1 (the sum of the mean heights, times `h`) is below 0.00001, and the error names the variable and the bounds |
| Defuzzification.Defuzzify | Fuzzy/FuzzyRules.cs:232-248 | an error names the scan bounds, and when the left bound is not below the right bound the result is always an error |
| Defuzzification.IntegrateWithinRange | Fuzzy/FuzzyRules.cs:256-277 | a successful integration over `left < right` yields a value in `(left, right]` |
| Defuzzification.CentroidWithinScanRange | Fuzzy/FuzzyRules.cs:232-277 | a successful defuzzification yields a value strictly above the left bound and at most the right bound |
| Defuzzification.NothingFiredFails | Fuzzy/FuzzyRules.cs:272-276 | when every term's `RuleMax` is at most 0, defuzzification fails with "no rule applied" |
| Defuzzification.ScanTakesIntervals | Fuzzy/FuzzyRules.cs:264 | for `left < right`, the `x <= right; x += h` loop runs exactly `intervals` times |
| Defuzzification.ScanSkipsReversedRange | Fuzzy/FuzzyRules.cs:264 | for `left > right`, the loop body never runs |
| Defuzzification.ScanNeverEndsOnPointRange | Fuzzy/FuzzyRules.cs:261-264 | for `left == right` the step is 0, and the loop never ends for any amount of fuel |
| Defuzzification.EqualPeaksScanForever | Fuzzy/FuzzyRules.cs:395-402 | a two-term variable with equal peaks has `left == right == 5`: the source loop never ends, and the corrected model reports an error |
| Variables.Linguistic.SampleSums | Fuzzy/FuzzyRules.cs:262-271 | the loop accumulates exactly the trapezoid totals of the sampled surface |
| Variables.Linguistic.CalculateBetween | Fuzzy/FuzzyRules.cs:256-278 | the private calculation returns `Integrate` of the current profiles |
| Variables.Linguistic.Calculate | Fuzzy/FuzzyRules.cs:232-248 | the result is `Defuzzify` of the term profiles; on success `Value` becomes the centroid; on error `Value` is unchanged; the terms are untouched |
| Variables.Linguistic.TermDegree | Fuzzy/FuzzyRules.cs:156-166 | a term's degree at the current value exists if and only if the term exists, and it is in [0,1] |
| Variables.Linguistic.IsTotally | Fuzzy/FuzzyRules.cs:280-283 | the result is `degree >= 0.685`, or the missing-key error |
| Variables.Linguistic.IsRather | Fuzzy/FuzzyRules.cs:284-288 | the result is `0.64 <= degree < 0.685`, or the missing-key error |
| Variables.Linguistic.IsNotReally | Fuzzy/FuzzyRules.cs:289-293 | the result is `0.55 < degree < 0.64`, or the missing-key error |
| Variables.Linguistic.IsNotAtAll | Fuzzy/FuzzyRules.cs:294-297 | the result is `degree <= 0.55`, or the missing-key error |
| Variables.Linguistic.VerdictsPartition | Fuzzy/FuzzyRules.cs:280-297 | for an existing term exactly one of the four verdicts holds; for a missing term all four fail with `KeyNotFound` |
| Variables.Linguistic.TwoTerms | Fuzzy/FuzzyRules.cs:395-402 | the two-term constructor succeeds if and only if the shoulders fit, and builds the left and right shoulder terms; every term of the new variable is new, owned by it, stored under its own name and has `RuleMax = 0` |
| Variables.Linguistic.ThreeTerms | Fuzzy/FuzzyRules.cs:326-334 | the three-term constructor succeeds if and only if the terms fit, and builds the listed shoulder/trapezoid/shoulder shapes; every term is new, owned by the new variable, under its own name and with `RuleMax = 0` |
| Variables.Linguistic.FiveTerms | Fuzzy/FuzzyRules.cs:350-361 | the five-term constructor succeeds if and only if the terms fit, and builds the listed five shapes; every term is new, owned by the new variable, under its own name and with `RuleMax = 0` |
| Variables.Linguistic.SevenTerms | Fuzzy/FuzzyRules.cs:374-386 | the seven-term constructor succeeds if and only if there are at least 12 values and they fit, building the listed seven shapes; a short list fails, with an index error when there are fewer than 2 values and otherwise with whichever error comes first; every term of a built variable is new, owned by it, under its own name and with `RuleMax = 0` |
| Variables.TwoTermsFitExactly | Fuzzy/FuzzyRules.cs:395-402 | the two-term constructor's terms are valid exactly when `max0 <= max1` |
| Variables.ThreeTermsFitExactly | Fuzzy/FuzzyRules.cs:326-334 | the three-term constructor's terms are valid exactly when its four parameters are non-decreasing |
| Variables.FiveTermsFitExactly | Fuzzy/FuzzyRules.cs:350-361 | the five-term constructor's terms are valid exactly when its eight parameters are non-decreasing |
| Variables.SevenTermsFitExactly | Fuzzy/FuzzyRules.cs:374-386 | the seven-term constructor's terms are valid exactly when its twelve parameters are non-decreasing |
| Rules.AndIsMinimum | Fuzzy/FuzzyRules.cs:427-438 | the AND fold from 1 is at most 1 and at most every degree, and it is 1 or one of the degrees |
| Rules.OrIsMaximum | Fuzzy/FuzzyRules.cs:441-452 | the OR fold from 0 is at least 0 and at least every degree, and it is 0 or one of the degrees |
| Rules.CombineIsGrade | Fuzzy/FuzzyRules.cs:421-457 | combining degrees in [0,1] gives a degree in [0,1] |
| Rules.CombineIgnoresOrder | Fuzzy/FuzzyRules.cs:427-452 | AND and OR depend only on the set of degrees, not on their order |
| Rules.DegreesOf | Fuzzy/FuzzyRules.cs:433-447 | the antecedent degrees, one per input term, each in [0,1] |
| Rules.FuzzyRule.StrengthIsGrade | Fuzzy/FuzzyRules.cs:421-457 | a rule's strength is in [0,1] |
| Rules.FuzzyRule.constructor | Fuzzy/FuzzyRules.cs:469-481 | a new rule holds its output variable and term, its inputs and operator, and possibility 0 |
| Rules.FuzzyRule.Unary | Fuzzy/FuzzyRules.cs:458-468 | the unary constructor looks up the output term first and then the input term, fails with the first missing `Variable.Term`, and otherwise builds an OR rule with possibility 0 |
| Rules.FuzzyRule.Binary | Fuzzy/FuzzyRules.cs:469-481 | the binary constructor looks up the output term, then input 1, then input 2, fails with the first missing one, and otherwise builds the rule with the given operator |
| Rules.FuzzyRule.Calculate | Fuzzy/FuzzyRules.cs:421-457 | the possibility becomes the rule's strength, and the output term's `RuleMax` becomes `Raise(old RuleMax, strength)` |
| Rules.UnaryStrength | Fuzzy/FuzzyRules.cs:458-468 | a unary OR rule's strength is its single antecedent's degree |
| Rules.MirrorStrength | Fuzzy/FuzzyRules.cs:640-656 | a rule and its mirror (swapped antecedents) have the same strength |
| Rules.MaxPossibilityIsMaximum | Fuzzy/FuzzyRules.cs:21-28 | the fold of possibilities into a term is non-negative, at least the possibility of every rule asserting the term, and 0 or one of them |
| Rules.MaxPossibilityIsMaxStrength | Fuzzy/FuzzyRules.cs:510-512 | once every rule's possibility is its strength, the two per-term maxima coincide |
| Inference.KnownPrefix | Fuzzy/FuzzyRules.cs:505-507 | the length of the longest prefix of bindings that name known inputs; the binding right after it names an unknown input |
| Inference.AssignedIsLast | Fuzzy/FuzzyRules.cs:505-507 | with sequential assignment, an input ends with the value of the last binding that targets it, or keeps its old value if none does |
| Inference.PairSpecs | Fuzzy/FuzzyRules.cs:532-560 | the rule set is six AND rules, all into the same output term, each with two antecedents |
| Inference.CrossSpecs | Fuzzy/FuzzyRules.cs:669-691 | the permutations are four AND rules, all into the same output term, each with two antecedents |
| Inference.Reasoning.constructor | Fuzzy/FuzzyRules.cs:765-772 | the reasoning has the output variable, two input variables keyed by name, and no rules |
| Inference.Reasoning.Four | Fuzzy/FuzzyRules.cs:781-786 | the same with four input variables |
| Inference.Reasoning.Run | Fuzzy/FuzzyRules.cs:613-629 | the name checks pass if and only if every check passes; otherwise the error is that of the first failing check |
| Inference.Reasoning.AddRule | Fuzzy/FuzzyRules.cs:613-629 | with names in the source's order of checks, either it fails with the first error and nothing is appended, or it appends exactly the rule and its mirror (antecedents swapped), fresh with possibility 0 |
| Inference.Reasoning.AddRuleVars | Fuzzy/FuzzyRules.cs:640-656 | the same, for variables passed as objects and looked up by their names |
| Inference.Reasoning.AddUnaryRule | Fuzzy/FuzzyRules.cs:734-745 | it fails with nothing appended, or it appends exactly one OR rule with the one antecedent |
| Inference.Reasoning.AddUnaryRuleVars | Fuzzy/FuzzyRules.cs:753-764 | the same, for variables passed as objects |
| Inference.Reasoning.AddRuleSet | Fuzzy/FuzzyRules.cs:532-560 | it fails with nothing appended, or it appends exactly the six AND rules for the pairs 12, 13, 14, 23, 24, 34 |
| Inference.Reasoning.AddRuleSetVars | Fuzzy/FuzzyRules.cs:574-602 | the same, for variables passed as objects |
| Inference.Reasoning.AddRulePermutations | Fuzzy/FuzzyRules.cs:669-691 | it fails with nothing appended, or it appends exactly the four AND rules `(t11,t21) (t11,t22) (t12,t21) (t12,t22)` |
| Inference.Reasoning.AddRulePermutationsVars | Fuzzy/FuzzyRules.cs:704-726 | the same, for variables passed as objects |
| Inference.Reasoning.ApplyBindings | Fuzzy/FuzzyRules.cs:503-508 | bindings are applied in order until the first unknown name, which fails with `KeyNotFound`; each input ends with its last assigned value; terms are untouched |
| Inference.Reasoning.EvaluateRules | Fuzzy/FuzzyRules.cs:510-512 | after evaluating all rules in order (from reset terms), every rule's possibility is its strength and every output term's `RuleMax` is the maximum of 0 and the strengths of the rules asserting it |
| Inference.Reasoning.Fuzzify | Fuzzy/FuzzyRules.cs:509-512 | reset and rule evaluation leave each output term's `RuleMax` equal to the maximum possibility of the rules asserting it |
| Inference.Reasoning.Infer | Fuzzy/FuzzyRules.cs:509-517 | the result is `Defuzzify` of the output terms with those rule maxima; on success the output value is the centroid, and on error it is unchanged |
| Inference.Reasoning.Execute | Fuzzy/FuzzyRules.cs:501-518 | an unknown binding fails with its name, before any rule runs: the output terms' `RuleMax`, the rules' possibilities and, unless the output variable is itself an input, the output value keep their old values; inputs get their last bound value (the output variable too when it is an input and the call fails), and no variable's term table changes; otherwise the result is the defuzzified output, with every output term's `RuleMax` = max(0, strengths of the rules asserting it) whenever the output variable is not also an antecedent; a failed defuzzification leaves the output value unchanged |

## Left out

- IEEE single-precision arithmetic is not modelled: values are exact reals. This leaves out
  rounding, overflow to infinity, NaN, the `float.Epsilon` comparisons in the degree (a side narrower than
  `float.Epsilon` is treated like a zero-width side) and the `F1 <= float.Epsilon` / `IsNaN`
  tests, which are subsumed by `F1 < 0.00001` for exact reals.
- The `x += h` float loop of the private `Calculate` is modelled by an integer sample index
  with `x = left + k*h`. Rounding drift of `x` is therefore not captured.
- Defuzzification.TruncateToInt: does not model the overflow of `(int)` for widths beyond
  the 32-bit range.
- `RuleMaxText` and every exception message text are not modelled; errors are kinds with their key or bounds.
- `SetParameters` is not modelled: term breakpoints are constant in this model, and no code in the core calls it.
- The LINQ enumerator of `Linguistic` and the dead `null` checks of the constructors are not modelled.
- The term table keeps the keys in insertion order. `Dictionary` enumeration order is
  unspecified, so the model's order only matters for the maximum and bound folds, and those do
  not depend on it.
- Inference.Reasoning: the input dictionary is fixed at construction, because the core never reassigns it.
- Inference.Reasoning: the output variable is fixed at construction. In the source, `OutVar` is a
  public field that callers can reassign. After such a reassignment, the existing rules still raise
  the terms of the old variable; the model does not capture that.
- Defuzzification.Defuzzify: when no output term has a finite `X1` above `float.MinValue` and none
  has a finite `X4` below `float.MaxValue` (for example a single term `(-inf, 0, 10, +inf)`), the
  scan bounds stay at the sentinels `float.MaxValue` and `float.MinValue`. In single precision,
  `max - min` then overflows to -infinity, so the step `h` is -infinity and the scan loop never
  ends. The model computes with exact reals, finds `left > right` and returns "no rule applied"
  instead.
- `Execute`'s JSON object argument is modelled as a sequence of name/value bindings. The
  `(float)` conversion of each value and the null-object case (an empty sequence) are simplifications.
- The builders append rules made directly from looked-up terms, with the same checks in the
  same order as `FuzzyRule`'s constructors. The rules' recorded input variables are not
  compared by `Matches`; only the output term, the antecedent terms and the operator are.
- Inference.Reasoning.Execute: the statement that every rule's possibility equals its live
  strength after the call holds only when the output variable is not one of the antecedent
  variables. Otherwise defuzzification changes the output value and thus the strengths.
- Inference.Reasoning.Execute: the contract does not describe the `RuleMax` of a rule's output
  term that is no longer in the output variable's table, because the indexer's setter replaced it.
  The rules still raise such a term during inference, as in the source, but only the terms in
  the table are stated.
- Program.cs and the test projects are not part of this model.

## Findings

| source | as written | input that shows it | evidently intended | confidence | as-written member | corrected member |
|---|---|---|---|---|---|---|
| Fuzzy/FuzzyRules.cs:261-264 | when the scan bounds coincide (`left == right`), the step `h` is 0 and `for (x = left + h; x <= right; x += h)` never ends | a two-term variable whose peaks are equal, for example `max0 = max1 = 5`: `left = right = 5` | an empty range integrates to nothing and reports "no rule applied" | not executed | Defuzzification.ScanNeverEndsOnPointRange, Defuzzification.EqualPeaksScanForever | Defuzzification.Defuzzify, Defuzzification.NothingFiredFails |
