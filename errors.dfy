/** The exceptions the fuzzy engine raises, and the result types that carry them. */
module Errors {

  /** One constructor per kind of exception the engine throws. */
  datatype Error =
      /** A term whose breakpoints are not ordered x1 <= x2 <= x3 <= x4. */
    | InvalidTermDefinition
      /** A name lookup missed: a term, an input variable, or a non-local output variable. */
    | KeyNotFound(key: string)
      /** The breakpoint list handed to the seven-term variable builder is too short. */
    | IndexOutOfRange
      /** Defuzzification found (almost) no area under the aggregated output surface. */
    | NoRuleFired(variable: string, left: real, right: real)

  datatype Result<+T> = Ok(value: T) | Err(error: Error)

  datatype Outcome = Pass | Fail(error: Error)

  datatype Option<+T> = None | Some(value: T)
}
