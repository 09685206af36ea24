/** The error kinds the dice calculator reports, and the value-or-error type
    every fallible step returns in place of an exception. */
module Outcomes {
  import opened Tokens

  /** One constructor per `RuntimeException` (or `NumberFormatException`) the
      calculator can throw; the payload is the fragment its message names. */
  datatype Error =
    | EmptyRequest                          // nothing left to tokenize
    | UnaryOperator(sign: char)             // `+` or `-` before any token
    | UnexpectedCharacter(c: char)          // a character the tokenizer does not know
    | UnexpectedOperator(op: string)        // an operator where a term should start
    | UnexpectedEnd                         // end of the stream where a term should start
    | MissingOperator(kind: TokenType)      // two operands with no operator between them
    | UnsupportedOperator(op: string)       // an operator token other than `+` or `-`
    | NotANumber(digits: string)            // `toInt` rejected the string
    | IncorrectMultiplier(multiplier: int)  // dice count outside [1, 1000]
    | IncorrectFaces(faces: int)            // face count outside [1, 1000]
    | UnsupportedNumber(number: int)        // constant outside [1, 1000]

  datatype Outcome<+T> = Ok(value: T) | Fail(error: Error)
}
