/** The values the lexer hands to its caller: tokens and syntax errors. */
module Tokens {

  /** The closed set of token kinds. `None` is the initial value of the
      kind being built and is never returned by the lexer. */
  datatype TokenType =
    | None
    | EndOfFile
    | Identifier
    | Keyword
    | Number
    | String
    | UnaryOperator
    | BinaryOperator
    | Punctuation

  /** One token: its kind, its (decoded) text and the line it was reported on. */
  datatype Token = Token(kind: TokenType, text: string, line: int)

  /** The syntax error the lexer raises for a malformed string literal. */
  datatype SyntaxError = SyntaxError(line: int, message: string)

  /** A call either yields a value or fails with a syntax error. */
  datatype Result<T> = Ok(value: T) | Err(error: SyntaxError)
}
