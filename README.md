# CoolScript lexer

This project models and verifies the tokenizer of the CoolScript interpreter, the `Lexer` class in `CoolLanguage/Lexer.cs`. The lexer holds the source text, a scan offset, a line counter and an end flag. Each call of `nextToken` does three things:

- skips white space and counts line feeds;
- scans one token: a name or number run, a quoted string with escapes, or an operator or punctuation run;
- classifies the token:
  - a name in the keyword table is a Keyword;
  - an operator run is a UnaryOperator, BinaryOperator or Punctuation, by the two operator predicates.

Two other tables do not decide a kind: the operator-group table decides where an operator run ends, and the escape table decodes string bodies.

When the text runs out, each call yields an end-of-file token.

The project has five modules:

- `Tokens` (`tokens.dfy`): the token kinds, tokens, syntax errors and a `Result` type. The error type stands in for the thrown `SyntaxErrorException`.
- `LexerTables` (`tables.dfy`): the three tables, the character predicates `isNameChar` and `isAlNum`, the operator predicates, and the `currentChar` sentinel read.
- `Scanning` (`scanning.dfy`): a pure specification of one call.
  - The lexer's state is a value (`Scanner`). `Step` gives the token or error of one call, and the state the call leaves.
  - Each loop of `nextToken` has a recursive function whose contract describes the run of characters it eats: `SkipSpace`, `NameEnd`, `ScanString` and `OpEnd`.
  - `Tokenize` is the whole token stream.
- `CoolLexer` (`lexer.dfy`): the `Lexer` class itself.
  - Its fields are updated in place, as in the source.
  - `NextToken` keeps the branch structure of `nextToken`. Each of its loops is a helper method with its own invariants.
  - `NextToken` is proved to do what `Step` specifies.
- `LexerProperties` (`properties.dfy`): what the lexer promises, proved about `Step` and the scanning functions:
  - the end-of-file behaviour;
  - line counting;
  - the shape of name, number, string and operator tokens;
  - the string faults;
  - a round trip through string escaping.

## Model

| member | source | states |
|---|---|---|
| `CoolLexer.Lexer.constructor` | CoolLanguage/Lexer.cs:83-90 | A new lexer starts at offset 0 on line 1, with the end flag up exactly when the text is empty. |
| `CoolLexer.Lexer.NextToken` | CoolLanguage/Lexer.cs:97-199 | One call yields exactly the token or syntax error that `Step` gives for the state before the call. After a token, the fields are exactly `Step`'s new state. The state invariant (offset within the text, line at least 1, end flag only at the end) is kept. |
| `CoolLexer.Lexer.SkipWhiteSpace` | CoolLanguage/Lexer.cs:113-126 | The white-space loop stops where `SkipSpace` says, with the line counter and end flag `SkipSpace` gives. |
| `CoolLexer.Lexer.ScanName` | CoolLanguage/Lexer.cs:130-144 | The name loop consumes up to `NameEnd`. The token text is the consumed slice. The kind is Keyword for a reserved word, otherwise Number or Identifier by the first character. |
| `CoolLexer.Lexer.ScanQuoted` | CoolLanguage/Lexer.cs:145-184 | The string loop yields the token or fault `ScanString` gives. After a token, the offset is just past the closing quote. |
| `CoolLexer.Lexer.ScanOperator` | CoolLanguage/Lexer.cs:185-194 | The operator loop consumes up to `OpEnd`. The text is the consumed slice, classified as unary operator, binary operator or punctuation. |
| `LexerTables.IsNameChar` | CoolLanguage/Lexer.cs:32-35 | A name character (a letter or the underscore) is never a digit, so a run's first character decides between number and name. |
| `LexerTables.IsAlNum` | CoolLanguage/Lexer.cs:37-40 | A name or number character is never white space, a quote, a backslash, a dot or the '\0' sentinel, so the branches of `nextToken` never overlap. |
| `LexerTables.IsBinaryOperator` | CoolLanguage/Lexer.cs:42-53 | Every binary operator spelling is one or two characters long, and "!" is not one of them. |
| `LexerTables.IsUnaryOperator` | CoolLanguage/Lexer.cs:55-63 | The unary spelling is not a binary one, so the nesting order of the two tests at line 193 does not matter. It is also a single character. |
| `LexerTables.CharAt` | CoolLanguage/Lexer.cs:92-95 | At or past the end, the character read is a sentinel that is no escape character and is the second character of no operator group. So the reads at lines 169 and 191 end the string and operator loops there. |
| `LexerTables.SentinelIsInert` | CoolLanguage/Lexer.cs:92-95 | The '\0' read past the end of the text closes no operator group and is no escape character. So the reads at lines 169 and 191 cannot run on past the end. |
| `LexerTables.GroupsAreBinaryOperators` | CoolLanguage/Lexer.cs:42-74 | Every operator group is two characters long and is itself a binary operator spelling. |
| `LexerTables.KeywordsStartWithLetters` | CoolLanguage/Lexer.cs:9-22 | Every keyword starts with a letter, so no number token is ever a keyword. |
| `Scanning.Initial` | CoolLanguage/Lexer.cs:83-90 | A fresh state is valid, at offset 0 on line 1, with the end flag up exactly when the text is empty. |
| `Scanning.SkipSpace` | CoolLanguage/Lexer.cs:113-126 | The white-space loop moves forward over skipped characters only. It stops on the first non-skipped character, or reports the end exactly when it reaches the end of the text. The line counter never drops. |
| `Scanning.NameEnd` | CoolLanguage/Lexer.cs:134-138 | The run ends at the first character that does not continue a name. Dots continue a number. Every character before that point continues the run. |
| `Scanning.ScanString` | CoolLanguage/Lexer.cs:153-183 | A closed literal ends just past a delimiter within the text. |
| `Scanning.OpEnd` | CoolLanguage/Lexer.cs:187-191 | The operator run ends at the first adjacent pair that is not an operator group. Every pair inside the run is a group. |
| `Scanning.ClassifyOperator` | CoolLanguage/Lexer.cs:193 | An operator run is a UnaryOperator exactly when it is "!", a BinaryOperator exactly when it is a binary spelling, and Punctuation otherwise. |
| `Scanning.NameToken` | CoolLanguage/Lexer.cs:130-144 | A name or number token consumes at least one character. Its text is the consumed slice, and its kind is Keyword, Number or Identifier. |
| `Scanning.StringToken` | CoolLanguage/Lexer.cs:145-184 | A string token consumes at least both quotes and ends on the quote that opened it. A fault carries the current line and one of the two messages "unfinished string" and "invalid escape sequence". |
| `Scanning.OperatorToken` | CoolLanguage/Lexer.cs:185-194 | An operator token consumes at least one character. Its text is the consumed slice, and its kind is UnaryOperator, BinaryOperator or Punctuation. |
| `Scanning.ScanToken` | CoolLanguage/Lexer.cs:128-195 | A token starts where the scan stands and moves the offset forward. It keeps the line and is never None or EndOfFile. A non-string token's text is exactly the consumed slice. Only a string literal can fail, and its error carries the current line. |
| `Scanning.Step` | CoolLanguage/Lexer.cs:97-199 | The offset never goes back and stays in bounds, and the line never drops. The end flag is raised exactly with an end-of-file token, which is empty and sits at the end of the text. A non-end token consumes at least one character. Once the end flag is up, the call yields end-of-file. Every non-end call decreases a measure. |
| `Scanning.Tokenize` | CoolLanguage/Lexer.cs:97-199 | Asking for tokens until end-of-file terminates from every state. The stream ends with exactly one end-of-file token. |
| `LexerProperties.EmptySourceEndsAtOnce` | CoolLanguage/Lexer.cs:86-89 | An empty text yields an empty end-of-file token on line 1 and leaves the state unchanged. |
| `LexerProperties.EndIsIdempotent` | CoolLanguage/Lexer.cs:107-110 | Once the end flag is up, every call yields the same empty end-of-file token and changes nothing. |
| `LexerProperties.AtEndRaisesFlag` | CoolLanguage/Lexer.cs:102-105 | A call made with the offset at the end of the text raises the end flag and yields end-of-file. |
| `LexerProperties.SkipSpaceCountsLines` | CoolLanguage/Lexer.cs:113-118 | The white-space loop adds to the line counter exactly the number of line feeds it skips. |
| `LexerProperties.StepCountsLines` | CoolLanguage/Lexer.cs:113-126 | Only skipped characters come before the token. The line grows by exactly the line feeds among them. Nothing inside a token, not even a raw line feed in a string, moves the counter. |
| `LexerProperties.NameTokenShape` | CoolLanguage/Lexer.cs:130-144 | A name or number token is the maximal run and is taken verbatim. It is a Number iff it starts with a digit, a Keyword iff its text is reserved, and an Identifier otherwise. |
| `LexerProperties.NumberTakesEveryDot` | CoolLanguage/Lexer.cs:132-138 | "1.5.5" is a single Number token. So is "1..10": the dot rule also takes the ".." operator, so the lexer does not yield Number, BinaryOperator, Number. |
| `LexerProperties.PlainRunCopied` | CoolLanguage/Lexer.cs:178-182 | Characters that are neither the delimiter nor a backslash are copied into the decoded text unchanged. |
| `LexerProperties.DecodedHasNoBackslash` | CoolLanguage/Lexer.cs:166-177 | A decoded string never holds a backslash, because no escape stands for one. |
| `LexerProperties.ClosedStringShape` | CoolLanguage/Lexer.cs:145-165 | A plain body closed by the same quote is one String token. Its text is the body without the quotes, and the offset ends just past the closing quote. The other kind of quote is plain inside it. |
| `LexerProperties.BodyPassesFault` | CoolLanguage/Lexer.cs:153-183 | A well-formed piece of a literal passes on what follows it. The piece is plain characters other than the delimiter and the backslash, and escapes from the table. If the literal is closed after the piece, it is closed and ends at the same place. A fault after the piece is the fault of the whole literal. |
| `LexerProperties.UnfinishedStringFails` | CoolLanguage/Lexer.cs:157-160 | Running out of text after any well-formed body, including one with valid escapes, fails with "unfinished string" on the current line. |
| `LexerProperties.InvalidEscapeFails` | CoolLanguage/Lexer.cs:166-176 | After any well-formed body, a backslash followed by the end of the text, or by a character outside the escape table, fails with "invalid escape sequence" on the current line. |
| `LexerProperties.FaultsHaveShape` | CoolLanguage/Lexer.cs:153-183 | Conversely, a closed literal is a well-formed body followed by its delimiter. An unfinished literal is well formed up to the end of the text. A bad escape is a backslash, not followed by an escape character, after a well-formed piece. |
| `LexerProperties.EscapeCharStep` | CoolLanguage/Lexer.cs:166-172 | A quote or line feed written as its escape decodes back to that character. Any other character, except a backslash, decodes to itself. |
| `LexerProperties.ScanEscaped` | CoolLanguage/Lexer.cs:153-183 | The escaped form of any backslash-free text, followed by the delimiter, decodes back to that text. It ends just past the delimiter. |
| `LexerProperties.EscapedLiteralScans` | CoolLanguage/Lexer.cs:145-184 | A literal whose body is the escaped form of a text lexes to a String token with that text. |
| `LexerProperties.StringRoundTrip` | CoolLanguage/Lexer.cs:145-184 | Any backslash-free text, escaped and placed between two quotes of either kind, lexes back to a String token with that text, whatever follows. |
| `LexerProperties.EscapedQuoteDecodes` | CoolLanguage/Lexer.cs:166-172 | The literal `"\""` is the one-character string holding a double quote. |
| `LexerProperties.OperatorTokenShape` | CoolLanguage/Lexer.cs:185-194 | An operator token always succeeds and is taken verbatim. Every adjacent pair in it is an operator group, and it stops at the first pair that is not. It is a UnaryOperator iff it is "!", a BinaryOperator iff it is a binary spelling, and Punctuation otherwise. |
| `LexerProperties.PairsAreBinaryOperators` | CoolLanguage/Lexer.cs:187-193 | A two-character operator token is always a BinaryOperator. |
| `LexerProperties.TripleEqualsIsOneToken` | CoolLanguage/Lexer.cs:187-193 | "===" is a single Punctuation token, because the pairwise grouping chains. |
| `LexerProperties.AndIsOneBinaryOperator` | CoolLanguage/Lexer.cs:187-193 | "&&" followed by a space is one BinaryOperator token, not two "&" tokens. |

## Left out

- Character classes: `char.IsLetter`, `char.IsDigit` and `char.IsWhiteSpace` are .NET library calls with Unicode semantics. The model uses their ASCII parts instead:
  - letters `a`-`z` and `A`-`Z`;
  - digits `0`-`9`;
  - white space: space, tab, line feed, vertical tab, form feed and carriage return.
- Text units: a model string is a sequence of Unicode scalar values, while the source's `string`, `char` and `currentPos` work in UTF-16 code units.
  - Offsets here count scalar values, not code units.
  - A character outside the Basic Multilingual Plane is one Punctuation token here, but two in the source, one per surrogate half.
  - Lone surrogates cannot be represented.
- Exceptions: `SyntaxErrorException` is not part of this model. A thrown error is an `Err` value carrying the line and message.
- CoolLexer.Lexer.NextToken: after a syntax error, the contract promises only the state invariant, not the offset the source leaves behind, because the lexer is not meant to be used after it throws.
- `Peek` (lines 201-204): left out, because it is never called.
- Debugging output: the commented-out `Console.WriteLine` lines are left out, because they are I/O only.
- The `Token` and `TokenType` types are used by the lexer but not defined in `Lexer.cs`. The model's versions are written from how the lexer uses them.
- Operator grouping: the operator loop chains pairs. After `==`, a further `=` forms a group with the last `=`, so `===`, `!==` and `<==` are single Punctuation tokens, as `TripleEqualsIsOneToken` shows.
- End flag: after a token that ends exactly at the end of the text, the offset is at the end but the flag stays down until the next call. So the invariant is only "flag up ⇒ offset at the end".
- Raw line feeds inside a string literal are copied into the text and do not advance the line counter. Later tokens therefore report an earlier line, as the code does.
- `tokenValue` and the `do`/`while` loops: the name and operator loops take their first character before the loop, which is the `do` body run once. The string loop's decoded text is a local sequence. The loops are separate helper methods of the class rather than one body.
