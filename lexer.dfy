/** The lexer object: the source text, a scan offset, a line counter and an
    end flag, advanced by one token per call. */
module CoolLexer {
  import opened Tokens
  import opened LexerTables
  import opened Scanning

  class Lexer {
    const code: string
    var currentPos: nat
    var currentLine: int
    var reachedEnd: bool

    /** The lexer's state as a value. */
    function State(): Scanner
      reads this
    {
      Scanner(code, currentPos, currentLine, reachedEnd)
    }

    ghost predicate Valid()
      reads this
    {
      State().Valid()
    }

    /** A lexer over `theCode`, at its start on line 1; the end flag is up at
        once when the text is empty. */
    constructor (theCode: string)
      ensures Valid() && State() == Initial(theCode)
    {
      code := theCode;
      currentPos := 0;
      currentLine := 1;
      reachedEnd := false;
      if |theCode| == 0 {
        reachedEnd := true;
      }
    }

    /** The character under the cursor, or '\0' past the end. */
    function CurrentChar(): char
      reads this
    {
      CharAt(code, currentPos)
    }

    /** Scans the next token. The token, or the syntax error, is the one
        `Step` gives for the state before the call, and after a token the new
        state is the one `Step` gives; after an error only the invariant is
        promised. */
    method NextToken() returns (r: Result<Token>)
      requires Valid()
      modifies this
      ensures Valid()
      ensures match Step(old(State()))
        case Ok(l) => r == Ok(l.token) && State() == l.next
        case Err(e) => r == Err(e)
    {
      if currentPos == |code| {
        reachedEnd := true;
      }
      if !reachedEnd {
        SkipWhiteSpace();
      }
      if reachedEnd {
        r := Ok(Token(EndOfFile, "", currentLine));
      } else if IsAlNum(CurrentChar()) {
        var token := ScanName();
        r := Ok(token);
      } else if CurrentChar() == '"' || CurrentChar() == '\'' {
        r := ScanQuoted();
      } else {
        var token := ScanOperator();
        r := Ok(token);
      }
    }

    /** The white-space loop: skips white space from the cursor, counting line
        feeds, and raises the end flag if it runs off the end of the text. */
    method SkipWhiteSpace()
      requires Valid() && !reachedEnd && currentPos < |code|
      modifies this`currentPos, this`currentLine, this`reachedEnd
      ensures Valid()
      ensures SkipSpace(code, old(currentPos), old(currentLine)) == Skipped(currentPos, currentLine, reachedEnd)
    {
      ghost var skipped := SkipSpace(code, currentPos, currentLine);
      while IsWhiteSpace(code[currentPos]) || CurrentChar() == '\r' || CurrentChar() == '\n'
        invariant currentPos < |code| && !reachedEnd
        invariant old(currentLine) <= currentLine
        invariant SkipSpace(code, currentPos, currentLine) == skipped
        decreases |code| - currentPos
      {
        if CurrentChar() == '\n' {
          currentLine := currentLine + 1;
        }
        currentPos := currentPos + 1;
        if currentPos == |code| {
          reachedEnd := true;
          assert skipped == Skipped(currentPos, currentLine, true);
          return;
        }
      }
    }

    /** The name-or-number branch: a run of letters, digits and underscores
        (and dots, in a number), classified by its first character and by the
        keyword table. */
    method ScanName() returns (token: Token)
      requires Valid() && !reachedEnd && currentPos < |code| && IsAlNum(code[currentPos])
      modifies this`currentPos
      ensures NameToken(code, old(currentPos), currentLine) == Lexed(token, old(currentPos), State())
    {
      ghost var start := currentPos;
      var doing := if IsDigit(code[currentPos]) then Number else Identifier;
      ghost var isNumber := doing == Number;
      var tokenValue := [CurrentChar()];
      currentPos := currentPos + 1;
      while currentPos < |code| && (IsAlNum(CurrentChar()) || (doing == Number && CurrentChar() == '.'))
        invariant start < currentPos <= |code|
        invariant tokenValue == code[start..currentPos]
        invariant NameEnd(code, currentPos, isNumber) == NameEnd(code, start + 1, isNumber)
        decreases |code| - currentPos
      {
        assert code[start..currentPos + 1] == code[start..currentPos] + [code[currentPos]];
        tokenValue := tokenValue + [CurrentChar()];
        currentPos := currentPos + 1;
      }
      if tokenValue in KEYWORDS {
        doing := Keyword;
      }
      token := Token(doing, tokenValue, currentLine);
    }

    /** The string branch: decodes the literal opened by the quote under the
        cursor, up to the same quote, or fails on the two string faults. */
    method ScanQuoted() returns (r: Result<Token>)
      requires Valid() && !reachedEnd && currentPos < |code|
      requires code[currentPos] == '"' || code[currentPos] == '\''
      modifies this`currentPos
      ensures Valid()
      ensures match StringToken(code, old(currentPos), currentLine)
        case Ok(l) => r == Ok(l.token) && State() == l.next
        case Err(e) => r == Err(e)
    {
      ghost var start := currentPos;
      var stringStart := CurrentChar();
      var tokenValue := "";
      ghost var scanned := ScanString(code, currentPos + 1, stringStart);
      while true
        invariant start <= currentPos < |code|
        invariant Prefixed(tokenValue, ScanString(code, currentPos + 1, stringStart)) == scanned
        decreases |code| - currentPos
      {
        currentPos := currentPos + 1;
        if currentPos >= |code| {
          return Err(SyntaxError(currentLine, "unfinished string"));
        } else if CurrentChar() == stringStart {
          currentPos := currentPos + 1;
          assert tokenValue + "" == tokenValue;
          break;
        } else if CurrentChar() == '\\' {
          currentPos := currentPos + 1;
          var escaped := CurrentChar();
          if escaped in ESCAPE_CHARS {
            PrefixedTwice(tokenValue, [ESCAPE_CHARS[escaped]], ScanString(code, currentPos + 1, stringStart));
            tokenValue := tokenValue + [ESCAPE_CHARS[escaped]];
          } else {
            return Err(SyntaxError(currentLine, "invalid escape sequence"));
          }
        } else {
          PrefixedTwice(tokenValue, [CurrentChar()], ScanString(code, currentPos + 1, stringStart));
          tokenValue := tokenValue + [CurrentChar()];
        }
      }
      r := Ok(Token(String, tokenValue, currentLine));
    }

    /** The operator branch: one character, extended while the last character
        taken and the next one form an operator group. */
    method ScanOperator() returns (token: Token)
      requires Valid() && !reachedEnd && currentPos < |code|
      modifies this`currentPos
      ensures OperatorToken(code, old(currentPos), currentLine) == Lexed(token, old(currentPos), State())
    {
      ghost var start := currentPos;
      var tokenValue := [CurrentChar()];
      currentPos := currentPos + 1;
      assert tokenValue == code[start..currentPos];
      SentinelIsInert(code, |code|);
      while IsGroup(code[currentPos - 1], CurrentChar())
        invariant start < currentPos <= |code|
        invariant tokenValue == code[start..currentPos]
        invariant OpEnd(code, currentPos) == OpEnd(code, start + 1)
        decreases |code| - currentPos
      {
        assert code[start..currentPos + 1] == code[start..currentPos] + [code[currentPos]];
        tokenValue := tokenValue + [CurrentChar()];
        currentPos := currentPos + 1;
      }
      token := Token(ClassifyOperator(tokenValue), tokenValue, currentLine);
    }
  }
}
