/** What the lexer promises, proved about the specification of one call. */
module LexerProperties {
  import opened Tokens
  import opened LexerTables
  import opened Scanning

  // ---------------------------------------------------------------- the end of the text

  /** A lexer over the empty text starts with the end flag up, and its first
      call yields an empty end-of-file token on line 1 and leaves the state as
      it was (so every later call yields the same). */
  lemma EmptySourceEndsAtOnce()
    ensures Initial("").reachedEnd
    ensures Step(Initial("")) == Ok(Lexed(Token(EndOfFile, "", 1), 0, Initial("")))
  {
  }

  /** Once the end flag is up, a call yields an empty end-of-file token on the
      current line and changes nothing. */
  lemma EndIsIdempotent(s: Scanner)
    requires s.Valid() && s.reachedEnd
    ensures Step(s) == Ok(Lexed(Token(EndOfFile, "", s.line), s.pos, s))
  {
  }

  /** A call made when the offset is already at the end of the text raises
      the end flag, whether or not it was up before. */
  lemma AtEndRaisesFlag(s: Scanner)
    requires s.Valid() && s.pos == |s.code|
    ensures Step(s) == Ok(Lexed(Token(EndOfFile, "", s.line), s.pos, s.(reachedEnd := true)))
  {
  }

  // ---------------------------------------------------------------- line counting

  /** The white-space loop adds to the line counter exactly the number of line
      feeds it skips. */
  lemma {:induction false} SkipSpaceCountsLines(code: string, pos: nat, line: int)
    requires pos < |code|
    decreases |code| - pos
    ensures var r := SkipSpace(code, pos, line);
      r.line == line + Newlines(code[pos..r.pos])
  {
    var r := SkipSpace(code, pos, line);
    if IsSkipped(code[pos]) {
      var line' := if code[pos] == '\n' then line + 1 else line;
      if pos + 1 == |code| {
        assert code[pos..r.pos][1..] == [];
      } else {
        SkipSpaceCountsLines(code, pos + 1, line');
        assert code[pos..r.pos][1..] == code[pos + 1..r.pos];
      }
    }
  }

  /** A call only skips white space before its token, and the line counter
      grows by exactly the line feeds among it; nothing inside a token (a raw
      line feed in a string literal included) moves the counter, so the token
      is reported on the line where it starts. */
  lemma StepCountsLines(s: Scanner)
    requires s.Valid()
    ensures Step(s).Ok? ==>
      var l := Step(s).value;
      (forall j :: s.pos <= j < l.start ==> IsSkipped(s.code[j])) &&
      l.next.line == s.line + Newlines(s.code[s.pos..l.start]) &&
      l.token.line == l.next.line
  {
    if !s.reachedEnd && s.pos < |s.code| {
      SkipSpaceCountsLines(s.code, s.pos, s.line);
    }
  }

  // ---------------------------------------------------------------- names and numbers

  /** A token that starts with a letter, digit or underscore is the maximal
      run of name characters from there (dots included when it starts with a
      digit), taken verbatim; it is a number exactly when its first character
      is a digit, a keyword exactly when its text is reserved, and an
      identifier otherwise. */
  lemma NameTokenShape(code: string, pos: nat, line: int)
    requires pos < |code| && IsAlNum(code[pos])
    ensures ScanToken(code, pos, line).Ok?
    ensures var l := ScanToken(code, pos, line).value;
      var e := l.next.pos;
      var isNumber := IsDigit(code[pos]);
      pos < e <= |code| && l.token.text == code[pos..e] &&
      (forall j :: pos < j < e ==> ContinuesName(code[j], isNumber)) &&
      (e == |code| || !ContinuesName(code[e], isNumber)) &&
      (l.token.kind == Number <==> isNumber) &&
      (l.token.kind == Keyword <==> l.token.text in KEYWORDS) &&
      (l.token.kind == Identifier <==> !isNumber && l.token.text !in KEYWORDS)
  {
    KeywordsStartWithLetters();
    var l := ScanToken(code, pos, line).value;
    var isNumber := IsDigit(code[pos]);
    assert l.token.text[0] == code[pos];
    forall j | pos < j < l.next.pos
      ensures ContinuesName(code[j], isNumber)
    {
      assert ContinuesNameAt(code, j, isNumber);
    }
  }

  /** A number takes every dot it meets: "1.5.5" is one number token, and so
      is "1..10", whose dots are not read as the range operator. */
  lemma NumberTakesEveryDot()
    ensures ScanToken("1.5.5", 0, 1) == Ok(Lexed(Token(Number, "1.5.5", 1), 0, Scanner("1.5.5", 5, 1, false)))
    ensures ScanToken("1..10", 0, 1) == Ok(Lexed(Token(Number, "1..10", 1), 0, Scanner("1..10", 5, 1, false)))
  {
    var code := "1.5.5";
    assert NameEnd(code, 5, true) == 5;
    assert NameEnd(code, 4, true) == 5;
    assert NameEnd(code, 3, true) == 5;
    assert NameEnd(code, 2, true) == 5;
    assert NameEnd(code, 1, true) == 5;
    assert code[0..5] == code;
    var range := "1..10";
    assert NameEnd(range, 5, true) == 5;
    assert NameEnd(range, 4, true) == 5;
    assert NameEnd(range, 3, true) == 5;
    assert NameEnd(range, 2, true) == 5;
    assert NameEnd(range, 1, true) == 5;
    assert range[0..5] == range;
  }

  // ---------------------------------------------------------------- string literals

  /** A run of characters that are neither the delimiter nor a backslash is
      copied into the decoded text as it stands. */
  lemma {:induction false} PlainRunCopied(code: string, i: nat, k: nat, delim: char)
    requires i <= k <= |code|
    requires forall j :: i <= j < k ==> code[j] != delim && code[j] != '\\'
    decreases k - i
    ensures ScanString(code, i, delim) == Prefixed(code[i..k], ScanString(code, k, delim))
  {
    if i == k {
      var rest := ScanString(code, k, delim);
      if rest.Closed? {
        assert code[i..k] + rest.text == rest.text;
      }
    } else {
      PlainRunCopied(code, i + 1, k, delim);
      PrefixedTwice([code[i]], code[i + 1..k], ScanString(code, k, delim));
      assert [code[i]] + code[i + 1..k] == code[i..k];
    }
  }

  /** The decoded text of a string literal never holds a backslash: there is
      no escape that stands for one. */
  lemma {:induction false} DecodedHasNoBackslash(code: string, i: nat, delim: char)
    decreases |code| - i
    ensures ScanString(code, i, delim).Closed? ==> '\\' !in ScanString(code, i, delim).text
  {
    if i < |code| && code[i] != delim {
      if code[i] == '\\' {
        var e := CharAt(code, i + 1);
        if e in ESCAPE_CHARS {
          DecodedHasNoBackslash(code, i + 2, delim);
        }
      } else {
        DecodedHasNoBackslash(code, i + 1, delim);
      }
    }
  }

  /** A literal whose body is plain characters up to the opening quote again
      is one string token: its text is the body, without either quote, and the
      offset moves past the closing quote. The other kind of quote is plain. */
  lemma ClosedStringShape(code: string, pos: nat, k: nat, line: int)
    requires pos < k < |code| && (code[pos] == '"' || code[pos] == '\'')
    requires forall j :: pos < j < k ==> code[j] != code[pos] && code[j] != '\\'
    requires code[k] == code[pos]
    ensures ScanToken(code, pos, line)
      == Ok(Lexed(Token(String, code[pos + 1..k], line), pos, Scanner(code, k + 1, line, false)))
  {
    PlainRunCopied(code, pos + 1, k, code[pos]);
    assert code[pos + 1..k] + "" == code[pos + 1..k];
  }

  /** Whether `code[i..k]` is a well-formed piece of a literal opened by
      `delim`: characters other than the delimiter and the backslash, and
      escapes from the table. */
  predicate WellFormedBody(code: string, i: nat, k: nat, delim: char)
    decreases k - i
  {
    i == k ||
    (i < k <= |code| && code[i] != delim &&
     if code[i] == '\\' then
       i + 1 < k && code[i + 1] in ESCAPE_CHARS && WellFormedBody(code, i + 2, k, delim)
     else
       WellFormedBody(code, i + 1, k, delim))
  }

  /** A well-formed piece of a literal passes on whatever stops the scan
      after it: a literal that is closed after it is closed, and a fault after
      it is the fault of the whole literal. */
  lemma {:induction false} BodyPassesFault(code: string, i: nat, k: nat, delim: char)
    requires WellFormedBody(code, i, k, delim)
    decreases k - i
    ensures ScanString(code, k, delim).Closed? ==>
      ScanString(code, i, delim).Closed? && ScanString(code, i, delim).end == ScanString(code, k, delim).end
    ensures !ScanString(code, k, delim).Closed? ==> ScanString(code, i, delim) == ScanString(code, k, delim)
  {
    if i != k {
      if code[i] == '\\' {
        assert CharAt(code, i + 1) == code[i + 1];
        BodyPassesFault(code, i + 2, k, delim);
      } else {
        BodyPassesFault(code, i + 1, k, delim);
      }
    }
  }

  /** Running out of text before the closing quote fails with "unfinished
      string", after any number of plain characters and valid escapes. */
  lemma UnfinishedStringFails(code: string, pos: nat, line: int)
    requires pos < |code| && (code[pos] == '"' || code[pos] == '\'')
    requires WellFormedBody(code, pos + 1, |code|, code[pos])
    ensures ScanToken(code, pos, line) == Err(SyntaxError(line, "unfinished string"))
  {
    BodyPassesFault(code, pos + 1, |code|, code[pos]);
  }

  /** A backslash followed by anything but a quote or 'n', or by the end of
      the text, fails with "invalid escape sequence", after any number of
      plain characters and valid escapes. */
  lemma InvalidEscapeFails(code: string, pos: nat, k: nat, line: int)
    requires pos < k < |code| && (code[pos] == '"' || code[pos] == '\'')
    requires WellFormedBody(code, pos + 1, k, code[pos])
    requires code[k] == '\\' && (k + 1 == |code| || code[k + 1] !in ESCAPE_CHARS)
    ensures ScanToken(code, pos, line) == Err(SyntaxError(line, "invalid escape sequence"))
  {
    assert ScanString(code, k, code[pos]) == BadEscape;
    BodyPassesFault(code, pos + 1, k, code[pos]);
  }

  /** Conversely, a closed literal is a well-formed body followed by its
      delimiter, and every fault has one of the two shapes above: an
      unfinished literal is well formed up to the end of the text, and a bad
      escape is a backslash, not followed by an escape character, after a
      well-formed piece. */
  lemma {:induction false} FaultsHaveShape(code: string, i: nat, delim: char)
    requires i <= |code|
    decreases |code| - i
    ensures ScanString(code, i, delim).Closed? ==> WellFormedBody(code, i, ScanString(code, i, delim).end - 1, delim)
    ensures ScanString(code, i, delim) == Unfinished ==> WellFormedBody(code, i, |code|, delim)
    ensures ScanString(code, i, delim) == BadEscape ==>
      exists k :: i <= k < |code| && WellFormedBody(code, i, k, delim) &&
        code[k] == '\\' && (k + 1 == |code| || code[k + 1] !in ESCAPE_CHARS)
  {
    if i < |code| && code[i] != delim {
      if code[i] == '\\' {
        if i + 1 < |code| && code[i + 1] in ESCAPE_CHARS {
          FaultsHaveShape(code, i + 2, delim);
          if ScanString(code, i, delim) == BadEscape {
            var k :| i + 2 <= k < |code| && WellFormedBody(code, i + 2, k, delim) &&
              code[k] == '\\' && (k + 1 == |code| || code[k + 1] !in ESCAPE_CHARS);
            assert WellFormedBody(code, i, k, delim);
          }
        } else {
          assert WellFormedBody(code, i, i, delim);
        }
      } else {
        FaultsHaveShape(code, i + 1, delim);
        if ScanString(code, i, delim) == BadEscape {
          var k :| i + 1 <= k < |code| && WellFormedBody(code, i + 1, k, delim) &&
            code[k] == '\\' && (k + 1 == |code| || code[k + 1] !in ESCAPE_CHARS);
          assert WellFormedBody(code, i, k, delim);
        }
      }
    }
  }

  /** The body of a literal that decodes to `t`: both quotes and the line
      feed are written as escapes, every other character as itself. */
  function EscapeText(t: string): string {
    if t == [] then []
    else
      EscapeChar(t[0]) + EscapeText(t[1..])
  }

  /** The escapes of one character of the decoded text. */
  function EscapeChar(c: char): string {
    if c == '"' then ['\\', '"'] else if c == '\'' then ['\\', '\''] else if c == '\n' then ['\\', 'n'] else [c]
  }

  /** Whether `code` holds `s` from offset `i` on. */
  predicate Holds(code: string, i: nat, s: string)
    decreases |s|
  {
    |s| == 0 || (i < |code| && code[i] == s[0] && Holds(code, i + 1, s[1..]))
  }

  /** A text held at `i` splits into its two parts. */
  lemma {:induction false} HoldsSplit(code: string, i: nat, a: string, b: string)
    requires Holds(code, i, a + b)
    decreases |a|
    ensures Holds(code, i, a) && Holds(code, i + |a|, b)
  {
    if a == [] {
      assert a + b == b;
    } else {
      assert (a + b)[1..] == a[1..] + b;
      HoldsSplit(code, i + 1, a[1..], b);
    }
  }

  /** A text is held where it was put. */
  lemma {:induction false} HoldsInside(a: string, s: string, b: string)
    decreases |s|
    ensures Holds(a + s + b, |a|, s)
  {
    if s != [] {
      assert (a + s + b)[|a|] == s[0];
      assert a + s + b == (a + [s[0]]) + s[1..] + b;
      HoldsInside(a + [s[0]], s[1..], b);
    }
  }

  /** One decoded character: its escapes at `i` scan to that character,
      followed by whatever the rest of the literal scans to. */
  lemma EscapeCharStep(code: string, i: nat, delim: char, c: char)
    requires delim == '"' || delim == '\''
    requires c != '\\'
    requires Holds(code, i, EscapeChar(c))
    ensures ScanString(code, i, delim) == Prefixed([c], ScanString(code, i + |EscapeChar(c)|, delim))
  {
    var head := EscapeChar(c);
    assert code[i] == head[0];
    if |head| == 2 {
      assert code[i + 1] == head[1];
      assert CharAt(code, i + 1) in ESCAPE_CHARS && ESCAPE_CHARS[CharAt(code, i + 1)] == c;
    }
  }

  /** The first decoded character, put before what the rest of the literal
      scans to. */
  lemma EscapedStep(code: string, i: nat, delim: char, t: string, e: nat)
    requires delim == '"' || delim == '\''
    requires t != [] && t[0] != '\\'
    requires Holds(code, i, EscapeChar(t[0]))
    requires ScanString(code, i + |EscapeChar(t[0])|, delim) == Closed(t[1..], e)
    ensures ScanString(code, i, delim) == Closed(t, e)
  {
    EscapeCharStep(code, i, delim, t[0]);
    assert [t[0]] + t[1..] == t;
  }

  /** Scanning an escaped body followed by the closing quote decodes the
      body back. */
  lemma {:induction false} ScanEscaped(code: string, i: nat, delim: char, t: string)
    requires delim == '"' || delim == '\''
    requires '\\' !in t
    requires Holds(code, i, EscapeText(t)) && i + |EscapeText(t)| < |code|
    requires code[i + |EscapeText(t)|] == delim
    decreases |t|
    ensures ScanString(code, i, delim) == Closed(t, i + |EscapeText(t)| + 1)
  {
    if t != [] {
      var head := EscapeChar(t[0]);
      var tail := EscapeText(t[1..]);
      assert EscapeText(t) == head + tail;
      HoldsSplit(code, i, head, tail);
      assert t == [t[0]] + t[1..];
      ScanEscaped(code, i + |head|, delim, t[1..]);
      ghost var rest := ScanString(code, i + |head|, delim);
      assert rest == Closed(t[1..], i + |head| + |tail| + 1);
      EscapedStep(code, i, delim, t, rest.end);
    }
  }

  /** A literal whose body is the escaped form of `t` lexes to a string token
      with text `t`, ending just past the closing quote. */
  lemma EscapedLiteralScans(code: string, t: string, line: int)
    requires 0 < |code| && (code[0] == '"' || code[0] == '\'')
    requires '\\' !in t
    requires Holds(code, 1, EscapeText(t)) && 1 + |EscapeText(t)| < |code|
    requires code[1 + |EscapeText(t)|] == code[0]
    ensures ScanToken(code, 0, line)
      == Ok(Lexed(Token(String, t, line), 0, Scanner(code, |EscapeText(t)| + 2, line, false)))
  {
    ScanEscaped(code, 1, code[0], t);
  }

  /** Round trip: any text without a backslash, escaped and put between two
      quotes of either kind, lexes back to a string token with that text. */
  lemma StringRoundTrip(t: string, delim: char, rest: string, line: int)
    requires delim == '"' || delim == '\''
    requires '\\' !in t
    ensures var code := [delim] + EscapeText(t) + [delim] + rest;
      ScanToken(code, 0, line)
        == Ok(Lexed(Token(String, t, line), 0, Scanner(code, |EscapeText(t)| + 2, line, false)))
  {
    var body := EscapeText(t);
    var code := [delim] + body + [delim] + rest;
    HoldsInside([delim], body, [delim] + rest);
    assert [delim] + body + ([delim] + rest) == code;
    assert code[0] == delim && code[1 + |body|] == delim;
    EscapedLiteralScans(code, t, line);
  }

  /** An escaped quote decodes to a plain quote: `"\""` is the one-character
      string holding a double quote. */
  lemma EscapedQuoteDecodes()
    ensures ScanToken("\"\\\"\"", 0, 1)
      == Ok(Lexed(Token(String, "\"", 1), 0, Scanner("\"\\\"\"", 4, 1, false)))
  {
    var code := "\"\\\"\"";
    assert ScanString(code, 3, '"') == Closed("", 4);
    assert ScanString(code, 1, '"') == Closed("\"", 4);
  }

  // ---------------------------------------------------------------- operators and punctuation

  /** Any other character starts an operator or punctuation token, which never
      fails: at least that character is taken, then more while each next
      character forms an operator group with the one before it, verbatim. The
      token is a unary operator exactly when it is "!", a binary operator
      exactly when its text is in the binary list, and punctuation otherwise. */
  lemma OperatorTokenShape(code: string, pos: nat, line: int)
    requires pos < |code| && !IsAlNum(code[pos]) && code[pos] != '"' && code[pos] != '\''
    ensures ScanToken(code, pos, line).Ok?
    ensures var l := ScanToken(code, pos, line).value;
      var e := l.next.pos;
      var text := l.token.text;
      pos < e <= |code| && text == code[pos..e] &&
      (forall k :: 0 < k < |text| ==> IsGroup(text[k - 1], text[k])) &&
      !GroupedAt(code, e) &&
      (l.token.kind == UnaryOperator <==> text == "!") &&
      (l.token.kind == BinaryOperator <==> IsBinaryOperator(text)) &&
      (l.token.kind == Punctuation <==> text != "!" && !IsBinaryOperator(text))
  {
    var l := ScanToken(code, pos, line).value;
    var e := l.next.pos;
    forall k | 0 < k < |l.token.text|
      ensures IsGroup(l.token.text[k - 1], l.token.text[k])
    {
      assert GroupedAt(code, pos + k);
    }
  }

  /** A two-character operator token is always a binary operator. */
  lemma PairsAreBinaryOperators(code: string, pos: nat, line: int)
    requires pos < |code| && !IsAlNum(code[pos]) && code[pos] != '"' && code[pos] != '\''
    requires ScanToken(code, pos, line).Ok? && |ScanToken(code, pos, line).value.token.text| == 2
    ensures ScanToken(code, pos, line).value.token.kind == BinaryOperator
  {
    OperatorTokenShape(code, pos, line);
    GroupsAreBinaryOperators();
    var text := ScanToken(code, pos, line).value.token.text;
    assert IsGroup(text[0], text[1]);
    assert [text[0]] + [text[1]] == text;
  }

  /** Grouping chains: "===" is one punctuation token, not "==" and "=". */
  lemma TripleEqualsIsOneToken()
    ensures ScanToken("===", 0, 1) == Ok(Lexed(Token(Punctuation, "===", 1), 0, Scanner("===", 3, 1, false)))
  {
    var code := "===";
    assert IsGroup('=', '=') by {
      assert ['='] + ['='] == "==";
    }
    assert !GroupedAt(code, 3);
    assert OpEnd(code, 3) == 3;
    assert OpEnd(code, 2) == 3;
    assert OpEnd(code, 1) == 3;
    assert code[0..3] == code;
    assert ClassifyOperator(code) == Punctuation;
  }

  /** "&&" is one binary operator token, not two "&" punctuation tokens. */
  lemma AndIsOneBinaryOperator()
    ensures ScanToken("&& b", 0, 1) == Ok(Lexed(Token(BinaryOperator, "&&", 1), 0, Scanner("&& b", 2, 1, false)))
  {
    var code := "&& b";
    assert IsGroup('&', '&') by {
      assert ['&'] + ['&'] == "&&";
    }
    assert !IsGroup('&', ' ') by {
      assert ['&'] + [' '] == "& ";
    }
    assert OpEnd(code, 2) == 2;
    assert OpEnd(code, 1) == 2;
    assert code[0..2] == "&&";
    assert ClassifyOperator("&&") == BinaryOperator;
  }
}
