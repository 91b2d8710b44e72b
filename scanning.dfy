/** A pure specification of one call of the lexer: given the lexer's state as
    a value, the token it yields (or the error it raises) and the state it
    leaves behind. Each scanning loop of the lexer has a recursive function
    here, whose contract characterises the run of characters the loop eats. */
module Scanning {
  import opened Tokens
  import opened LexerTables

  /** The lexer's state: the source text, the scan offset, the line counter
      and the end flag. */
  datatype Scanner = Scanner(code: string, pos: nat, line: int, reachedEnd: bool) {
    /** The offset stays within the text, lines count from 1, and the end
        flag is only ever raised at the end of the text. */
    predicate Valid() {
      pos <= |code| && line >= 1 && (reachedEnd ==> pos == |code|)
    }
  }

  /** The state of a freshly constructed lexer. */
  function Initial(code: string): (s: Scanner)
    ensures s.Valid() && s.code == code && s.pos == 0 && s.line == 1
    ensures s.reachedEnd <==> |code| == 0
  {
    Scanner(code, 0, 1, |code| == 0)
  }

  /** What one call yields: the token, the offset where it starts (after the
      skipped white space) and the new state. */
  datatype Lexed = Lexed(token: Token, start: nat, next: Scanner)

  /** A decreasing measure for a sequence of calls. */
  function Measure(s: Scanner): nat
    requires s.Valid()
  {
    |s.code| - s.pos + (if s.reachedEnd then 0 else 1)
  }

  // ---------------------------------------------------------------- white space

  /** The characters the white-space loop skips. */
  predicate IsSkipped(c: char) {
    IsWhiteSpace(c) || c == '\r' || c == '\n'
  }

  /** The number of line feeds in `s`. */
  function Newlines(s: string): nat {
    if s == [] then 0 else (if s[0] == '\n' then 1 else 0) + Newlines(s[1..])
  }

  datatype Skipped = Skipped(pos: nat, line: int, atEnd: bool)

  /** The white-space loop started at `pos`: it stops on the first character
      that is not skipped, or reports the end of the text. */
  function SkipSpace(code: string, pos: nat, line: int): (r: Skipped)
    requires pos < |code|
    decreases |code| - pos
    ensures pos < r.pos <= |code| || (r.pos == pos && !r.atEnd)
    ensures r.atEnd <==> r.pos == |code|
    ensures forall j :: pos <= j < r.pos ==> IsSkipped(code[j])
    ensures !r.atEnd ==> !IsSkipped(code[r.pos])
    ensures line <= r.line
  {
    if IsSkipped(code[pos]) then
      var line' := if code[pos] == '\n' then line + 1 else line;
      if pos + 1 == |code| then Skipped(pos + 1, line', true)
      else SkipSpace(code, pos + 1, line')
    else
      Skipped(pos, line, false)
  }

  // ---------------------------------------------------------------- names and numbers

  /** Whether a name or number run goes on over `c`; a number also takes dots. */
  predicate ContinuesName(c: char, isNumber: bool) {
    IsAlNum(c) || (isNumber && c == '.')
  }

  predicate ContinuesNameAt(code: string, j: int, isNumber: bool) {
    0 <= j < |code| && ContinuesName(code[j], isNumber)
  }

  /** The end of the name or number run whose characters before `i` are
      already consumed: the first index from `i` on that does not continue it. */
  function NameEnd(code: string, i: nat, isNumber: bool): (e: nat)
    requires i <= |code|
    decreases |code| - i
    ensures i <= e <= |code|
    ensures forall j :: i <= j < e ==> ContinuesNameAt(code, j, isNumber)
    ensures !ContinuesNameAt(code, e, isNumber)
  {
    if i < |code| && ContinuesName(code[i], isNumber) then NameEnd(code, i + 1, isNumber) else i
  }

  // ---------------------------------------------------------------- string literals

  /** The outcome of scanning a string literal body: its decoded text and the
      offset just past the closing delimiter, or one of the two faults. */
  datatype StringScan = Closed(text: string, end: nat) | Unfinished | BadEscape

  /** `s` with `p` decoded in front of it; the faults are kept as they are. */
  function Prefixed(p: string, s: StringScan): StringScan {
    if s.Closed? then Closed(p + s.text, s.end) else s
  }

  /** Decoding `p` and then `q` in front of `s` is decoding `p + q`. */
  lemma PrefixedTwice(p: string, q: string, s: StringScan)
    ensures Prefixed(p, Prefixed(q, s)) == Prefixed(p + q, s)
  {
    if s.Closed? {
      assert p + (q + s.text) == (p + q) + s.text;
    }
  }

  /** The string loop, looking at offset `i` of a literal opened by `delim`.
      A closed literal ends on its delimiter. */
  function ScanString(code: string, i: nat, delim: char): (r: StringScan)
    decreases |code| - i
    ensures r.Closed? ==> i < r.end <= |code| && code[r.end - 1] == delim
  {
    if i >= |code| then Unfinished
    else if code[i] == delim then Closed("", i + 1)
    else if code[i] == '\\' then
      var e := CharAt(code, i + 1);
      if e in ESCAPE_CHARS then
        Prefixed([ESCAPE_CHARS[e]], ScanString(code, i + 2, delim))
      else
        BadEscape
    else
      Prefixed([code[i]], ScanString(code, i + 1, delim))
  }

  // ---------------------------------------------------------------- operators and punctuation

  /** Whether the characters at `j - 1` and `j` form an operator group. */
  predicate GroupedAt(code: string, j: int) {
    0 < j < |code| && IsGroup(code[j - 1], code[j])
  }

  /** The end of an operator run whose characters before `i` are already
      consumed: it goes on while the last consumed character and the next one
      form an operator group. */
  function OpEnd(code: string, i: nat): (e: nat)
    requires 0 < i <= |code|
    decreases |code| - i
    ensures i <= e <= |code|
    ensures forall j :: i <= j < e ==> GroupedAt(code, j)
    ensures !GroupedAt(code, e)
  {
    SentinelIsInert(code, |code|);
    if IsGroup(code[i - 1], CharAt(code, i)) then OpEnd(code, i + 1) else i
  }

  /** The kind of an operator or punctuation token, by its text. */
  function ClassifyOperator(text: string): (k: TokenType)
    ensures k in {UnaryOperator, BinaryOperator, Punctuation}
    ensures k == UnaryOperator <==> text == "!"
    ensures k == BinaryOperator <==> IsBinaryOperator(text)
  {
    if IsUnaryOperator(text) then UnaryOperator
    else if IsBinaryOperator(text) then BinaryOperator
    else Punctuation
  }

  // ---------------------------------------------------------------- one call

  /** The name-or-number token at `pos`: the maximal run of name characters
      (and dots, when the first character is a digit), a keyword when its text
      is reserved. */
  function NameToken(code: string, pos: nat, line: int): (l: Lexed)
    requires pos < |code| && IsAlNum(code[pos])
    ensures pos < l.next.pos <= |code| && l.token.text == code[pos..l.next.pos]
    ensures l.token.kind in {Keyword, Number, Identifier}
  {
    var isNumber := IsDigit(code[pos]);
    var e := NameEnd(code, pos + 1, isNumber);
    var text := code[pos..e];
    var kind := if text in KEYWORDS then Keyword else if isNumber then Number else Identifier;
    Lexed(Token(kind, text, line), pos, Scanner(code, e, line, false))
  }

  /** The string token whose opening quote is at `pos`, or the fault that
      stops it; a fault is reported on the current line. */
  function StringToken(code: string, pos: nat, line: int): (r: Result<Lexed>)
    requires pos < |code| && (code[pos] == '"' || code[pos] == '\'')
    ensures r.Ok? ==> r.value.token.kind == String && pos + 1 < r.value.next.pos <= |code|
    ensures r.Ok? ==> code[r.value.next.pos - 1] == code[pos]
    ensures r.Err? ==> r.error.line == line
    ensures r.Err? ==> r.error.message == "unfinished string" || r.error.message == "invalid escape sequence"
  {
    match ScanString(code, pos + 1, code[pos])
    case Closed(text, e) => Ok(Lexed(Token(String, text, line), pos, Scanner(code, e, line, false)))
    case Unfinished => Err(SyntaxError(line, "unfinished string"))
    case BadEscape => Err(SyntaxError(line, "invalid escape sequence"))
  }

  /** The operator or punctuation token at `pos`: the run that `OpEnd` ends,
      classified by its text. */
  function OperatorToken(code: string, pos: nat, line: int): (l: Lexed)
    requires pos < |code|
    ensures pos < l.next.pos <= |code| && l.token.text == code[pos..l.next.pos]
    ensures l.token.kind in {UnaryOperator, BinaryOperator, Punctuation}
  {
    var e := OpEnd(code, pos + 1);
    var text := code[pos..e];
    Lexed(Token(ClassifyOperator(text), text, line), pos, Scanner(code, e, line, false))
  }

  /** The token that starts at `pos`, a character that is not white space.
      It always moves the offset forward and keeps the line; it fails only on
      a string literal; the text of any other token is the slice it consumed. */
  function ScanToken(code: string, pos: nat, line: int): (r: Result<Lexed>)
    requires pos < |code|
    ensures r.Ok? ==> r.value.start == pos && r.value.token.line == line
    ensures r.Ok? ==> r.value.next == Scanner(code, r.value.next.pos, line, false)
    ensures r.Ok? ==> pos < r.value.next.pos <= |code|
    ensures r.Ok? ==> r.value.token.kind !in {None, EndOfFile}
    ensures r.Ok? && r.value.token.kind != String ==> r.value.token.text == code[pos..r.value.next.pos]
    ensures r.Err? ==> (code[pos] == '"' || code[pos] == '\'') && r.error.line == line
  {
    var c := code[pos];
    if IsAlNum(c) then Ok(NameToken(code, pos, line))
    else if c == '"' || c == '\'' then StringToken(code, pos, line)
    else Ok(OperatorToken(code, pos, line))
  }

  /** One call of the lexer on state `s`. At the end (or once the end flag is
      up) it yields an empty end-of-file token; otherwise it skips white space
      and scans one token. The offset never goes back, the line counter never
      drops, every token is reported on the line the state ends on, and the
      end flag is raised exactly when the token is the end-of-file one. */
  function Step(s: Scanner): (r: Result<Lexed>)
    requires s.Valid()
    ensures r.Ok? ==> r.value.next.Valid() && r.value.next.code == s.code
    ensures r.Ok? ==> s.pos <= r.value.start <= r.value.next.pos && s.line <= r.value.next.line
    ensures r.Ok? ==> r.value.token.line == r.value.next.line
    ensures r.Ok? ==> (r.value.token.kind == EndOfFile <==> r.value.next.reachedEnd)
    ensures r.Ok? && r.value.token.kind == EndOfFile ==>
      r.value.token.text == "" && r.value.start == r.value.next.pos == |s.code|
    ensures r.Ok? && r.value.token.kind != EndOfFile ==> r.value.start < r.value.next.pos
    ensures s.reachedEnd ==> r.Ok? && r.value.token.kind == EndOfFile
    ensures r.Ok? && !s.reachedEnd ==> Measure(r.value.next) < Measure(s)
    ensures r.Err? ==> !s.reachedEnd && s.pos < |s.code|
  {
    if s.reachedEnd || s.pos == |s.code| then
      Ok(Lexed(Token(EndOfFile, "", s.line), s.pos, s.(reachedEnd := true)))
    else
      var sk := SkipSpace(s.code, s.pos, s.line);
      if sk.atEnd then
        Ok(Lexed(Token(EndOfFile, "", sk.line), sk.pos, Scanner(s.code, sk.pos, sk.line, true)))
      else
        ScanToken(s.code, sk.pos, sk.line)
  }

  /** The token stream a caller sees by asking for tokens until the end-of-file
      token: it exists for every state (the calls terminate), it ends with
      exactly one end-of-file token, and it fails only with the error of the
      call that failed. */
  function Tokenize(s: Scanner): (r: Result<seq<Token>>)
    requires s.Valid()
    decreases Measure(s)
    ensures r.Ok? ==> |r.value| >= 1 && r.value[|r.value| - 1].kind == EndOfFile
    ensures r.Ok? ==> forall t :: t in r.value[..|r.value| - 1] ==> t.kind != EndOfFile
  {
    var step := Step(s);
    if step.Err? then Err(step.error)
    else if step.value.token.kind == EndOfFile then Ok([step.value.token])
    else
      var rest := Tokenize(step.value.next);
      if rest.Err? then rest
      else
        var all := [step.value.token] + rest.value;
        Ok(all)
  }
}
