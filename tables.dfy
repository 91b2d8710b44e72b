/** The static lookup tables and character predicates of the lexer. The
    character classes are the ASCII parts of the platform's letter, digit
    and white-space categories. */
module LexerTables {

  /** The reserved words; a name token whose text is one of them is a keyword. */
  const KEYWORDS: set<string> :=
    {"var", "function", "return", "if", "else", "while", "true", "false", "null"}

  /** Pairs of characters that an operator token keeps together. */
  const OPERATOR_GROUPS: set<string> := {"&&", "||", "==", "!=", ">=", "<=", ".."}

  /** The character after a backslash in a string literal, and what it stands for. */
  const ESCAPE_CHARS: map<char, char> := map['"' := '"', '\'' := '\'', 'n' := '\n']

  predicate IsLetter(c: char) {
    'a' <= c <= 'z' || 'A' <= c <= 'Z'
  }

  predicate IsDigit(c: char) {
    '0' <= c <= '9'
  }

  /** Space, and the control characters tab, line feed, vertical tab, form feed
      and carriage return. */
  predicate IsWhiteSpace(c: char) {
    c == ' ' || '\t' <= c <= '\r'
  }

  /** A name character is never a digit, so the first character of a name or
      number decides which it is. */
  predicate IsNameChar(c: char)
    ensures IsNameChar(c) ==> !IsDigit(c)
  {
    IsLetter(c) || c == '_'
  }

  /** A name or number character is none of the characters that start or end
      the other tokens: white space, a quote, a backslash, a dot or the
      sentinel '\0'. */
  predicate IsAlNum(c: char)
    ensures IsAlNum(c) ==> !IsWhiteSpace(c) && c != '"' && c != '\'' && c != '\\' && c != '.' && c != '\0'
  {
    IsDigit(c) || IsNameChar(c)
  }

  /** Binary operators are one or two characters long, and "!" is not one. */
  predicate IsBinaryOperator(s: string)
    ensures IsBinaryOperator(s) ==> 1 <= |s| <= 2 && s != "!"
  {
    s in {"+", "-", "*", "/", "^", "%", "..", "&&", "||", "==", "!=", ">", "<", ">=", "<="}
  }

  /** The only unary operator is the one character "!", and it is not a
      binary operator, so the order of the two tests that classify an
      operator does not matter. */
  predicate IsUnaryOperator(s: string)
    ensures IsUnaryOperator(s) <==> |s| == 1 && s[0] == '!'
    ensures IsUnaryOperator(s) ==> !IsBinaryOperator(s)
  {
    s == "!"
  }

  /** Whether the character `a` just consumed and the character `b` under the
      cursor form one of the operator groups. */
  predicate IsGroup(a: char, b: char) {
    [a] + [b] in OPERATOR_GROUPS
  }

  /** The character under the cursor, or the sentinel '\0' past the end;
      the sentinel is no escape character and ends no operator group, so a
      read past the end stops the string and operator loops. */
  function CharAt(code: string, pos: nat): (c: char)
    ensures pos < |code| ==> c == code[pos]
    ensures pos >= |code| ==> c == '\0'
    ensures pos >= |code| ==> c !in ESCAPE_CHARS && forall g :: g in OPERATOR_GROUPS ==> g[1] != c
  {
    if pos < |code| then code[pos] else '\0'
  }

  /** Reading past the end is harmless: the sentinel closes no operator group
      and is no escape character. */
  lemma SentinelIsInert(code: string, pos: nat)
    requires pos >= |code|
    ensures CharAt(code, pos) !in ESCAPE_CHARS
    ensures forall a: char :: !IsGroup(a, CharAt(code, pos))
  {
    forall a: char ensures !IsGroup(a, '\0') {
      var pair := [a] + ['\0'];
      assert pair[1] == '\0';
      assert forall g :: g in OPERATOR_GROUPS ==> g[1] != '\0';
    }
  }

  /** Every operator group is two characters long and is itself a binary operator. */
  lemma GroupsAreBinaryOperators()
    ensures forall g :: g in OPERATOR_GROUPS ==> |g| == 2 && IsBinaryOperator(g)
  {
  }

  /** Every keyword begins with a letter, so no number is ever a keyword. */
  lemma KeywordsStartWithLetters()
    ensures forall k :: k in KEYWORDS ==> |k| > 0 && IsLetter(k[0])
  {
  }
}
