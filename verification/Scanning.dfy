/**
 What the lexer makes of each kind of text, said of the text: operators by their
 spelling, the longest first; words, constants and numbers up to the first
 character that does not belong to them; spaces and comments skipped.
 */
module Scanning {
  import opened Wrappers
  import opened Lexing

  /** The operators and separators by their spelling. */
  function Spelled(t: string): Option<Kind> {
    if |t| == 1 then
      (match t[0]
       case '=' => Some(Assign)
       case '+' => Some(Plus)
       case '-' => Some(Minus)
       case '!' => Some(Bang)
       case '*' => Some(Asterisk)
       case '/' => Some(Slash)
       case '%' => Some(Modulo)
       case '<' => Some(Lt)
       case '>' => Some(Gt)
       case '|' => Some(Bar)
       case '&' => Some(Amp)
       case '.' => Some(Dot)
       case ',' => Some(Comma)
       case ';' => Some(Semicolon)
       case '(' => Some(LParen)
       case ')' => Some(RParen)
       case '{' => Some(LBrace)
       case '}' => Some(RBrace)
       case '[' => Some(LBracket)
       case ']' => Some(RBracket)
       case _ => None)
    else if |t| == 2 then
      (var a, b := t[0], t[1];
       if a == '=' && b == '=' then Some(Eq)
       else if a == '!' && b == '=' then Some(NotEq)
       else if a == '=' && b == '~' then Some(Match)
       else if a == '<' && b == '=' then Some(Lte)
       else if a == '>' && b == '=' then Some(Gte)
       else if a == '&' && b == '&' then Some(And)
       else if a == '|' && b == '|' then Some(Or)
       else if a == '*' && b == '*' then Some(Pow)
       else if a == '+' && b == '=' then Some(PlusEq)
       else if a == '-' && b == '=' then Some(MinusEq)
       else if a == '-' && b == '>' then Some(RightArrow)
       else if a == '<' && b == '-' then Some(LeftArrow)
       else if a == '|' && b == '>' then Some(Pipe)
       else if a == '.' && b == '.' then Some(Range)
       else None)
    else if |t| == 3 then
      (var a, b, c := t[0], t[1], t[2];
       if a == '=' && b == '=' && c == '=' then Some(IsSame)
       else if a == '!' && b == '=' && c == '=' then Some(IsNotSame)
       else if a == '|' && b == '|' && c == '=' then Some(OrEq)
       else if a == '.' && b == '.' && c == '.' then Some(RangeExcl)
       else None)
    else None
  }

  /** The operator that stands at i and has n characters. */
  function SpelledAt(s: string, i: nat, n: nat): Option<Kind> {
    if i + n <= |s| then Spelled(s[i..i + n]) else None
  }

  lemma OneChar(s: string, i: nat)
    requires i < |s|
    ensures s[i..i + 1] == [s[i]] && SpelledAt(s, i, 1) == Spelled([s[i]])
  {
    assert s[i..i + 1] == [s[i]];
  }

  lemma TwoChars(s: string, i: nat)
    ensures SpelledAt(s, i, 2) == if i + 2 <= |s| then Spelled([s[i], s[i + 1]]) else None
  {
    if i + 2 <= |s| { assert s[i..i + 2] == [s[i], s[i + 1]]; }
  }

  lemma ThreeChars(s: string, i: nat)
    ensures SpelledAt(s, i, 3) == if i + 3 <= |s| then Spelled([s[i], s[i + 1], s[i + 2]]) else None
  {
    if i + 3 <= |s| { assert s[i..i + 3] == [s[i], s[i + 1], s[i + 2]]; }
  }

  function Longest(s: string, i: nat): Option<(Kind, nat)> {
    if SpelledAt(s, i, 3).Some? then Some((SpelledAt(s, i, 3).value, 3))
    else if SpelledAt(s, i, 2).Some? then Some((SpelledAt(s, i, 2).value, 2))
    else if SpelledAt(s, i, 1).Some? then Some((SpelledAt(s, i, 1).value, 1))
    else None
  }

  lemma LongestHere(s: string, i: nat)
    requires i < |s| && s[i] in "=!|."
    ensures OperatorAt(s, i) == Longest(s, i)
  {
    OneChar(s, i);
    TwoChars(s, i);
    ThreeChars(s, i);
    hide SpelledAt;
  }

  lemma LongestThere(s: string, i: nat)
    requires i < |s| && s[i] !in "=!|."
    ensures OperatorAt(s, i) == Longest(s, i)
  {
    OneChar(s, i);
    TwoChars(s, i);
    ThreeChars(s, i);
    hide SpelledAt;
  }

  /** Which operator stands at a position: the longest one that does, if one does. */
  lemma LongestOperator(s: string, i: nat)
    ensures OperatorAt(s, i) == Longest(s, i)
  {
    if i < |s| && s[i] in "=!|." {
      LongestHere(s, i);
    } else if i < |s| {
      LongestThere(s, i);
    }
  }

  // ------------------------------------------------------------------- words

  predicate IsWord(c: char) {
    'a' <= c <= 'z' || 'A' <= c <= 'Z' || '0' <= c <= '9' || c == '_'
  }

  /** The longest row of word characters from i on ends at e. */
  predicate WordTo(s: string, i: nat, e: nat) {
    i <= e <= |s| && (forall k :: i <= k < e ==> IsWord(s[k])) && (e < |s| ==> !IsWord(s[e]))
  }

  lemma {:induction false} WordEnds(s: string, i: nat)
    requires i <= |s|
    ensures WordTo(s, i, WordEnd(s, i))
    decreases |s| - i
  {
    if i < |s| && IsWordChar(s[i]) { WordEnds(s, i + 1); }
  }

  /** The words with a meaning of their own. */
  function Reserved(w: string): Kind {
    if w == "true" then True
    else if w == "false" then False
    else if w == "nil" then NilTok
    else if w in {"def", "if", "elsif", "else", "switch", "case", "default", "return", "self", "super", "while",
                  "yield", "continue", "class", "module", "break", "block!", "block?", "catch", "finally"} then Keyword
    else Ident
  }

  lemma ReservedWords(w: string)
    ensures KeywordOf(w) == Reserved(w)
  {
  }

  /** A word that begins with a small letter or an underscore: as far as it goes, with a question or exclamation
      mark behind it, if there is one. */
  lemma WordRead(s: string, i: nat, line: int) returns (w: nat, e: nat)
    requires i < |s| && ('a' <= s[i] <= 'z' || s[i] == '_')
    ensures i < w <= e <= |s| && WordTo(s, i, w) && e == if w < |s| && (s[w] == '?' || s[w] == '!') then w + 1 else w
    ensures
      var r := TokenHere(s, i, Initial, line);
      && r.token == Token(Reserved(s[i..e]), s[i..e], line) && r.at == e && r.line == line
      && r.fsm == if s[i..e] == "def" then Method else if Reserved(s[i..e]) == Ident then NoSymbol else Initial
  {
    hide TokenHere, KeywordOf, Reserved;
    WordEnds(s, i);
    w := WordEnd(s, i);
    e := IdentEnd(s, i);
    ReservedWords(s[i..e]);
    WordHere(s, i, Initial, line);
  }

  lemma WordHere(s: string, i: nat, f: Fsm, line: int)
    requires i < |s| && ('a' <= s[i] <= 'z' || s[i] == '_')
    ensures TokenHere(s, i, f, line) == WordToken(Text(s, i, IdentEnd(s, i)), IdentEnd(s, i), f, line)
  {
    assert OperatorAt(s, i) == None;
    hide OperatorAt, WordToken, IdentEnd, Text;
  }

  /** Behind `def` or a dot any such word is a name, but for `self` with its dot to come. */
  lemma MethodNameRead(s: string, i: nat, line: int) returns (w: nat, e: nat)
    requires i < |s| && ('a' <= s[i] <= 'z' || s[i] == '_')
    ensures i < w <= e <= |s| && WordTo(s, i, w) && e == if w < |s| && (s[w] == '?' || s[w] == '!') then w + 1 else w
    ensures
      var r := TokenHere(s, i, Method, line);
      && r.token == Token(if s[i..e] == "self" then Keyword else Ident, s[i..e], line) && r.at == e && r.line == line
      && r.fsm == if s[i..e] == "self" then Initial else NoSymbol
  {
    WordEnds(s, i);
    w := WordEnd(s, i);
    e := IdentEnd(s, i);
    WordHere(s, i, Method, line);
    hide TokenHere, KeywordOf;
  }

  /** A word that begins with a capital letter. */
  lemma ConstantRead(s: string, i: nat, f: Fsm, line: int) returns (e: nat)
    requires i < |s| && 'A' <= s[i] <= 'Z'
    ensures i < e && WordTo(s, i, e)
    ensures
      var r := TokenHere(s, i, f, line);
      r.token == Token(Constant, s[i..e], line) && r.at == e && r.line == line
  {
    WordEnds(s, i);
    e := WordEnd(s, i);
    assert OperatorAt(s, i) == None;
  }

  predicate DigitsTo(s: string, i: nat, e: nat) {
    i <= e <= |s| && (forall k :: i <= k < e ==> '0' <= s[k] <= '9') && (e < |s| ==> !('0' <= s[e] <= '9'))
  }

  lemma {:induction false} DigitsEnds(s: string, i: nat)
    requires i <= |s|
    ensures DigitsTo(s, i, DigitsEnd(s, i))
    decreases |s| - i
  {
    if i < |s| && IsDigit(s[i]) { DigitsEnds(s, i + 1); }
  }

  /** A number: all the digits there are. */
  lemma NumberRead(s: string, i: nat, f: Fsm, line: int) returns (e: nat)
    requires i < |s| && '0' <= s[i] <= '9'
    ensures i < e && DigitsTo(s, i, e)
    ensures
      var r := TokenHere(s, i, f, line);
      r.token == Token(IntTok, s[i..e], line) && r.at == e && r.fsm == f && r.line == line
  {
    DigitsEnds(s, i);
    e := DigitsEnd(s, i);
    assert OperatorAt(s, i) == None;
  }

  /** An operator. */
  lemma OperatorRead(s: string, i: nat, f: Fsm, line: int)
    requires Longest(s, i).Some?
    ensures
      var (kind, n) := Longest(s, i).value;
      var r := TokenHere(s, i, f, line);
      && i + n <= |s| && r.token == Token(kind, s[i..i + n], line) && r.at == i + n && r.line == line
      && r.fsm == if kind == Dot && f != NoSymbol then Method else f
  {
    LongestOperator(s, i);
    LongestFits(s, i);
    NoQuote(s, i);
    hide OperatorAt, Longest, Spelled, SpelledAt;
  }

  lemma LongestFits(s: string, i: nat)
    requires Longest(s, i).Some?
    ensures i + Longest(s, i).value.1 <= |s| && Longest(s, i).value.1 > 0
  {
    hide Spelled;
  }

  lemma NoQuote(s: string, i: nat)
    requires OperatorAt(s, i).Some?
    ensures At(s, i) != '"' && At(s, i) != '\''
  {
  }

  /** The word from i on, with a question or exclamation mark if there is one behind it, ends at e. */
  predicate NameTo(s: string, i: nat, e: nat) {
    || (WordTo(s, i, e) && (e < |s| ==> s[e] != '?' && s[e] != '!'))
    || (0 < e <= |s| && WordTo(s, i, e - 1) && (s[e - 1] == '?' || s[e - 1] == '!'))
  }

  /** A colon: two of them; a symbol, which is a string; or, right behind a name, and before anything else, itself. */
  lemma ColonRead(s: string, i: nat, f: Fsm, line: int) returns (e: nat)
    requires i < |s| && s[i] == ':'
    ensures
      var r := TokenHere(s, i, f, line);
      var c := if i + 1 < |s| then s[i + 1] else ' ';
      && r.fsm == f && r.line == line
      && if f != NoSymbol && c == ':' then r.token == Token(Resolution, "::", line) && r.at == i + 2
         else if f != NoSymbol && ('a' <= c <= 'z' || 'A' <= c <= 'Z' || c == '_') then
           i + 1 < e <= |s| && r.token == Token(Str, s[i + 1..e], line) && r.at == e && NameTo(s, i + 1, e)
         else r.token == Token(Colon, ":", line) && r.at == i + 1
  {
    e := 0;
    assert OperatorAt(s, i) == None;
    if i + 1 < |s| {
      WordEnds(s, i + 1);
      e := IdentEnd(s, i + 1);
    }
  }

  /** The longest row of word characters and at signs from i on ends at e. */
  predicate VariableTo(s: string, i: nat, e: nat) {
    && i <= e <= |s| && (forall k :: i <= k < e ==> IsWord(s[k]) || s[k] == '@')
    && (e < |s| ==> !IsWord(s[e]) && s[e] != '@')
  }

  lemma {:induction false} VariableEnds(s: string, i: nat)
    requires i <= |s|
    ensures VariableTo(s, i, VariableEnd(s, i))
    decreases |s| - i
  {
    if i < |s| && (IsWordChar(s[i]) || s[i] == '@') { VariableEnds(s, i + 1); }
  }

  /** An instance variable; an at sign without a letter behind it is no token, and is not passed. */
  lemma VariableRead(s: string, i: nat, f: Fsm, line: int) returns (e: nat)
    requires i < |s| && s[i] == '@'
    ensures VariableTo(s, i, e)
    ensures
      var r := TokenHere(s, i, f, line);
      if i + 1 < |s| && ('a' <= s[i + 1] <= 'z' || 'A' <= s[i + 1] <= 'Z' || s[i + 1] == '_')
      then r == Lexed(Token(InstanceVar, s[i..e], line), e, f, line)
      else r == Lexed(Token(Illegal, "@", line), i, f, line)
  {
    VariableEnds(s, i);
    e := VariableEnd(s, i);
    assert OperatorAt(s, i) == None;
  }

  lemma {:induction false} QuotedEnds(s: string, i: nat, e: nat)
    requires i <= e < |s| && s[e] == '`' && forall k :: i <= k < e ==> s[k] != '`' && s[k] != '\n' && s[k] != '\0'
    ensures QuotedEnd(s, i) == e
    decreases e - i
  {
    if i < e { QuotedEnds(s, i + 1, e); }
  }

  /** A word in back quotes is what it would be without them, as far as its first character says. */
  lemma QuotedRead(s: string, i: nat, e: nat, line: int)
    requires i < e < |s| && s[i] == '`' == s[e] && forall k :: i < k < e ==> s[k] != '`' && s[k] != '\n' && s[k] != '\0'
    ensures
      var r, w := TokenHere(s, i, Initial, line), s[i + 1..e];
      && r.at == e + 1 && r.line == line
      && r.token == if w == "" then Token(Illegal, "``", line)
                    else if 'A' <= w[0] <= 'Z' then Token(Constant, w, line)
                    else if w[0] == '@' then Token(InstanceVar, w, line)
                    else Token(Reserved(w), w, line)
  {
    hide TokenHere, KeywordOf, Reserved, OperatorAt, QuotedEnd;
    QuotedEnds(s, i + 1, e);
    ReservedWords(s[i + 1..e]);
    QuoteHere(s, i, Initial, line);
  }

  lemma QuoteHere(s: string, i: nat, f: Fsm, line: int)
    requires i < |s| && s[i] == '`'
    ensures TokenHere(s, i, f, line) == QuotedToken(s, i, f, line)
  {
    assert OperatorAt(s, i) == None;
    hide OperatorAt, QuotedToken;
  }

  // ------------------------------------------------------- spaces and comments

  /** Spaces are skipped, newlines counted. */
  lemma SpaceSkipped(s: string, i: nat, line: int)
    requires i < |s| && s[i] in " \t\r\n"
    ensures NextFrom(s, i, Initial, line) == NextFrom(s, i + 1, Initial, line + if s[i] == '\n' then 1 else 0)
  {
    hide TokenHere;
    assert SpaceEnd(s, i) == SpaceEnd(s, i + 1);
    assert Newlines(s, i, SpaceEnd(s, i)) == (if s[i] == '\n' then 1 else 0) + Newlines(s, i + 1, SpaceEnd(s, i));
  }

  /** A comment is skipped up to the end of its line. */
  lemma CommentSkipped(s: string, i: nat, e: nat, line: int)
    requires i < e <= |s| && s[i] == '#' && (forall k :: i < k < e ==> s[k] != '\n' && s[k] != '\0')
    requires e < |s| ==> s[e] == '\n'
    ensures NextFrom(s, i, Initial, line) == NextFrom(s, e, Initial, line)
  {
    hide TokenHere;
    assert SpaceEnd(s, i) == i && Newlines(s, i, i) == 0;
    LineEnds(s, i, e);
  }

  lemma {:induction false} LineEnds(s: string, i: nat, e: nat)
    requires i <= e <= |s| && (forall k :: i <= k < e ==> s[k] != '\n' && s[k] != '\0') && (e < |s| ==> s[e] == '\n')
    ensures LineEnd(s, i) == e
    decreases e - i
  {
    if i < e { LineEnds(s, i + 1, e); }
  }

  /** Anything else is a token. */
  lemma NothingSkipped(s: string, i: nat, line: int)
    requires i < |s| ==> s[i] !in " \t\r\n#"
    ensures NextFrom(s, i, Initial, line) == TokenHere(s, i, Initial, line)
  {
    hide TokenHere;
    assert SpaceEnd(s, i) == i && Newlines(s, i, i) == 0;
  }
}
