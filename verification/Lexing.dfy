/**
 What the lexer reads where (compiler/lexer/lexer.go), as functions of the
 input and a position.  Past the end every character is NUL.
 */
module Lexing {
  import opened Wrappers

  datatype Kind =
    | Illegal | Eof | Constant | Ident | InstanceVar | IntTok | Str
    | Assign | Plus | PlusEq | Minus | MinusEq | Bang | Asterisk | Pow | Slash | Dot | And | Or | OrEq | Modulo
    | Match | Lt | Lte | Gt | Gte | Comma | Semicolon | Colon | Bar | Amp
    | LParen | RParen | LBrace | RBrace | LBracket | RBracket
    | Eq | NotEq | IsSame | IsNotSame | Range | RangeExcl | Resolution | RightArrow | LeftArrow | Pipe
    | True | False | NilTok | Keyword

  datatype Token = Token(kind: Kind, literal: string, line: int)

  /** The machine that tells method names and symbols from other words. */
  datatype Fsm = Initial | Method | NoSymbol

  function Move(f: Fsm, target: Fsm): Fsm {
    if target == Initial || f == Initial then target else f
  }

  const NUL := '\0'

  function At(s: string, i: nat): char {
    if i < |s| then s[i] else NUL
  }

  predicate IsDigit(c: char) { '0' <= c <= '9' }

  predicate IsUpper(c: char) { 'A' <= c <= 'Z' }

  predicate IsLetter(c: char) { 'a' <= c <= 'z' || 'A' <= c <= 'Z' || c == '_' }

  predicate IsSpace(c: char) { c == ' ' || c == '\t' || c == '\r' || c == '\n' }

  predicate IsWordChar(c: char) { IsLetter(c) || IsDigit(c) }

  // ----------------------------------------------------------------- strings

  /** A rune as Go turns it into a string: one that is no code point is replaced. */
  function RuneChar(v: int): char {
    if 0 <= v < 0xD800 || 0xE000 <= v < 0x11_0000 then v as char else '\U{FFFD}'
  }

  function FromHex(c: char): Option<int> {
    if '0' <= c <= '9' then Some(c as int - '0' as int)
    else if 'a' <= c <= 'f' then Some(c as int - 'a' as int + 10)
    else if 'A' <= c <= 'F' then Some(c as int - 'A' as int + 10)
    else None
  }

  /** Go's rune is a signed 32-bit integer. */
  function Wrap32(v: int): int {
    (v + 0x8000_0000) % 0x1_0000_0000 - 0x8000_0000
  }

  /** What an escape sequence gives, and the position of its last character. */
  datatype Escaped = Escaped(v: Option<int>, at: nat)

  /** n hexadecimal digits behind i, v being the digits before. */
  function HexEscape(s: string, i: nat, n: nat, v: int): (e: Escaped)
    ensures e.at >= i
    decreases n
  {
    if n == 0 then Escaped(Some(v), i)
    else match FromHex(At(s, i + 1))
      case None => Escaped(None, i + 1)
      case Some(x) => HexEscape(s, i + 1, n - 1, Wrap32(v * 16 + x))
  }

  function OctalEscape(s: string, i: nat, n: nat, v: int): (e: Escaped)
    ensures e.at >= i
    decreases n
  {
    if n == 0 then Escaped(Some(v), i)
    else if !('0' <= At(s, i + 1) <= '7') then Escaped(None, i + 1)
    else OctalEscape(s, i + 1, n - 1, v * 8 + (At(s, i + 1) as int - '0' as int))
  }

  /** escapeSequence at i, which is behind the backslash. */
  function EscapeAt(s: string, i: nat): (e: Escaped)
    ensures e.at >= i
  {
    var c := At(s, i);
    if c == 'a' then Escaped(Some(7), i)
    else if c == 'b' then Escaped(Some(8), i)
    else if c == 'f' then Escaped(Some(12), i)
    else if c == 'n' then Escaped(Some(10), i)
    else if c == 'r' then Escaped(Some(13), i)
    else if c == 't' then Escaped(Some(9), i)
    else if c == 'v' then Escaped(Some(11), i)
    else if c == 'x' then HexEscape(s, i, 2, 0)
    else if c == 'u' then HexEscape(s, i, 4, 0)
    else if c == 'U' then HexEscape(s, i, 8, 0)
    else if '0' <= c <= '7' then OctalEscape(s, i, 2, c as int - '0' as int)
    else Escaped(Some(c as int), i)
  }

  /** One turn of readString's loop at j: the text it adds, and where it stops. */
  function Unit(s: string, j: nat): (r: (string, nat))
    ensures r.1 >= j
  {
    if At(s, j) == '\\' then
      var e := EscapeAt(s, j + 1);
      (if e.v.Some? then [RuneChar(e.v.value)] else "", e.at)
    else ([At(s, j)], j)
  }

  /** readString's loop from j on: the text, and the position behind the literal. */
  function StringFrom(s: string, quote: char, j: nat): (string, nat)
    decreases if j < |s| then |s| - j else 0
  {
    var (text, last) := Unit(s, j);
    var next := last + 1;
    if At(s, next) == quote || At(s, next + 1) == NUL || j >= |s| then (text, next + 1)
    else
      var (more, end) := StringFrom(s, quote, next);
      (text + more, end)
  }

  /** readString at the opening quote. */
  function StringAt(s: string, i: nat): (string, nat) {
    if At(s, i + 1) == At(s, i) then ("", i + 2) else StringFrom(s, At(s, i), i + 1)
  }

  // ------------------------------------------------------------------- words

  function DigitsEnd(s: string, i: nat): (e: nat)
    ensures e >= i
    decreases if i < |s| then |s| - i else 0
  {
    if IsDigit(At(s, i)) && i < |s| then DigitsEnd(s, i + 1) else i
  }

  function WordEnd(s: string, i: nat): (e: nat)
    ensures e >= i
    decreases if i < |s| then |s| - i else 0
  {
    if IsWordChar(At(s, i)) && i < |s| then WordEnd(s, i + 1) else i
  }

  /** readIdentifier: a word, and a question or exclamation mark behind it. */
  function IdentEnd(s: string, i: nat): (e: nat)
    ensures e >= i
  {
    var e := WordEnd(s, i);
    if At(s, e) == '?' || At(s, e) == '!' then e + 1 else e
  }

  function VariableEnd(s: string, i: nat): (e: nat)
    ensures e >= i
    decreases if i < |s| then |s| - i else 0
  {
    if (IsWordChar(At(s, i)) || At(s, i) == '@') && i < |s| then VariableEnd(s, i + 1) else i
  }

  function QuotedEnd(s: string, i: nat): (e: nat)
    ensures e >= i
    decreases if i < |s| then |s| - i else 0
  {
    if At(s, i) != '`' && At(s, i) != '\n' && At(s, i) != NUL && i < |s| then QuotedEnd(s, i + 1) else i
  }

  function LineEnd(s: string, i: nat): (e: nat)
    ensures e >= i
    decreases if i < |s| then |s| - i else 0
  {
    if At(s, i) != '\n' && At(s, i) != NUL && i < |s| then LineEnd(s, i + 1) else i
  }

  function SpaceEnd(s: string, i: nat): (e: nat)
    ensures e >= i
    decreases if i < |s| then |s| - i else 0
  {
    if IsSpace(At(s, i)) && i < |s| then SpaceEnd(s, i + 1) else i
  }

  function Newlines(s: string, i: nat, e: nat): nat
    requires i <= e
    decreases e - i
  {
    if i == e then 0 else (if At(s, i) == '\n' then 1 else 0) + Newlines(s, i + 1, e)
  }

  /** The text from i up to e, which may not go past the end. */
  function Text(s: string, i: nat, e: nat): string {
    if i <= e <= |s| then s[i..e] else if i <= |s| then s[i..] else ""
  }

  function KeywordOf(word: string): Kind {
    if word == "true" then True
    else if word == "false" then False
    else if word == "nil" then NilTok
    else if word in ["def", "if", "elsif", "else", "switch", "case", "default", "return", "self", "super", "while",
                     "yield", "continue", "class", "module", "break", "block!", "block?", "catch",
                       "finally"] then Keyword
    else Ident
  }

  // --------------------------------------------------------------- operators

  /** The operator or separator at i, and its length. */
  function OperatorAt(s: string, i: nat): Option<(Kind, nat)> {
    var a, b, c := At(s, i), At(s, i + 1), At(s, i + 2);
    match a
    case '=' =>
      Some(if b == '=' then (if c == '=' then (IsSame, 3) else (Eq, 2))
           else if b == '~' then (Match, 2) else (Assign, 1))
    case '-' => Some(if b == '=' then (MinusEq, 2) else if b == '>' then (RightArrow, 2) else (Minus, 1))
    case '!' => Some(if b == '=' then (if c == '=' then (IsNotSame, 3) else (NotEq, 2)) else (Bang, 1))
    case '/' => Some((Slash, 1))
    case '*' => Some(if b == '*' then (Pow, 2) else (Asterisk, 1))
    case '<' => Some(if b == '=' then (Lte, 2) else if b == '-' then (LeftArrow, 2) else (Lt, 1))
    case '>' => Some(if b == '=' then (Gte, 2) else (Gt, 1))
    case ';' => Some((Semicolon, 1))
    case ',' => Some((Comma, 1))
    case '(' => Some((LParen, 1))
    case ')' => Some((RParen, 1))
    case '{' => Some((LBrace, 1))
    case '}' => Some((RBrace, 1))
    case '[' => Some((LBracket, 1))
    case ']' => Some((RBracket, 1))
    case '+' => Some(if b == '=' then (PlusEq, 2) else (Plus, 1))
    case '.' => Some(if b == '.' then (if c == '.' then (RangeExcl, 3) else (Range, 2)) else (Dot, 1))
    case '|' =>
      Some(if b == '|' then (if c == '=' then (OrEq, 3) else (Or, 2))
           else if b == '>' then (Pipe, 2) else (Bar, 1))
    case '%' => Some((Modulo, 1))
    case '&' => Some(if b == '&' then (And, 2) else (Amp, 1))
    case _ => None
  }

  // ------------------------------------------------------------------ tokens

  /** A token, the position behind it, and the lexer's state then. */
  datatype Lexed = Lexed(token: Token, at: nat, fsm: Fsm, line: int)

  /** A word that is no constant; quoted words come here too. */
  function WordToken(word: string, at: nat, f: Fsm, line: int): Lexed {
    if f == Method then
      if word == "self" then Lexed(Token(Keyword, word, line), at, Initial, line)
      else Lexed(Token(Ident, word, line), at, NoSymbol, line)
    else if f == Initial then
      var kind := KeywordOf(word);
      Lexed(Token(kind, word, line), at, if word == "def" then Method else if kind == Ident then NoSymbol else f, line)
    else Lexed(Token(Illegal, word, line), at, f, line)
  }

  function QuotedToken(s: string, i: nat, f: Fsm, line: int): Lexed {
    var e := QuotedEnd(s, i + 1);
    var word := Text(s, i + 1, e);
    if word == "" then Lexed(Token(Illegal, "``", line), e + 1, f, line)
    else if IsUpper(word[0]) then Lexed(Token(Constant, word, line), e + 1, Initial, line)
    else if word[0] == '@' then Lexed(Token(InstanceVar, word, line), e + 1, f, line)
    else WordToken(word, e + 1, f, line)
  }

  function ColonToken(s: string, i: nat, f: Fsm, line: int): Lexed {
    if f == NoSymbol then Lexed(Token(Colon, ":", line), i + 1, f, line)
    else if At(s, i + 1) == ':' then Lexed(Token(Resolution, "::", line), i + 2, f, line)
    else if IsLetter(At(s, i + 1)) then
      var e := IdentEnd(s, i + 1);
      Lexed(Token(Str, Text(s, i + 1, e), line), e, f, line)
    else Lexed(Token(Colon, ":", line), i + 1, f, line)
  }

  /** The token that starts at i, which is no space and no comment. */
  function TokenHere(s: string, i: nat, f: Fsm, line: int): Lexed {
    var c := At(s, i);
    var op := OperatorAt(s, i);
    if c == '"' || c == '\'' then
      var (text, end) := StringAt(s, i);
      Lexed(Token(Str, text, line), end, f, line)
    else if op.Some? then
      Lexed(Token(op.value.0, Text(s, i, i + op.value.1), line), i + op.value.1,
            if op.value.0 == Dot then Move(f, Method) else f, line)
    else if c == ':' then ColonToken(s, i, f, line)
    else if c == NUL then Lexed(Token(Eof, "", line), i + 1, f, line)
    else if IsUpper(c) then
      var e := WordEnd(s, i);
      Lexed(Token(Constant, Text(s, i, e), line), e, Initial, line)
    else if IsLetter(c) then
      var e := IdentEnd(s, i);
      WordToken(Text(s, i, e), e, f, line)
    else if c == '`' then QuotedToken(s, i, f, line)
    else if c == '@' then
      if IsLetter(At(s, i + 1)) then
        var e := VariableEnd(s, i);
        Lexed(Token(InstanceVar, Text(s, i, e), line), e, f, line)
      else Lexed(Token(Illegal, [c], line), i, f, line)
    else if IsDigit(c) then
      var e := DigitsEnd(s, i);
      Lexed(Token(IntTok, Text(s, i, e), line), e, f, line)
    else Lexed(Token(Illegal, [c], line), i + 1, f, line)
  }

  /** resetNosymbol. */
  function Reset(s: string, i: nat, f: Fsm): Fsm {
    if f != Method && At(s, i) != ':' then Initial else f
  }

  /** NextToken with the lexer at i. */
  function NextFrom(s: string, i: nat, f: Fsm, line: int): Lexed
    decreases if i < |s| then |s| - i else 0
  {
    var j := SpaceEnd(s, i);
    var f' := Reset(s, i, f);
    var line' := line + Newlines(s, i, j);
    if At(s, j) == '#' then
      CommentEnds(s, j);
      NextFrom(s, LineEnd(s, j), f', line')
    else TokenHere(s, j, f', line')
  }

  lemma CommentEnds(s: string, j: nat)
    requires At(s, j) == '#'
    ensures j < LineEnd(s, j)
  {
  }

  /** The lexer's state before a token. */
  datatype Place = Place(at: nat, fsm: Fsm, line: int)

  const START := Place(0, Initial, 0)

  function Follow(s: string, p: Place): Lexed {
    NextFrom(s, p.at, p.fsm, p.line)
  }

  function Behind(s: string, p: Place): Place {
    var x := Follow(s, p);
    Place(x.at, x.fsm, x.line)
  }

  /** The first n tokens from p on. */
  function TokensFrom(s: string, p: Place, n: nat): (ts: seq<Token>)
    ensures |ts| == n
    decreases n
  {
    if n == 0 then [] else [Follow(s, p).token] + TokensFrom(s, Behind(s, p), n - 1)
  }
}
