/**
 The lexer (compiler/lexer/lexer.go): one character at a time over the input.
 Each method leaves the lexer where the reading functions say.
 */
module Lexers {
  import opened Wrappers
  import opened Lexing

  class Lexer {
    const input: string
    var position: nat        // of the current character
    var readPosition: nat    // of the next one
    var ch: char
    var line: int
    var fsm: Fsm

    ghost predicate Valid()
      reads this
    {
      readPosition == position + 1 && ch == At(input, position)
    }

    ghost function Here(): Place
      reads this
    {
      Place(position, fsm, line)
    }

    constructor (text: string)
      ensures Valid() && input == text && Here() == START
    {
      input := text;
      position, readPosition := 0, 1;
      ch := if |text| > 0 then text[0] else NUL;
      line, fsm := 0, Initial;
    }

    method Advance()
      requires Valid()
      modifies this
      ensures Valid() && Here() == old(Here()).(at := old(position) + 1)
    {
      if readPosition >= |input| {
        ch := NUL;
      } else {
        ch := input[readPosition];
      }
      position := readPosition;
      readPosition := readPosition + 1;
    }

    function Peek(): (c: char)
      requires Valid()
      reads this
      ensures c == At(input, position + 1)
    {
      if readPosition >= |input| then NUL else input[readPosition]
    }

    method SkipWhitespace()
      requires Valid()
      modifies this
      ensures Valid() && fsm == old(fsm)
      ensures position == SpaceEnd(input, old(position)) && line == old(line) + Newlines(input, old(position), position)
    {
      ghost var start := position;
      while IsSpace(ch)
        invariant Valid() && fsm == old(fsm) && start <= position
        invariant SpaceEnd(input, position) == SpaceEnd(input, start)
        invariant line == old(line) + Newlines(input, start, position)
        decreases |input| - position
      {
        NewlinesNext(input, start, position);
        if ch == '\n' { line := line + 1; }
        Advance();
      }
    }

    method ResetNosymbol()
      requires Valid()
      modifies this
      ensures Valid() && Here() == old(Here()).(fsm := Reset(input, old(position), old(fsm)))
    {
      if fsm != Method && ch != ':' { fsm := Move(fsm, Initial); }
    }

    method ReadNumber() returns (text: string)
      requires Valid()
      modifies this
      ensures Valid() && Here() == old(Here()).(at := DigitsEnd(input, old(position)))
      ensures text == Text(input, old(position), position)
    {
      var start := position;
      while IsDigit(ch)
        invariant Valid() && fsm == old(fsm) && line == old(line) && start <= position
        invariant DigitsEnd(input, position) == DigitsEnd(input, start) && (position > start ==> position <= |input|)
        decreases |input| - position
      {
        Advance();
      }
      text := Text(input, start, position);
    }

    method SkipWord()
      requires Valid()
      modifies this
      ensures Valid() && Here() == old(Here()).(at := WordEnd(input, old(position)))
    {
      while IsLetter(ch) || IsDigit(ch)
        invariant Valid() && fsm == old(fsm) && line == old(line) && old(position) <= position
        invariant WordEnd(input, position) == WordEnd(input, old(position))
        decreases |input| - position
      {
        Advance();
      }
    }

    method ReadIdentifier() returns (text: string)
      requires Valid()
      modifies this
      ensures Valid() && Here() == old(Here()).(at := IdentEnd(input, old(position)))
      ensures text == Text(input, old(position), position)
    {
      var start := position;
      SkipWord();
      if ch == '?' || ch == '!' {
        Advance();
      }
      text := Text(input, start, position);
    }

    method ReadConstant() returns (text: string)
      requires Valid()
      modifies this
      ensures Valid() && Here() == old(Here()).(at := WordEnd(input, old(position)))
      ensures text == Text(input, old(position), position)
    {
      var start := position;
      SkipWord();
      text := Text(input, start, position);
    }

    method ReadInstanceVariable() returns (text: string)
      requires Valid()
      modifies this
      ensures Valid() && Here() == old(Here()).(at := VariableEnd(input, old(position)))
      ensures text == Text(input, old(position), position)
    {
      var start := position;
      while IsLetter(ch) || ch == '@' || IsDigit(ch)
        invariant Valid() && fsm == old(fsm) && line == old(line) && start <= position
        invariant VariableEnd(input, position) == VariableEnd(input, start)
        decreases |input| - position
      {
        Advance();
      }
      text := Text(input, start, position);
    }

    method ReadQuotedIdentifier() returns (text: string)
      requires Valid()
      modifies this
      ensures Valid() && Here() == old(Here()).(at := QuotedEnd(input, old(position) + 1) + 1)
      ensures text == Text(input, old(position) + 1, position - 1)
    {
      Advance();
      var start := position;
      while ch != '`' && ch != '\n' && ch != NUL
        invariant Valid() && fsm == old(fsm) && line == old(line) && start <= position
        invariant QuotedEnd(input, position) == QuotedEnd(input, start)
        decreases |input| - position
      {
        Advance();
      }
      text := Text(input, start, position);
      Advance();
    }

    method ReadComment()
      requires Valid()
      modifies this
      ensures Valid() && Here() == old(Here()).(at := LineEnd(input, old(position)))
    {
      while ch != '\n' && ch != NUL
        invariant Valid() && fsm == old(fsm) && line == old(line) && old(position) <= position
        invariant LineEnd(input, position) == LineEnd(input, old(position))
        decreases |input| - position
      {
        Advance();
      }
    }

    /** Digits of an escape sequence, base 16 or 8. */
    method ReadDigits(hex: bool, n: nat, first: int) returns (v: Option<int>)
      requires Valid()
      modifies this
      ensures
        var e := if hex then HexEscape(input, old(position), n, first) else OctalEscape(input, old(position), n, first);
        Valid() && Here() == old(Here()).(at := e.at) && v == e.v
    {
      var value := first;
      for i := 0 to n
        invariant Valid() && fsm == old(fsm) && line == old(line)
        invariant hex ==> HexEscape(input, position, n - i, value) == HexEscape(input, old(position), n, first)
        invariant !hex ==> OctalEscape(input, position, n - i, value) == OctalEscape(input, old(position), n, first)
      {
        Advance();
        if hex {
          var x := FromHex(ch);
          if x.None? { return None; }
          value := Wrap32(value * 16 + x.value);
        } else {
          if !('0' <= ch <= '7') { return None; }
          value := value * 8 + (ch as int - '0' as int);
        }
      }
      v := Some(value);
    }

    method EscapeSequence() returns (v: Option<int>)
      requires Valid()
      modifies this
      ensures var e := EscapeAt(input, old(position)); Valid() && Here() == old(Here()).(at := e.at) && v == e.v
    {
      if ch == 'a' { v := Some(7); }
      else if ch == 'b' { v := Some(8); }
      else if ch == 'f' { v := Some(12); }
      else if ch == 'n' { v := Some(10); }
      else if ch == 'r' { v := Some(13); }
      else if ch == 't' { v := Some(9); }
      else if ch == 'v' { v := Some(11); }
      else if ch == 'x' { v := ReadDigits(true, 2, 0); }
      else if ch == 'u' { v := ReadDigits(true, 4, 0); }
      else if ch == 'U' { v := ReadDigits(true, 8, 0); }
      else if '0' <= ch <= '7' { v := ReadDigits(false, 2, ch as int - '0' as int); }
      else { v := Some(ch as int); }
    }

    method ReadString(quote: char) returns (text: string)
      requires Valid() && ch == quote
      modifies this
      ensures Valid() && (text, position) == StringAt(input, old(position)) && fsm == old(fsm) && line == old(line)
    {
      hide Unit, StringFrom;
      Advance();
      if ch == quote {
        Advance();
        return "";
      }
      ghost var start := position;
      text := "";
      var more := true;
      while more
        invariant Valid() && fsm == old(fsm) && line == old(line)
        invariant more ==> StringFrom(input, quote, start).0 == text + StringFrom(input, quote, position).0
        invariant more ==> StringFrom(input, quote, start).1 == StringFrom(input, quote, position).1
        invariant !more ==> StringFrom(input, quote, start) == (text, position + 1)
        decreases more, |input| - position
      {
        StringTurn(input, quote, position);
        var part := ReadUnit();
        text := text + part;
        Advance();
        if ch == quote || Peek() == NUL { more := false; }
      }
      Advance();
    }

    /** A character or an escape sequence; the lexer stops at its last character. */
    method ReadUnit() returns (part: string)
      requires Valid()
      modifies this
      ensures Valid() && (part, position) == Unit(input, old(position)) && fsm == old(fsm) && line == old(line)
    {
      hide EscapeAt;
      part := "";
      if ch == '\\' {
        Advance();
        var r := EscapeSequence();
        if r.Some? { part := [RuneChar(r.value)]; }
      } else {
        part := [ch];
      }
    }

    method ReadSymbol() returns (text: string)
      requires Valid()
      modifies this
      ensures Valid() && Here() == old(Here()).(at := IdentEnd(input, old(position) + 1))
      ensures text == Text(input, old(position) + 1, position)
    {
      Advance();
      text := ReadIdentifier();
    }

    /** The operator at the current character, which is then the last one of it. */
    method ReadOperator() returns (op: Option<(Kind, nat)>)
      requires Valid()
      modifies this
      ensures Valid() && op == OperatorAt(input, old(position))
      ensures op.Some? ==> op.value.1 >= 1
      ensures Here() == if op.None? then old(Here()) else old(Here()).(at := old(position) + op.value.1 - 1)
    {
      op := None;
      match ch {
        case '=' =>
          if Peek() == '=' {
            Advance();
            if Peek() == '=' { Advance(); op := Some((IsSame, 3)); } else { op := Some((Eq, 2)); }
          } else if Peek() == '~' { Advance(); op := Some((Match, 2)); }
          else { op := Some((Assign, 1)); }
        case '-' =>
          if Peek() == '=' { Advance(); op := Some((MinusEq, 2)); }
          else if Peek() == '>' { Advance(); op := Some((RightArrow, 2)); }
          else { op := Some((Minus, 1)); }
        case '!' =>
          if Peek() == '=' {
            Advance();
            if Peek() == '=' { Advance(); op := Some((IsNotSame, 3)); } else { op := Some((NotEq, 2)); }
          } else { op := Some((Bang, 1)); }
        case '/' => op := Some((Slash, 1));
        case '*' => if Peek() == '*' { Advance(); op := Some((Pow, 2)); } else { op := Some((Asterisk, 1)); }
        case '<' =>
          if Peek() == '=' { Advance(); op := Some((Lte, 2)); }
          else if Peek() == '-' { Advance(); op := Some((LeftArrow, 2)); }
          else { op := Some((Lt, 1)); }
        case '>' => if Peek() == '=' { Advance(); op := Some((Gte, 2)); } else { op := Some((Gt, 1)); }
        case ';' => op := Some((Semicolon, 1));
        case ',' => op := Some((Comma, 1));
        case '(' => op := Some((LParen, 1));
        case ')' => op := Some((RParen, 1));
        case '{' => op := Some((LBrace, 1));
        case '}' => op := Some((RBrace, 1));
        case '[' => op := Some((LBracket, 1));
        case ']' => op := Some((RBracket, 1));
        case '+' => if Peek() == '=' { Advance(); op := Some((PlusEq, 2)); } else { op := Some((Plus, 1)); }
        case '.' =>
          if Peek() == '.' {
            Advance();
            if Peek() == '.' { Advance(); op := Some((RangeExcl, 3)); } else { op := Some((Range, 2)); }
          } else { op := Some((Dot, 1)); }
        case '|' =>
          if Peek() == '|' {
            Advance();
            if Peek() == '=' { Advance(); op := Some((OrEq, 3)); } else { op := Some((Or, 2)); }
          } else if Peek() == '>' { Advance(); op := Some((Pipe, 2)); }
          else { op := Some((Bar, 1)); }
        case '%' => op := Some((Modulo, 1));
        case '&' => if Peek() == '&' { Advance(); op := Some((And, 2)); } else { op := Some((Amp, 1)); }
        case _ =>
      }
    }

    method NextToken() returns (tok: Token)
      requires Valid()
      modifies this
      ensures Valid() && tok == Follow(input, old(Here())).token && Here() == Behind(input, old(Here()))
      decreases |input| - position
    {
      hide TokenHere, StringAt, WordToken;
      ghost var start := Here();
      ResetNosymbol();
      SkipWhitespace();
      if ch == '#' {
        CommentEnds(input, position);
        ReadComment();
        tok := NextToken();
      } else {
        tok := TokenNow();
      }
    }

    /** The token at the current character. */
    method TokenNow() returns (tok: Token)
      requires Valid() && ch != '#'
      modifies this
      ensures
        var x := TokenHere(input, old(position), old(fsm), old(line));
        && Valid() && tok == x.token && Here() == Place(x.at, x.fsm, x.line)
    {
      hide StringAt, OperatorAt, IdentEnd, WordEnd, DigitsEnd, VariableEnd, QuotedEnd, KeywordOf, Text;
      var start := position;
      if ch == '"' || ch == '\'' {
        var text := ReadString(ch);
        return Token(Str, text, line);
      }
      var op := ReadOperator();
      if op.Some? {
        Advance();
        if op.value.0 == Dot { fsm := Move(fsm, Method); }
        tok := Token(op.value.0, Text(input, start, position), line);
      } else if ch == ':' {
        tok := ColonNow();
      } else if ch == NUL {
        tok := Token(Eof, "", line);
        Advance();
      } else if IsUpper(ch) {
        var text := ReadConstant();
        tok := Token(Constant, text, line);
        fsm := Move(fsm, Initial);
      } else if IsLetter(ch) {
        var text := ReadIdentifier();
        tok := Word(text);
      } else if ch == '`' {
        tok := QuotedNow();
      } else if ch == '@' {
        if IsLetter(Peek()) {
          var text := ReadInstanceVariable();
          tok := Token(InstanceVar, text, line);
        } else {
          tok := Token(Illegal, [ch], line);
        }
      } else if IsDigit(ch) {
        var text := ReadNumber();
        tok := Token(IntTok, text, line);
      } else {
        tok := Token(Illegal, [ch], line);
        Advance();
      }
    }

    method ColonNow() returns (tok: Token)
      requires Valid() && ch == ':'
      modifies this
      ensures
        var x := ColonToken(input, old(position), old(fsm), old(line));
        && Valid() && tok == x.token && Here() == Place(x.at, x.fsm, x.line)
    {
      hide IdentEnd, Text;
      if fsm == NoSymbol {
        tok := Token(Colon, ":", line);
        Advance();
      } else if Peek() == ':' {
        Advance();
        tok := Token(Resolution, "::", line);
        Advance();
      } else if IsLetter(Peek()) {
        var text := ReadSymbol();
        tok := Token(Str, text, line);
      } else {
        tok := Token(Colon, ":", line);
        Advance();
      }
    }

    method QuotedNow() returns (tok: Token)
      requires Valid() && ch == '`'
      modifies this
      ensures
        var x := QuotedToken(input, old(position), old(fsm), old(line));
        && Valid() && tok == x.token && Here() == Place(x.at, x.fsm, x.line)
    {
      hide QuotedEnd, Text, KeywordOf;
      var text := ReadQuotedIdentifier();
      if |text| == 0 {
        tok := Token(Illegal, "``", line);
      } else if IsUpper(text[0]) {
        tok := Token(Constant, text, line);
        fsm := Move(fsm, Initial);
      } else if text[0] == '@' {
        tok := Token(InstanceVar, text, line);
      } else {
        tok := Word(text);
      }
    }

    /** What kind of word it is depends on the state, and the state on the word. */
    method Word(text: string) returns (tok: Token)
      requires Valid()
      modifies `fsm
      ensures var x := WordToken(text, position, old(fsm), line); Valid() && tok == x.token && fsm == x.fsm
    {
      hide KeywordOf;
      var kind := Illegal;
      if fsm == Method {
        kind := if text == "self" then Keyword else Ident;
        fsm := Move(fsm, Initial);
      } else if fsm == Initial {
        kind := KeywordOf(text);
        if text == "def" { fsm := Move(fsm, Method); }
      }
      if kind == Ident { fsm := Move(fsm, NoSymbol); }
      tok := Token(kind, text, line);
    }
  }

  /** The reader's loop at j, one turn at a time. */
  lemma StringTurn(s: string, quote: char, j: nat)
    ensures
      var (text, last) := Unit(s, j);
      var rest := StringFrom(s, quote, last + 1);
      StringFrom(s, quote, j) ==
        if At(s, last + 1) == quote || At(s, last + 2) == NUL then (text, last + 2) else (text + rest.0, rest.1)
  {
    hide EscapeAt;
    assert j >= |s| ==> At(s, Unit(s, j).1 + 2) == NUL;
  }

  lemma {:induction false} NewlinesNext(s: string, i: nat, e: nat)
    requires i <= e
    ensures Newlines(s, i, e + 1) == Newlines(s, i, e) + (if At(s, e) == '\n' then 1 else 0)
    decreases e - i
  {
    if i < e { NewlinesNext(s, i + 1, e); }
  }
}
