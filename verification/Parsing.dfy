/**
 The Pratt parser over a list of tokens (compiler/parser/expression_parsing.go,
 precedence/precedence.go and data_type_parsing.go), for literals, names,
 prefix and binary operators, groups and arrays.  None is a syntax error, or a
 construct outside these.
 */
module Parsing {
  import opened Wrappers
  import opened Lexing

  const LOWEST := 1
  const NORMAL := 2
  const ASSIGN := 3
  const LOGIC := 4
  const RANGE := 5
  const EQUALS := 6
  const COMPARE := 7
  const SUM := 8
  const PRODUCT := 9
  const BANG_PREFIX := 10
  const INDEX := 11
  const CALL := 12
  const MINUS_PREFIX := 13

  /** precedence.LookupTable; a kind that is not in it has precedence Normal.  Of the
      words, catch, finally and class have the precedence of calls. */
  function Prec(t: Token): nat {
    match t.kind
    case Eq => EQUALS
    case NotEq => EQUALS
    case IsSame => EQUALS
    case IsNotSame => EQUALS
    case Match => COMPARE
    case Lt => COMPARE
    case Lte => COMPARE
    case Gt => COMPARE
    case Gte => COMPARE
    case And => LOGIC
    case Or => LOGIC
    case Range => RANGE
    case RangeExcl => RANGE
    case Plus => SUM
    case Minus => SUM
    case Modulo => SUM
    case Slash => PRODUCT
    case Asterisk => PRODUCT
    case Pow => PRODUCT
    case LBracket => INDEX
    case Dot => CALL
    case LParen => CALL
    case Resolution => CALL
    case RightArrow => CALL
    case LeftArrow => CALL
    case Pipe => CALL
    case Ident => CALL
    case Keyword => if IsKeywordOperator(t) then CALL else NORMAL
    case Assign => ASSIGN
    case PlusEq => ASSIGN
    case MinusEq => ASSIGN
    case OrEq => ASSIGN
    case Colon => ASSIGN
    case _ => NORMAL
  }

  predicate IsKeywordOperator(t: Token) {
    t.kind == Ident || (t.kind == Keyword && (t.literal == "catch" || t.literal == "finally" || t.literal == "class"))
  }

  /** The kinds parseInfixExpression is registered for. */
  predicate IsInfix(k: Kind) {
    k == Plus || k == Minus || k == Modulo || k == Slash || k == Asterisk || k == Pow
    || k == Eq || k == NotEq || k == IsSame || k == IsNotSame || k == Match || k == Lt || k == Lte || k == Gt
      || k == Gte
    || k == And || k == Or || k == Resolution || k == RightArrow || k == LeftArrow || k == Pipe
  }

  /** The kinds with another infix function. */
  predicate IsOtherInfix(t: Token) {
    var k := t.kind;
    k == PlusEq || k == MinusEq || k == OrEq || k == Comma || k == Assign || k == Range || k == RangeExcl
    || k == Dot || k == LParen || k == LBracket || k == Colon || IsKeywordOperator(t)
  }

  predicate IsPrefix(k: Kind) {
    k == Minus || k == Plus || k == Asterisk || k == Bang || k == Amp || k == RightArrow || k == LeftArrow
  }

  /** arguments.Tokens: what may start an argument written without parentheses. */
  predicate StartsArgument(t: Token) {
    var k := t.kind;
    k == IntTok || k == Str || k == True || k == False || k == NilTok || k == InstanceVar || k == Constant
      || k == LBrace
    || k == Amp || (k == Keyword && t.literal == "self")
  }

  datatype Tree =
    | Int(literal: string, value: int)
    | Name(name: string)
    | Quote(s: string)
    | Truth(b: bool)
    | Nothing
    | Pre(op: Kind, right: Tree)
    | Bin(op: Kind, left: Tree, right: Tree)
    | List(elems: seq<Tree>)

  type Parsed = Option<(Tree, nat)>

  function Tok(ts: seq<Token>, i: nat): Token {
    if i < |ts| then ts[i] else Token(Eof, "", if ts == [] then 0 else ts[|ts| - 1].line)
  }

  predicate SameLine(a: Token, b: Token) {
    a.line == b.line && b.kind != Eof
  }

  // ----------------------------------------------------------------- numbers

  function DigitValue(c: char): int { c as int - '0' as int }

  /** The digits of s up to n in the given base; None when one of them is none. */
  function Digits(s: string, n: nat, base: int): (v: Option<int>)
    requires n <= |s|
  {
    if n == 0 then Some(0)
    else
      var before := Digits(s, n - 1, base);
      var c := s[n - 1];
      if before.None? || !IsDigit(c) || DigitValue(c) >= base then None else Some(before.value * base + DigitValue(c))
  }

  const MAX_INT := 0x7FFF_FFFF_FFFF_FFFF

  /** strconv.ParseInt(s, 0, 64) of a digit string: a leading zero means octal. */
  function ParseInt(s: string): Option<int> {
    var v := if |s| == 0 then None
             else if |s| > 1 && s[0] == '0' then Digits(s[1..], |s| - 1, 8)
             else Digits(s, |s|, 10);
    if v.Some? && v.value <= MAX_INT then v else None
  }

  // -------------------------------------------------------------- expressions

  /** parseExpression with token i as the current one; the result comes with the index
      of the token that is then current. */
  function Parse(ts: seq<Token>, i: nat, prec: nat): (r: Parsed)
    ensures r.Some? ==> i <= r.value.1 < |ts|
    decreases |ts| - i, 2
  {
    if i >= |ts| then None
    else match Prefix(ts, i)
      case None => None
      case Some((left, j)) => Loop(ts, j, prec, left)
  }

  /** The prefix function of the current token. */
  function Prefix(ts: seq<Token>, i: nat): (r: Parsed)
    requires i < |ts|
    ensures r.Some? ==> i <= r.value.1 < |ts|
    decreases |ts| - i, 1
  {
    var t := ts[i];
    if t.kind == Ident then
      if StartsArgument(Tok(ts, i + 1)) && SameLine(t, Tok(ts, i + 1)) then None else Some((Name(t.literal), i))
    else if t.kind == IntTok then
      (match ParseInt(t.literal)
       case None => None
       case Some(v) => Some((Int(t.literal, v), i)))
    else if t.kind == Str then Some((Quote(t.literal), i))
    else if t.kind == True then Some((Truth(true), i))
    else if t.kind == False then Some((Truth(false), i))
    else if t.kind == NilTok then Some((Nothing, i))
    else if IsPrefix(t.kind) then
      (match Parse(ts, i + 1, if t.kind == Bang then BANG_PREFIX else MINUS_PREFIX)
       case None => None
       case Some((right, j)) => Some((Pre(t.kind, right), j)))
    else if t.kind == LParen then GroupAt(ts, i)
    else if t.kind == LBracket then ArrayAt(ts, i)
    else None
  }

  /** parseGroupedExpression at the opening parenthesis. */
  function GroupAt(ts: seq<Token>, i: nat): (r: Parsed)
    requires i < |ts|
    ensures r.Some? ==> i <= r.value.1 < |ts|
    decreases |ts| - i, 0
  {
    match Parse(ts, i + 1, NORMAL)
    case None => None
    case Some((e, j)) => if Tok(ts, j + 1).kind == RParen && j + 1 < |ts| then Some((e, j + 1)) else None
  }

  /** parseArrayExpression at the opening bracket. */
  function ArrayAt(ts: seq<Token>, i: nat): (r: Parsed)
    requires i < |ts|
    ensures r.Some? ==> i <= r.value.1 < |ts|
    decreases |ts| - i, 0
  {
    if Tok(ts, i + 1).kind == RBracket && i + 1 < |ts| then Some((List([]), i + 1))
    else match Elements(ts, i + 1, [])
      case None => None
      case Some((es, j)) => if Tok(ts, j + 1).kind == RBracket && j + 1 < |ts| then Some((List(es), j + 1)) else None
  }

  /** parseArrayElements from the first token of an element. */
  function Elements(ts: seq<Token>, i: nat, before: seq<Tree>): (r: Option<(seq<Tree>, nat)>)
    ensures r.Some? ==> i <= r.value.1 < |ts|
    decreases |ts| - i, 3
  {
    if i >= |ts| then None
    else match Parse(ts, i, NORMAL)
      case None => None
      case Some((e, j)) =>
        if Tok(ts, j + 1).kind == Comma then Elements(ts, j + 2, before + [e]) else Some((before + [e], j))
  }

  /** Whether the loop goes on with the token behind the current one. */
  predicate GoesOn(cur: Token, peek: Token, prec: nat) {
    peek.kind != Semicolon && (prec < Prec(peek) || IsKeywordOperator(peek)) && SameLine(cur, peek)
  }

  /** The loop over infix operators, token i being the last of the left operand. */
  function Loop(ts: seq<Token>, i: nat, prec: nat, left: Tree): (r: Parsed)
    requires i < |ts|
    ensures r.Some? ==> i <= r.value.1 < |ts|
    decreases |ts| - i, 0
  {
    var peek := Tok(ts, i + 1);
    if i + 1 < |ts| && GoesOn(ts[i], peek, prec) then
      if IsInfix(peek.kind) then
        if peek.literal == "*" && Tok(ts, i + 2).literal == "*" then None
        else
          (match Parse(ts, i + 2, if peek.kind == And || peek.kind == Or then NORMAL else Prec(peek))
           case None => None
           case Some((right, j)) => Loop(ts, j, prec, Bin(peek.kind, left, right)))
      else if IsOtherInfix(peek) then None
      else Some((left, i))
    else if peek.kind == Semicolon && i + 1 < |ts| then Some((left, i + 1))
    else Some((left, i))
  }

  /** parseExpressionStatement at token i. */
  function ParseStatement(ts: seq<Token>, i: nat): Parsed {
    Parse(ts, i, if Tok(ts, i).kind == Ident || Tok(ts, i).kind == InstanceVar then LOWEST else NORMAL)
  }
}
