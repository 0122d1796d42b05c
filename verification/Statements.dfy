/**
 Expressions with a semicolon behind them.  The parser takes the semicolon as the
 end of the operand in front of it, and the loops around that operand go on
 behind the semicolon: `1 + 2; -3` on one line is one expression.
 */
module Statements {
  import opened Wrappers
  import opened Lexing
  import opened Parsing
  import opened Grammar

  /** What an expression with an operator or a sign goes on with behind a semicolon, when it is read at level p:
      another semicolon, or a token on the line that some infix function is registered for. */
  predicate ReadOn(semi: Token, t: Token, p: nat) {
    || t.kind == Semicolon
    || (SameLine(semi, t) && (p < Prec(t) || IsKeywordOperator(t)) && (IsInfix(t.kind) || IsOtherInfix(t)))
  }

  predicate SemicolonAt(ts: seq<Token>, m: nat) {
    m + 1 < |ts| && ts[m].kind == Semicolon
  }

  /** In front of a semicolon the loop ends, with the semicolon taken. */
  lemma EndsOperand(ts: seq<Token>, m: nat, p: nat, left: Tree)
    requires SemicolonAt(ts, m) && m > 0
    ensures Loop(ts, m - 1, p, left) == Some((left, m))
  {
    hide Parse;
  }

  /** Behind it the loop goes on or ends, whatever it has read so far. */
  lemma GoesBehind(ts: seq<Token>, m: nat, p: nat, left: Tree)
    requires SemicolonAt(ts, m)
    ensures var r := Loop(ts, m, p, left);
            if ReadOn(ts[m], ts[m + 1], p) then r.None? || r.value.1 > m else r == Some((left, m))
  {
    hide Prec;
  }

  /** Further on than token m, or refused. */
  predicate Beyond(r: Parsed, m: nat) { r.None? || r.value.1 > m }

  lemma BeyondLoop(ts: seq<Token>, j: nat, p: nat, left: Tree, m: nat)
    requires j < |ts| && j > m
    ensures Beyond(Loop(ts, j, p, left), m)
  {
    hide Loop, Prec, IsInfix, IsOtherInfix;
  }

  lemma ReadOnLower(semi: Token, t: Token, p: nat, q: nat)
    requires p <= q && ReadOn(semi, t, q)
    ensures ReadOn(semi, t, p)
  {
    hide Prec;
  }

  predicate Single(e: Expr) { e.Leaf? || e.Paren? }

  /** Read up to token m, or further on; the whole of it is read if nothing behind the semicolon can be read on
      at any level, and further on if something can at level p. */
  predicate Settled(e: Expr, r: Parsed, ts: seq<Token>, m: nat, p: nat, least: nat)
    requires SemicolonAt(ts, m)
  {
    && (r == Some((Strip(e), m)) || Beyond(r, m))
    && (Single(e) || !ReadOn(ts[m], ts[m + 1], least) ==> r == Some((Strip(e), m)))
    && (!Single(e) && ReadOn(ts[m], ts[m + 1], p) ==> Beyond(r, m))
  }

  /** A shape with a semicolon behind it: a single operand ends there, and everything else ends there
      exactly if it cannot be read on. */
  lemma {:induction false} ReadsTo(ts: seq<Token>, i: nat, e: Expr, p: nat, line: int, least: nat)
    requires Shape(e) && !Clash(e) && Stands(ts, i, e, line) && Bound(e) > p && least <= p && least <= NORMAL
    requires SemicolonAt(ts, i + |Tokens(e)|)
    ensures Settled(e, Parse(ts, i, p), ts, i + |Tokens(e)|, p, least)
    decreases e, 1
  {
    hide Loop, Prefix, Tokens, Parse, Shape, Stands, Strip, Bound, EdgeLevel, Clash, ReadOn;
    match e
    case Leaf(_) =>
      ReadsLeafTo(ts, i, e, p, line);
    case Paren(_, _, _) =>
      ReadsParen(ts, i, e, p, line);
      EndsOperand(ts, i + |Tokens(e)|, p, Strip(e));
    case Sign(_, _) => ReadsSignTo(ts, i, e, p, line, least);
    case Binary(_, _, _) => ReadsBinaryTo(ts, i, e, p, line, least);
  }

  lemma ReadsLeafTo(ts: seq<Token>, i: nat, e: Expr, p: nat, line: int)
    requires e.Leaf? && Shape(e) && Stands(ts, i, e, line) && SemicolonAt(ts, i + |Tokens(e)|)
    ensures Parse(ts, i, p) == Some((Strip(e), i + |Tokens(e)|))
  {
    hide Loop;
    assert ts[i..i + 1] == [e.t];
    assert ts[i] == ts[i..i + 1][0];
    EndsOperand(ts, i + 1, p, Strip(e));
  }

  /** The loop around an operand that is settled, at a level not above its own. */
  lemma LoopSettles(e: Expr, x: Expr, r: Parsed, ts: seq<Token>, m: nat, p: nat, q: nat, least: nat)
    requires SemicolonAt(ts, m) && r.Some? && r.value.1 < |ts| && Settled(x, r, ts, m, q, least) && !Single(e)
    requires least <= q && least <= p
    requires e.Sign? || e.Binary?
    requires e.Sign? ==> e.operand == x
    requires e.Binary? ==> e.right == x
    ensures
      var left := if e.Sign? then Pre(e.op.kind, r.value.0) else Bin(e.op.kind, Strip(e.left), r.value.0);
      Settled(e, Loop(ts, r.value.1, p, left), ts, m, p, least)
  {
    hide Loop, ReadOn;
    var left := if e.Sign? then Pre(e.op.kind, r.value.0) else Bin(e.op.kind, Strip(e.left), r.value.0);
    if ReadOn(ts[m], ts[m + 1], p) { ReadOnLower(ts[m], ts[m + 1], least, p); }
    if r.value.1 > m {
      BeyondLoop(ts, r.value.1, p, left, m);
    } else {
      GoesBehind(ts, m, p, left);
    }
  }

  lemma {:induction false} ReadsSignTo(ts: seq<Token>, i: nat, e: Expr, p: nat, line: int, least: nat)
    requires e.Sign? && Shape(e) && !Clash(e) && Stands(ts, i, e, line) && least <= p && least <= NORMAL
    requires SemicolonAt(ts, i + |Tokens(e)|)
    ensures Settled(e, Parse(ts, i, p), ts, i + |Tokens(e)|, p, least)
    decreases e, 0
  {
    hide Loop, Prefix, Tokens, Parse, Stands, ReadOn, Shape, Bound, EdgeLevel, Settled, Clash, IsSign, Strip, Prec;
    var m, q := i + |Tokens(e)|, EdgeLevel(e);
    StandsSign(ts, i, e, line);
    SignEdge(e);
    ReadsTo(ts, i + 1, e.operand, q, line, least);
    var r := Parse(ts, i + 1, q);
    if r.None? {
      NoSigned(ts, i, p);
      NoneSettles(e, e.operand, ts, m, p, q, least);
    } else {
      SignStep(ts, i, p, r.value.0, r.value.1);
      LoopSettles(e, e.operand, r, ts, m, p, q, least);
    }
  }

  /** Where the operand is refused, so is the whole. */
  lemma NoneSettles(e: Expr, x: Expr, ts: seq<Token>, m: nat, p: nat, q: nat, least: nat)
    requires SemicolonAt(ts, m) && Settled(x, None, ts, m, q, least) && !Single(e)
    ensures Settled(e, None, ts, m, p, least)
  {
    hide ReadOn;
  }

  lemma SignEdge(e: Expr)
    requires e.Sign? && Shape(e)
    ensures Shape(e.operand) && IsSign(e.op) && Bound(e.operand) > EdgeLevel(e) >= NORMAL
    ensures EdgeLevel(e) == (if e.op.kind == Bang then BANG_PREFIX else MINUS_PREFIX) && Clash(e.operand) == Clash(e)
  {
    ShapeBound(e.operand);
  }

  lemma {:induction false} ReadsBinaryTo(ts: seq<Token>, i: nat, e: Expr, p: nat, line: int, least: nat)
    requires e.Binary? && Shape(e) && !Clash(e) && Stands(ts, i, e, line) && Bound(e) > p && least <= p
    requires least <= NORMAL
    requires SemicolonAt(ts, i + |Tokens(e)|)
    ensures Settled(e, Parse(ts, i, p), ts, i + |Tokens(e)|, p, least)
    decreases e, 0
  {
    hide Loop, Tokens, Parse, Prec, IsBinary, Shape, Bound, EdgeLevel, Strip, RightLevel, Ends, IsLogic, ReadOn;
    hide Settled, Stands;
    StandsBinary(ts, i, e, line);
    BinaryParts(e);
    RightAbove(e);
    var k, m, q := i + |Tokens(e.left)|, i + |Tokens(e)|, RightLevel(e.op);
    LeftEnds(e.op, e.left, line);
    ReadsShape(ts, i, e.left, p, line);
    OperandsStand(ts, i, e, line);
    ReadsTo(ts, k + 1, e.right, q, line, least);
    var r := Parse(ts, k + 1, q);
    if r.None? {
      LoopFails(ts, k - 1, p, Strip(e.left));
      NoneSettles(e, e.right, ts, m, p, q, least);
    } else {
      LoopTakes(ts, k - 1, p, Strip(e.left), r.value.0, r.value.1);
      LoopSettles(e, e.right, r, ts, m, p, q, least);
    }
  }

  lemma RightAbove(e: Expr)
    requires e.Binary? && Shape(e)
    ensures RightLevel(e.op) >= NORMAL
  {
    OpLevels(e.op);
  }

  // ------------------------------------------------------------- statements

  /** The kinds that stand between operands. */
  predicate Between(t: Token) {
    || t.kind in {Plus, Minus, Modulo, Slash, Asterisk, Pow, Eq, NotEq, IsSame, IsNotSame, Match, Lt, Lte, Gt, Gte,
                  And, Or, Resolution, RightArrow, LeftArrow, Pipe, PlusEq, MinusEq, OrEq, Assign, Range, RangeExcl,
                  Dot, LParen, LBracket, Colon, Ident}
    || (t.kind == Keyword && t.literal in {"catch", "finally", "class"})
  }

  /** They are the kinds with an infix function, of which only the comma has no level of its own. */
  lemma BetweenInfix(t: Token)
    ensures IsInfix(t.kind) || IsOtherInfix(t) <==> Between(t) || t.kind == Comma
    ensures IsKeywordOperator(t) ==> Between(t)
  {
    if t.kind in {Plus, Minus, Modulo, Slash, Asterisk, Pow, Eq, NotEq, IsSame, IsNotSame, Match} {
    } else if t.kind in {Lt, Lte, Gt, Gte, And, Or, Resolution, RightArrow, LeftArrow, Pipe} {
    } else if t.kind in {PlusEq, MinusEq, OrEq, Assign, Range, RangeExcl, Dot, LParen, LBracket, Colon, Comma} {
    } else {
      assert IsInfix(t.kind) || IsOtherInfix(t) <==> IsKeywordOperator(t);
    }
    hide Prec;
  }

  lemma BetweenLevel(t: Token)
    requires IsInfix(t.kind) || IsOtherInfix(t)
    ensures t.kind != Comma ==> Prec(t) > NORMAL
    ensures t.kind == Comma ==> Prec(t) == NORMAL
  {
    if IsInfix(t.kind) { InfixLevel(t); } else { OtherLevel(t); }
    hide Prec, IsInfix, IsOtherInfix;
  }

  lemma InfixLevel(t: Token)
    requires IsInfix(t.kind)
    ensures Prec(t) > NORMAL && t.kind != Comma
  {
  }

  lemma OtherLevel(t: Token)
    requires IsOtherInfix(t)
    ensures t.kind != Comma ==> Prec(t) > NORMAL
    ensures t.kind == Comma ==> Prec(t) == NORMAL
  {
    if t.kind in {PlusEq, MinusEq, OrEq, Comma, Assign} {
    } else if t.kind in {Range, RangeExcl, Dot, LParen, LBracket, Colon} {
    } else {
      assert IsKeywordOperator(t);
    }
  }

  lemma BetweenReadsOn(semi: Token, t: Token, p: nat)
    requires semi.kind == Semicolon && LOWEST <= p <= NORMAL
    ensures t.kind != Comma || p == NORMAL ==>
              (ReadOn(semi, t, p) <==> t.kind == Semicolon || (t.line == semi.line && Between(t)))
    ensures t.kind == Comma && p == LOWEST ==> (ReadOn(semi, t, p) <==> t.line == semi.line)
  {
    BetweenInfix(t);
    if IsInfix(t.kind) || IsOtherInfix(t) { BetweenLevel(t); }
    hide Prec, IsInfix, IsOtherInfix, Between;
    assert t.kind == Comma ==> !IsKeywordOperator(t);
    if t.kind == Eof { EofEnds(t); }
  }

  lemma EofEnds(t: Token)
    requires t.kind == Eof
    ensures !IsInfix(t.kind) && !IsOtherInfix(t) && !Between(t)
  {
  }

  /** A line's first statement, an expression with a semicolon behind it: the statement is the expression if that is a
      single operand or a group; otherwise it is, exactly if what follows is neither another semicolon nor, on the same
      line, a token that can stand between operands (a comma can, if the line begins with a name). */
  lemma StatementEnds(e: Expr, semi: Token, rest: seq<Token>, line: int)
    requires Shape(e) && OnLine(Tokens(e) + [semi], line) && !Doubled(Tokens(e)) && semi.kind == Semicolon && rest != []
    ensures
      ParseStatement(Tokens(e) + [semi] + rest, 0) == Some((Strip(e), |Tokens(e)|)) <==>
        || e.Leaf? || e.Paren?
        || (rest[0].kind != Semicolon
            && !(rest[0].line == line && (Between(rest[0]) || (rest[0].kind == Comma && Tokens(e)[0].kind == Ident))))
  {
    hide Parse, Tokens, Shape, Clash, Doubled, ReadOn, Between;
    var ts := Tokens(e) + [semi] + rest;
    var m := |Tokens(e)|;
    assert ts[0..0 + m] == Tokens(e);
    assert ts[0] == Tokens(e)[0];
    assert forall k :: 0 <= k <= m ==> ts[k] == (Tokens(e) + [semi])[k];
    var p := if ts[0].kind == Ident || ts[0].kind == InstanceVar then LOWEST else NORMAL;
    LevelAboveNormal(e);
    ClashIsDoubled(e);
    FirstKind(e);
    BetweenReadsOn(semi, rest[0], p);
    ReadsTo(ts, 0, e, p, line, p);
  }

  lemma {:induction false} FirstKind(e: Expr)
    requires Shape(e)
    ensures Tokens(e)[0].kind != InstanceVar
  {
    hide IsBinary, ParseInt, Level, Tier;
    match e
    case Binary(_, l, _) => FirstKind(l);
    case _ =>
  }

  /** `a s b; p c` on one line, for any two binary operators, is the one expression (a s b) p c. */
  lemma SemicolonPassed(a: Token, s: Token, b: Token, semi: Token, p: Token, c: Token, line: int)
    requires Shape(Leaf(a)) && Shape(Leaf(b)) && Shape(Leaf(c)) && IsBinary(s) && IsBinary(p)
    requires b.literal != "*" && c.literal != "*" && semi.kind == Semicolon && OnLine([a, s, b, semi, p, c], line)
    ensures
      var x, y, z := Strip(Leaf(a)), Strip(Leaf(b)), Strip(Leaf(c));
      ParseStatement([a, s, b, semi, p, c, END], 0) == Some((Bin(p.kind, Bin(s.kind, x, y), z), 5))
  {
    hide Parse, Loop, Tokens, Shape, Stands, Strip, IsBinary, Prec, RightLevel, Ends, ReadOn, IsLogic, ParseInt;
    var ts := [a, s, b, semi, p, c, END];
    var x, y, z := Strip(Leaf(a)), Strip(Leaf(b)), Strip(Leaf(c));
    var l := if a.kind == Ident || a.kind == InstanceVar then LOWEST else NORMAL;
    FirstOperator(ts, l, line);
    OperatorEnds(p, l, line);
    LeafStands(ts, 5, line);
    EofReads(ts, 5, Leaf(c), RightLevel(p), line);
    LoopTakes(ts, 3, l, Bin(s.kind, x, y), z, 5);
    LoopStops(ts, 5, l, Bin(p.kind, Bin(s.kind, x, y), z)) by { EofStops(END, l, line); }
  }

  /** A leaf, an operator, a leaf and a semicolon, at the beginning. */
  lemma FirstOperator(ts: seq<Token>, l: nat, line: int)
    requires |ts| > 4 && Shape(Leaf(ts[0])) && IsBinary(ts[1]) && Shape(Leaf(ts[2])) && ts[3].kind == Semicolon
    requires ts[0].line == ts[1].line == ts[2].line == line && ts[2].literal != "*" && l <= NORMAL
    ensures Parse(ts, 0, l) == Loop(ts, 3, l, Bin(ts[1].kind, Strip(Leaf(ts[0])), Strip(Leaf(ts[2]))))
  {
    hide Parse, Loop, Tokens, Shape, Stands, Strip, IsBinary, Prec, RightLevel, Ends, IsLogic, ParseInt;
    LeafStands(ts, 0, line);
    LeafStands(ts, 2, line);
    OperatorEnds(ts[1], l, line);
    ReadsLeaf(ts, 0, Leaf(ts[0]), l, line);
    ReadsLeafTo(ts, 2, Leaf(ts[2]), RightLevel(ts[1]), line);
    LoopTakes(ts, 0, l, Strip(Leaf(ts[0])), Strip(Leaf(ts[2])), 3);
  }

  lemma LeafStands(ts: seq<Token>, i: nat, line: int)
    requires i < |ts| && ts[i].line == line
    ensures Stands(ts, i, Leaf(ts[i]), line) && Tokens(Leaf(ts[i])) == [ts[i]]
  {
    assert ts[i..i + 1] == [ts[i]];
  }

  lemma OperatorEnds(op: Token, p: nat, line: int)
    requires IsBinary(op) && p <= NORMAL
    ensures Ends(op, BOUNDLESS, line) && p < Prec(op)
    ensures op.literal == "*" <==> op.kind == Asterisk
  {
    OpLevels(op);
  }

  lemma EofStops(t: Token, p: nat, line: int)
    requires t.kind == Eof
    ensures Ends(t, p, line)
  {
  }

  lemma EofReads(ts: seq<Token>, i: nat, e: Expr, p: nat, line: int)
    requires e.Leaf? && Shape(e) && Stands(ts, i, e, line) && i + 1 == |ts| - 1 && ts[i + 1].kind == Eof
    ensures Parse(ts, i, p) == Some((Strip(e), i))
  {
    hide Parse, Loop, Strip, Shape, Stands, Ends, Prec;
    EofStops(ts[i + 1], BOUNDLESS, line);
    ReadsLeaf(ts, i, e, p, line);
    assert Tokens(e) == [e.t];
    EofStops(ts[i + 1], p, ts[i].line);
    LoopStops(ts, i, p, Strip(e));
  }
}
