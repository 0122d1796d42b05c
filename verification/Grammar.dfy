/**
 The parser is precedence-correct: for every line of operands and binary
 operators it gives the one tree in which arithmetic and comparison associate
 to the left by level and `&&` and `||` take everything to their right.
 */
module Grammar {
  import opened Wrappers
  import opened Lexing
  import opened Parsing

  /** An expression with every token it is written with. */
  datatype Expr =
    | Leaf(t: Token)
    | Paren(open: Token, inner: Expr, close: Token)
    | Sign(op: Token, operand: Expr)
    | Binary(op: Token, left: Expr, right: Expr)

  predicate IsLeafKind(t: Token) {
    t.kind == IntTok || t.kind == Ident || t.kind == Str || t.kind == True || t.kind == False || t.kind == NilTok
  }

  predicate IsLogic(t: Token) { t.kind == And || t.kind == Or }

  /** Arithmetic, comparison and the two logical operators. */
  predicate IsBinary(t: Token) {
    && (t.kind == Plus || t.kind == Minus || t.kind == Modulo || t.kind == Slash || t.kind == Asterisk || t.kind == Pow
        || t.kind == Eq || t.kind == NotEq || t.kind == IsSame || t.kind == IsNotSame || t.kind == Match
        || t.kind == Lt || t.kind == Lte || t.kind == Gt || t.kind == Gte || IsLogic(t))
    && (t.literal == "*" <==> t.kind == Asterisk)
  }

  /** The signs; like every operator but `*` itself they are not written `*`. */
  predicate IsSign(t: Token) {
    (t.kind == Minus || t.kind == Bang || t.kind == Plus) && t.literal != "*"
  }

  /** How tightly the binary operators bind: the logical ones loosest, then equality, comparison, sums and products. */
  function Tier(k: Kind): nat {
    if k in {And, Or} then 0
    else if k in {Eq, NotEq, IsSame, IsNotSame} then 1
    else if k in {Match, Lt, Lte, Gt, Gte} then 2
    else if k in {Plus, Minus, Modulo} then 3
    else if k in {Slash, Asterisk, Pow} then 4
    else TIGHTEST
  }

  const TIGHTEST := 5

  /** The tier of the operator an expression is built with at the top; signed and grouped operands bind tightest. */
  function Level(e: Expr): nat {
    match e
    case Binary(op, _, _) => Tier(op.kind)
    case _ => TIGHTEST
  }

  /** The shape rules: an operator's left operand binds at least as tightly as itself (tighter, for
      the logical ones), its right operand tighter, or anything for the logical ones. */
  predicate Shape(e: Expr) {
    match e
    case Leaf(t) => IsLeafKind(t) && (t.kind == IntTok ==> ParseInt(t.literal).Some?)
    case Paren(open, inner, close) => open.kind == LParen && close.kind == RParen && Shape(inner)
    case Sign(op, x) => IsSign(op) && Shape(x) && Level(x) == TIGHTEST
    case Binary(op, l, r) =>
      && IsBinary(op) && Shape(l) && Shape(r)
      && if op.kind in {And, Or} then Level(l) > 0 else Level(l) >= Tier(op.kind) && Level(r) > Tier(op.kind)
  }

  function Tokens(e: Expr): (ts: seq<Token>)
    ensures |ts| > 0
  {
    match e
    case Leaf(t) => [t]
    case Paren(open, inner, close) => [open] + Tokens(inner) + [close]
    case Sign(op, x) => [op] + Tokens(x)
    case Binary(op, l, r) => Tokens(l) + [op] + Tokens(r)
  }

  /** What the parser keeps of it. */
  function Strip(e: Expr): Tree {
    match e
    case Leaf(t) =>
      if t.kind == IntTok then Int(t.literal, if ParseInt(t.literal).Some? then ParseInt(t.literal).value else 0)
      else if t.kind == Ident then Name(t.literal)
      else if t.kind == Str then Quote(t.literal)
      else if t.kind == NilTok then Nothing
      else Truth(t.kind == True)
    case Paren(_, inner, _) => Strip(inner)
    case Sign(op, x) => Pre(op.kind, Strip(x))
    case Binary(op, l, r) => Bin(op.kind, Strip(l), Strip(r))
  }

  // ----------------------------------------------------- stars side by side

  /** A `*` with a token behind it that is written `*`: the parser takes this for two stars,
      whatever kind of token it is. */
  predicate Starred(op: Token, right: Expr) {
    op.kind == Asterisk && Tokens(right)[0].literal == "*"
  }

  predicate Clash(e: Expr) {
    match e
    case Leaf(_) => false
    case Paren(_, inner, _) => Clash(inner)
    case Sign(_, x) => Clash(x)
    case Binary(op, l, r) => Clash(l) || Starred(op, r) || Clash(r)
  }

  predicate Doubled(ts: seq<Token>) {
    exists k :: 0 <= k < |ts| - 1 && DoubledAt(ts, k)
  }

  predicate DoubledAt(ts: seq<Token>, k: nat)
    requires k < |ts| - 1
  {
    ts[k].kind == Asterisk && ts[k + 1].literal == "*"
  }

  lemma DoubledBoth(a: seq<Token>, b: seq<Token>)
    requires a != [] && b != []
    ensures Doubled(a + b) <==> Doubled(a) || Doubled(b) || (a[|a| - 1].kind == Asterisk && b[0].literal == "*")
  {
    var ts := a + b;
    if k :| 0 <= k < |ts| - 1 && DoubledAt(ts, k) {
      if k < |a| - 1 {
        assert DoubledAt(a, k);
      } else if k >= |a| {
        assert DoubledAt(b, k - |a|);
      }
    }
    if k :| 0 <= k < |a| - 1 && DoubledAt(a, k) { assert DoubledAt(ts, k); }
    if k :| 0 <= k < |b| - 1 && DoubledAt(b, k) { assert DoubledAt(ts, |a| + k); }
    if a[|a| - 1].kind == Asterisk && b[0].literal == "*" { assert DoubledAt(ts, |a| - 1); }
  }

  lemma DoubledOne(t: Token)
    ensures !Doubled([t])
  {
  }

  /** The token an expression ends with. */
  function EndToken(e: Expr): Token {
    match e
    case Leaf(t) => t
    case Paren(_, _, close) => close
    case Sign(_, x) => EndToken(x)
    case Binary(_, _, r) => EndToken(r)
  }

  lemma {:induction false} EndsWith(e: Expr)
    ensures Tokens(e)[|Tokens(e)| - 1] == EndToken(e)
  {
    match e
    case Leaf(_) =>
    case Paren(_, _, _) =>
    case Sign(_, x) => EndsWith(x);
    case Binary(_, _, r) => EndsWith(r);
  }

  lemma {:induction false} EndNoStar(e: Expr)
    requires Shape(e)
    ensures EndToken(e).kind != Asterisk
  {
    hide Tokens, IsBinary, ParseInt, Level, Prec;
    match e
    case Leaf(_) =>
    case Paren(_, _, _) =>
    case Sign(_, x) => EndNoStar(x);
    case Binary(_, _, r) => EndNoStar(r);
  }

  lemma LastToken(e: Expr)
    requires Shape(e)
    ensures Tokens(e)[|Tokens(e)| - 1].kind != Asterisk
  {
    hide Tokens, Shape, EndToken;
    EndsWith(e);
    EndNoStar(e);
  }

  /** A line between two tokens, and two lines around one. */
  lemma DoubledAround(open: Token, ts: seq<Token>, close: Token)
    requires ts != [] && ts[|ts| - 1].kind != Asterisk && open.kind != Asterisk
    ensures Doubled([open] + ts) <==> Doubled(ts)
    ensures Doubled([open] + ts + [close]) <==> Doubled(ts)
  {
    hide Doubled;
    DoubledOne(open);
    DoubledOne(close);
    DoubledBoth([open], ts);
    DoubledBoth([open] + ts, [close]);
    assert ([open] + ts)[|ts|] == ts[|ts| - 1];
  }

  lemma DoubledBetween(l: seq<Token>, op: Token, r: seq<Token>)
    requires l != [] && r != [] && l[|l| - 1].kind != Asterisk
    ensures Doubled(l + [op] + r) <==> Doubled(l) || (op.kind == Asterisk && r[0].literal == "*") || Doubled(r)
  {
    hide Doubled;
    DoubledOne(op);
    DoubledBoth(l, [op]);
    DoubledBoth(l + [op], r);
    assert (l + [op])[|l|] == op;
  }

  /** The stars side by side can be seen in the line itself. */
  lemma {:induction false} ClashIsDoubled(e: Expr)
    requires Shape(e)
    ensures Clash(e) <==> Doubled(Tokens(e))
  {
    hide IsBinary, ParseInt, Level, Prec, Doubled;
    match e
    case Leaf(t) => DoubledOne(t);
    case Paren(open, inner, close) =>
      ClashIsDoubled(inner);
      LastToken(inner);
      DoubledAround(open, Tokens(inner), close);
    case Sign(op, x) =>
      ClashIsDoubled(x);
      LastToken(x);
      DoubledAround(op, Tokens(x), op);
    case Binary(op, l, r) =>
      ClashIsDoubled(l);
      ClashIsDoubled(r);
      LastToken(l);
      DoubledBetween(Tokens(l), op, Tokens(r));
  }

  // ----------------------------------------------- tiers, and the parser's levels

  /** The parser's level of the operator at the top. */
  function Bound(e: Expr): nat {
    match e
    case Binary(op, _, _) => Prec(op)
    case _ => BOUNDLESS
  }

  const BOUNDLESS := 100

  /** The level the parser reads right operands at. */
  function RightLevel(op: Token): nat {
    if IsLogic(op) then NORMAL else Prec(op)
  }

  /** The parser's levels follow the tiers. */
  lemma OpLevels(op: Token)
    requires IsBinary(op)
    ensures IsLogic(op) <==> Tier(op.kind) == 0
    ensures Tier(op.kind) < TIGHTEST
    ensures Prec(op) == if IsLogic(op) then LOGIC else EQUALS - 1 + Tier(op.kind)
    ensures if IsLogic(op) then Prec(op) == LOGIC else EQUALS <= Prec(op) <= PRODUCT
  {
  }

  // ------------------------------------------------------ what may follow

  /** Behind an expression on a line, read at level p, stands something that ends it. */
  predicate Ends(t: Token, p: nat, line: int) {
    || t.kind == Eof
    || (t.line != line && t.kind != Semicolon)
    || (p >= NORMAL && (t.kind == RParen || t.kind == RBracket || t.kind == Comma))
    || (IsBinary(t) && Prec(t) <= p)
  }

  /** The tokens of e stand at i, on one line. */
  predicate Stands(ts: seq<Token>, i: nat, e: Expr, line: int) {
    && i + |Tokens(e)| <= |ts| && ts[i..i + |Tokens(e)|] == Tokens(e)
    && forall k :: i <= k < i + |Tokens(e)| ==> ts[k].line == line
  }

  lemma StandsBinary(ts: seq<Token>, i: nat, e: Expr, line: int)
    requires e.Binary? && Stands(ts, i, e, line)
    ensures
      var m := i + |Tokens(e.left)|;
      && Stands(ts, i, e.left, line) && m < |ts| && ts[m] == e.op && Stands(ts, m + 1, e.right, line)
      && ts[m].line == line && i + |Tokens(e)| == m + 1 + |Tokens(e.right)|
  {
    var a, b := |Tokens(e.left)|, |Tokens(e.right)|;
    var whole := ts[i..i + |Tokens(e)|];
    assert whole == Tokens(e.left) + [e.op] + Tokens(e.right);
    assert ts[i..i + a] == whole[..a];
    assert ts[i + a] == whole[a];
    assert ts[i + a + 1..i + a + 1 + b] == whole[a + 1..];
  }

  lemma StandsParen(ts: seq<Token>, i: nat, e: Expr, line: int)
    requires e.Paren? && Stands(ts, i, e, line)
    ensures
      var n := |Tokens(e.inner)|;
      && i < |ts| && ts[i] == e.open && Stands(ts, i + 1, e.inner, line)
      && i + 1 + n < |ts| && ts[i + 1 + n] == e.close && |Tokens(e)| == n + 2
  {
    var n := |Tokens(e.inner)|;
    var whole := ts[i..i + |Tokens(e)|];
    assert |Tokens(e)| == n + 2;
    assert whole == [e.open] + Tokens(e.inner) + [e.close];
    assert ts[i] == whole[0] && ts[i + 1 + n] == whole[1 + n];
    var inner := ts[i + 1..i + 1 + n];
    forall k | 0 <= k < n ensures inner[k] == Tokens(e.inner)[k] {
      assert inner[k] == ts[i + 1 + k] == whole[1 + k];
    }
  }

  lemma StandsSign(ts: seq<Token>, i: nat, e: Expr, line: int)
    requires e.Sign? && Stands(ts, i, e, line)
    ensures i < |ts| && ts[i] == e.op && Stands(ts, i + 1, e.operand, line) && |Tokens(e)| == 1 + |Tokens(e.operand)|
  {
    var n := |Tokens(e.operand)|;
    var whole := ts[i..i + |Tokens(e)|];
    assert whole == [e.op] + Tokens(e.operand);
    assert ts[i] == whole[0];
    assert ts[i + 1..i + 1 + n] == whole[1..];
  }

  /** The least level at which the end of e is being read. */
  function EdgeLevel(e: Expr): nat {
    match e
    case Binary(op, _, _) => RightLevel(op)
    case Sign(op, _) => if op.kind == Bang then BANG_PREFIX else MINUS_PREFIX
    case _ => BOUNDLESS
  }

  lemma EndsMore(t: Token, p: nat, q: nat, line: int)
    requires Ends(t, p, line) && p <= q
    ensures Ends(t, q, line)
  {
  }

  /** The loop stops at what ends the expression. */
  lemma LoopStops(ts: seq<Token>, i: nat, p: nat, left: Tree)
    requires i < |ts| && Ends(Tok(ts, i + 1), p, ts[i].line)
    ensures Loop(ts, i, p, left) == Some((left, i))
  {
    hide Parse;
  }

  /** The loop goes on with a binary operator of a higher level. */
  lemma LoopTakes(ts: seq<Token>, i: nat, p: nat, left: Tree, right: Tree, j: nat)
    requires i + 2 < |ts| && IsBinary(ts[i + 1]) && p < Prec(ts[i + 1]) && ts[i].line == ts[i + 1].line
    requires !(ts[i + 1].kind == Asterisk && ts[i + 2].literal == "*")
    requires Parse(ts, i + 2, RightLevel(ts[i + 1])) == Some((right, j)) && j < |ts|
    ensures Loop(ts, i, p, left) == Loop(ts, j, p, Bin(ts[i + 1].kind, left, right))
  {
    hide Parse;
  }

  /** Reading a correctly shaped expression at a level below its own comes to the parser's
      loop with exactly that expression read, whatever comes behind. */
  lemma {:induction false} ReadsShape(ts: seq<Token>, i: nat, e: Expr, p: nat, line: int)
    requires Shape(e) && !Clash(e) && Stands(ts, i, e, line) && Bound(e) > p
    requires Ends(Tok(ts, i + |Tokens(e)|), EdgeLevel(e), line)
    ensures Parse(ts, i, p) == Loop(ts, i + |Tokens(e)| - 1, p, Strip(e))
    decreases e, 1
  {
    hide Loop, Prefix, Tokens, Parse, Shape, Stands, Ends, Strip, Bound, Clash;
    match e
    case Leaf(t) => ReadsLeaf(ts, i, e, p, line);
    case Paren(_, _, _) => ReadsParen(ts, i, e, p, line);
    case Sign(_, _) => ReadsSign(ts, i, e, p, line);
    case Binary(_, _, _) => ReadsBinary(ts, i, e, p, line);
  }

  /** The same, when what comes behind ends it. */
  lemma {:induction false} ReadsWhole(ts: seq<Token>, i: nat, e: Expr, p: nat, line: int)
    requires Shape(e) && !Clash(e) && Stands(ts, i, e, line) && Bound(e) > p && Ends(Tok(ts, i + |Tokens(e)|), p, line)
    requires EdgeLevel(e) >= p
    ensures Parse(ts, i, p) == Some((Strip(e), i + |Tokens(e)| - 1))
    decreases e, 2
  {
    hide Loop, Prefix, Tokens, Parse, Ends, Clash, Bound, EdgeLevel, Shape, Strip;
    EndsMore(Tok(ts, i + |Tokens(e)|), p, EdgeLevel(e), line);
    ReadsShape(ts, i, e, p, line);
    assert i + |Tokens(e)| <= |ts|;
    LoopStops(ts, i + |Tokens(e)| - 1, p, Strip(e));
  }

  lemma ReadsLeaf(ts: seq<Token>, i: nat, e: Expr, p: nat, line: int)
    requires e.Leaf? && Shape(e) && Stands(ts, i, e, line) && Ends(Tok(ts, i + |Tokens(e)|), BOUNDLESS, line)
    ensures Parse(ts, i, p) == Loop(ts, i + |Tokens(e)| - 1, p, Strip(e))
  {
    hide Loop;
    assert ts[i..i + 1] == [e.t];
    assert ts[i] == ts[i..i + 1][0];
  }

  lemma {:induction false} ReadsParen(ts: seq<Token>, i: nat, e: Expr, p: nat, line: int)
    requires e.Paren? && Shape(e) && !Clash(e) && Stands(ts, i, e, line)
    ensures Parse(ts, i, p) == Loop(ts, i + |Tokens(e)| - 1, p, Strip(e))
    decreases e, 0
  {
    hide Loop, Tokens, Parse, Shape, Bound, EdgeLevel, Ends, Strip;
    StandsParen(ts, i, e, line);
    ParenParts(e);
    LevelAboveNormal(e.inner);
    ClosingEnds(e.close, line);
    ReadsWhole(ts, i + 1, e.inner, NORMAL, line);
    ParenStep(ts, i, p, Strip(e.inner), i + |Tokens(e.inner)|);
  }

  lemma ParenParts(e: Expr)
    requires e.Paren? && Shape(e)
    ensures Shape(e.inner) && e.open.kind == LParen && e.close.kind == RParen && Strip(e) == Strip(e.inner)
  {
  }

  lemma ClosingEnds(t: Token, line: int)
    requires t.kind == RParen
    ensures Ends(t, NORMAL, line)
  {
  }

  lemma ParenStep(ts: seq<Token>, i: nat, p: nat, inner: Tree, j: nat)
    requires j + 1 < |ts| && i < j + 1 && ts[i].kind == LParen && ts[j + 1].kind == RParen
    requires Parse(ts, i + 1, NORMAL) == Some((inner, j))
    ensures Parse(ts, i, p) == Loop(ts, j + 1, p, inner)
  {
    ParenPrefix(ts, i, inner, j);
    hide Loop, Prefix;
  }

  lemma ParenPrefix(ts: seq<Token>, i: nat, inner: Tree, j: nat)
    requires j + 1 < |ts| && i < j + 1 && ts[i].kind == LParen && ts[j + 1].kind == RParen
    requires Parse(ts, i + 1, NORMAL) == Some((inner, j))
    ensures Prefix(ts, i) == Some((inner, j + 1))
  {
    GroupStep(ts, i, inner, j);
    hide Parse, GroupAt, ArrayAt;
  }

  lemma GroupStep(ts: seq<Token>, i: nat, inner: Tree, j: nat)
    requires j + 1 < |ts| && i < j + 1 && ts[j + 1].kind == RParen
    requires Parse(ts, i + 1, NORMAL) == Some((inner, j))
    ensures GroupAt(ts, i) == Some((inner, j + 1))
  {
    hide Loop, Elements, Parse;
  }

  lemma SignStep(ts: seq<Token>, i: nat, p: nat, right: Tree, j: nat)
    requires i <= j < |ts| && IsSign(ts[i])
    requires Parse(ts, i + 1, if ts[i].kind == Bang then BANG_PREFIX else MINUS_PREFIX) == Some((right, j))
    ensures Parse(ts, i, p) == Loop(ts, j, p, Pre(ts[i].kind, right))
  {
    hide Loop, Elements;
  }

  lemma LevelAboveNormal(e: Expr)
    requires Shape(e)
    ensures Bound(e) > ASSIGN && EdgeLevel(e) >= NORMAL
  {
    if e.Binary? { OpLevels(e.op); }
    hide Prec, IsBinary, ParseInt;
  }

  lemma {:induction false} ReadsSign(ts: seq<Token>, i: nat, e: Expr, p: nat, line: int)
    requires e.Sign? && Shape(e) && !Clash(e) && Stands(ts, i, e, line)
    requires Ends(Tok(ts, i + |Tokens(e)|), EdgeLevel(e), line)
    ensures Parse(ts, i, p) == Loop(ts, i + |Tokens(e)| - 1, p, Strip(e))
    decreases e, 0
  {
    hide Loop, Tokens, Parse, Ends, Stands;
    StandsSign(ts, i, e, line);
    var q := EdgeLevel(e);
    EndsAnything(Tok(ts, i + |Tokens(e)|), q, line);
    ReadsShape(ts, i + 1, e.operand, q, line);
    LoopStops(ts, i + |Tokens(e)| - 1, q, Strip(e.operand));
    SignStep(ts, i, p, Strip(e.operand), i + |Tokens(e)| - 1);
  }

  /** No binary operator binds as tightly as a prefix. */
  lemma EndsAnything(t: Token, q: nat, line: int)
    requires Ends(t, q, line) && q >= BANG_PREFIX
    ensures forall p :: p >= BANG_PREFIX ==> Ends(t, p, line)
  {
  }

  lemma {:induction false} ReadsBinary(ts: seq<Token>, i: nat, e: Expr, p: nat, line: int)
    requires e.Binary? && Shape(e) && !Clash(e) && Stands(ts, i, e, line) && Bound(e) > p
    requires Ends(Tok(ts, i + |Tokens(e)|), EdgeLevel(e), line)
    ensures Parse(ts, i, p) == Loop(ts, i + |Tokens(e)| - 1, p, Strip(e))
    decreases e, 0
  {
    hide Loop, Tokens, Parse, Prec, IsBinary, Shape, Bound, EdgeLevel, Strip, RightLevel, Ends, IsLogic, Stands;
    StandsBinary(ts, i, e, line);
    BinaryParts(e);
    var m := i + |Tokens(e.left)|;
    LeftEnds(e.op, e.left, line);
    ReadsShape(ts, i, e.left, p, line);
    RightEdge(e);
    ReadsWhole(ts, m + 1, e.right, RightLevel(e.op), line);
    OperandsStand(ts, i, e, line);
    LoopTakes(ts, m - 1, p, Strip(e.left), Strip(e.right), i + |Tokens(e)| - 1);
  }

  lemma ShapeBound(e: Expr)
    requires Shape(e)
    ensures if e.Binary? then Level(e) < TIGHTEST
      && Bound(e) == (if Level(e) == 0 then LOGIC else EQUALS - 1 + Level(e))
            else Level(e) == TIGHTEST && Bound(e) == BOUNDLESS
  {
    if e.Binary? { OpLevels(e.op); }
    hide Prec, IsBinary, ParseInt, Tier, IsLeafKind;
  }

  /** What the shape rules say of a binary expression. */
  lemma BinaryParts(e: Expr)
    requires e.Binary? && Shape(e)
    ensures Shape(e.left) && Shape(e.right) && IsBinary(e.op) && Bound(e) == Prec(e.op)
    ensures EdgeLevel(e) == RightLevel(e.op)
    ensures Bound(e.left) >= Prec(e.op) && Bound(e.right) > RightLevel(e.op)
    ensures if IsLogic(e.op) then Bound(e.left) > LOGIC else Bound(e.left) >= Prec(e.op)
    ensures Strip(e) == Bin(e.op.kind, Strip(e.left), Strip(e.right))
  {
    ShapeBound(e.left);
    ShapeBound(e.right);
    OpLevels(e.op);
    hide Prec, IsBinary, ParseInt, Tier, IsLeafKind, Tokens;
  }

  /** An operator ends its left operand. */
  lemma LeftEnds(op: Token, l: Expr, line: int)
    requires IsBinary(op) && Shape(l) && if IsLogic(op) then Bound(l) > LOGIC else Bound(l) >= Prec(op)
    ensures Ends(op, EdgeLevel(l), line)
  {
    OpLevels(op);
    if l.Binary? { OpLevels(l.op); }
    hide Prec, IsBinary, ParseInt;
  }

  lemma RightEdge(e: Expr)
    requires e.Binary? && Shape(e)
    ensures EdgeLevel(e.right) >= RightLevel(e.op)
  {
    BinaryParts(e);
    OpLevels(e.op);
    if e.right.Binary? { OpLevels(e.right.op); }
    hide Prec, IsBinary, ParseInt, IsLeafKind, Tokens;
  }

  // -------------------------------------------- every line has such a tree

  /** A line of operands and binary operators; operands may be groups, and have signs. */
  datatype Operand =
    | Atom(t: Token)
    | Group(open: Token, inner: Chain, close: Token)
    | Signed(op: Token, operand: Operand)

  datatype Chain = One(first: Operand) | More(before: Chain, op: Token, last: Operand)

  function OperandTokens(o: Operand): seq<Token>
    decreases o
  {
    match o
    case Atom(t) => [t]
    case Group(open, inner, close) => [open] + ChainTokens(inner) + [close]
    case Signed(op, x) => [op] + OperandTokens(x)
  }

  function ChainTokens(c: Chain): seq<Token>
    decreases c
  {
    match c
    case One(o) => OperandTokens(o)
    case More(before, op, o) => ChainTokens(before) + [op] + OperandTokens(o)
  }

  predicate OperandOk(o: Operand)
    decreases o
  {
    match o
    case Atom(t) => Shape(Leaf(t))
    case Group(open, inner, close) => open.kind == LParen && close.kind == RParen && ChainOk(inner)
    case Signed(op, x) => IsSign(op) && OperandOk(x)
  }

  predicate ChainOk(c: Chain)
    decreases c
  {
    match c
    case One(o) => OperandOk(o)
    case More(before, op, o) => ChainOk(before) && IsBinary(op) && OperandOk(o)
  }

  /** One more operator and operand at the right end. */
  function Append(e: Expr, op: Token, x: Expr): Expr {
    if e.Binary? && (IsLogic(e.op) || Tier(op.kind) > Tier(e.op.kind)) then e.(right := Append(e.right, op, x))
    else Binary(op, e, x)
  }

  function BuildOperand(o: Operand): Expr
    decreases o
  {
    match o
    case Atom(t) => Leaf(t)
    case Group(open, inner, close) => Paren(open, Build(inner), close)
    case Signed(op, x) => Sign(op, BuildOperand(x))
  }

  function Build(c: Chain): Expr
    decreases c
  {
    match c
    case One(o) => BuildOperand(o)
    case More(before, op, o) => Append(Build(before), op, BuildOperand(o))
  }

  lemma AppendTokens(e: Expr, op: Token, x: Expr)
    requires e.Binary? && (IsLogic(e.op) || Tier(op.kind) > Tier(e.op.kind))
    requires Tokens(Append(e.right, op, x)) == Tokens(e.right) + [op] + Tokens(x)
    ensures Tokens(Append(e, op, x)) == Tokens(e) + [op] + Tokens(x)
  {
    hide Prec;
    var a, b, c := Tokens(e.left), Tokens(e.right), Tokens(x);
    assert a + [e.op] + (b + [op] + c) == a + [e.op] + b + [op] + c;
  }

  lemma {:induction false} AppendShape(e: Expr, op: Token, x: Expr)
    requires Shape(e) && IsBinary(op) && Shape(x) && Level(x) == TIGHTEST
    ensures Shape(Append(e, op, x)) && Tokens(Append(e, op, x)) == Tokens(e) + [op] + Tokens(x)
    ensures Level(Append(e, op, x)) >= if Level(e) < Tier(op.kind) then Level(e) else Tier(op.kind)
    ensures e.Binary? && IsLogic(e.op) ==> Append(e, op, x).Binary? && Append(e, op, x).op == e.op
    decreases e
  {
    OpLevels(op);
    if e.Binary? {
      OpLevels(e.op);
      hide Prec, IsBinary, IsLeafKind, ParseInt;
      BinaryParts(e);
      if IsLogic(e.op) || Tier(op.kind) > Tier(e.op.kind) {
        AppendShape(e.right, op, x);
        AppendTokens(e, op, x);
      }
    }
  }

  lemma {:induction false} BuildShape(c: Chain)
    requires ChainOk(c)
    ensures Shape(Build(c)) && Tokens(Build(c)) == ChainTokens(c)
    decreases c, 0
  {
    match c
    case One(o) => OperandShape(o);
    case More(before, op, o) =>
      BuildShape(before);
      OperandShape(o);
      AppendShape(Build(before), op, BuildOperand(o));
  }

  lemma {:induction false} OperandShape(o: Operand)
    requires OperandOk(o)
    ensures Shape(BuildOperand(o)) && Tokens(BuildOperand(o)) == OperandTokens(o) && Level(BuildOperand(o)) == TIGHTEST
    decreases o, 0
  {
    match o
    case Atom(_) =>
    case Group(_, inner, _) => BuildShape(inner);
    case Signed(_, x) => OperandShape(x);
  }

  // -------------------------------------------------------------- theorems

  const END: Token := Token(Eof, "", 0)

  predicate OnLine(ts: seq<Token>, line: int) {
    forall k :: 0 <= k < |ts| ==> ts[k].line == line
  }

  /** A correctly shaped expression is read as itself up to what ends it, at statement level or below. */
  lemma ParsesUpTo(e: Expr, line: int, p: nat, rest: seq<Token>)
    requires Shape(e) && OnLine(Tokens(e), line) && p <= NORMAL && rest != [] && Ends(rest[0], p, line)
    ensures Parse(Tokens(e) + rest, 0, p) == if Doubled(Tokens(e)) then None else Some((Strip(e), |Tokens(e)| - 1))
  {
    hide Parse, Tokens, Shape, Clash, Doubled, Ends;
    var ts := Tokens(e) + rest;
    assert ts[0..0 + |Tokens(e)|] == Tokens(e);
    assert Tok(ts, |Tokens(e)|) == rest[0];
    assert Stands(ts, 0, e, line);
    LevelAboveNormal(e);
    ClashIsDoubled(e);
    if Clash(e) { FailsShape(ts, 0, e, p, line); } else { ReadsWhole(ts, 0, e, p, line); }
  }

  /** Alone on its line. */
  lemma ParsesShape(e: Expr, line: int, p: nat)
    requires Shape(e) && OnLine(Tokens(e), line) && p <= NORMAL
    ensures Parse(Tokens(e) + [END], 0, p) == if Doubled(Tokens(e)) then None else Some((Strip(e), |Tokens(e)| - 1))
  {
    hide Parse, Tokens, Shape, Doubled;
    ParsesUpTo(e, line, p, [END]);
  }

  /** A line of its own: whatever stands on the next line does not belong to it, an operator neither. */
  lemma LinesApart(e: Expr, line: int, rest: seq<Token>)
    requires Shape(e) && OnLine(Tokens(e), line) && rest != [] && rest[0].line != line && rest[0].kind != Semicolon
    ensures ParseStatement(Tokens(e) + rest, 0)
         == if Doubled(Tokens(e)) then None else Some((Strip(e), |Tokens(e)| - 1))
  {
    hide Parse, Tokens, Shape, Doubled;
    ParsesUpTo(e, line, LOWEST, rest);
    ParsesUpTo(e, line, NORMAL, rest);
  }

  /** A name with an argument behind it on its line is a call, not the name. */
  lemma NameWithArgument(ts: seq<Token>, i: nat, p: nat)
    requires i + 1 < |ts| && ts[i].kind == Ident && ts[i + 1].line == ts[i].line
    requires ts[i + 1].kind in {IntTok, Str, True, False, NilTok, InstanceVar, Constant}
    ensures Parse(ts, i, p) == None
  {
  }

  /** With stars side by side the expression is refused, at any level below its own. */
  lemma {:induction false} FailsShape(ts: seq<Token>, i: nat, e: Expr, p: nat, line: int)
    requires Shape(e) && Clash(e) && Stands(ts, i, e, line) && Bound(e) > p
    ensures Parse(ts, i, p) == None
    decreases e, 1
  {
    hide Loop, Prefix, Tokens, Parse, Shape, Stands, Strip, Bound;
    match e
    case Leaf(_) =>
    case Paren(_, _, _) => FailsParen(ts, i, e, p, line);
    case Sign(_, _) => FailsSign(ts, i, e, p, line);
    case Binary(_, _, _) => FailsBinary(ts, i, e, p, line);
  }

  lemma {:induction false} FailsParen(ts: seq<Token>, i: nat, e: Expr, p: nat, line: int)
    requires e.Paren? && Shape(e) && Clash(e) && Stands(ts, i, e, line)
    ensures Parse(ts, i, p) == None
    decreases e, 0
  {
    hide Loop, Tokens, Parse, Shape, Bound, EdgeLevel, Ends, Strip;
    StandsParen(ts, i, e, line);
    ParenParts(e);
    LevelAboveNormal(e.inner);
    FailsShape(ts, i + 1, e.inner, NORMAL, line);
    NoGroup(ts, i, p);
  }

  lemma NoGroup(ts: seq<Token>, i: nat, p: nat)
    requires i < |ts| && ts[i].kind == LParen && Parse(ts, i + 1, NORMAL) == None
    ensures Parse(ts, i, p) == None
  {
    assert GroupAt(ts, i) == None by { hide Loop; }
    hide Loop, ArrayAt, GroupAt;
    assert Prefix(ts, i) == None;
  }

  lemma {:induction false} FailsSign(ts: seq<Token>, i: nat, e: Expr, p: nat, line: int)
    requires e.Sign? && Shape(e) && Clash(e) && Stands(ts, i, e, line)
    ensures Parse(ts, i, p) == None
    decreases e, 0
  {
    hide Loop, Tokens, Parse, Stands;
    StandsSign(ts, i, e, line);
    FailsShape(ts, i + 1, e.operand, EdgeLevel(e), line);
    NoSigned(ts, i, p);
  }

  lemma NoSigned(ts: seq<Token>, i: nat, p: nat)
    requires i < |ts| && IsSign(ts[i])
    requires Parse(ts, i + 1, if ts[i].kind == Bang then BANG_PREFIX else MINUS_PREFIX) == None
    ensures Parse(ts, i, p) == None
  {
    hide Loop, ArrayAt, GroupAt;
    assert Prefix(ts, i) == None;
  }

  lemma {:induction false} FailsBinary(ts: seq<Token>, i: nat, e: Expr, p: nat, line: int)
    requires e.Binary? && Shape(e) && Clash(e) && Stands(ts, i, e, line) && Bound(e) > p
    ensures Parse(ts, i, p) == None
    decreases e, 0
  {
    hide Loop, Tokens, Parse, Prec, IsBinary, Shape, Bound, EdgeLevel, Strip, RightLevel, Ends, IsLogic, Stands;
    StandsBinary(ts, i, e, line);
    OperandsStand(ts, i, e, line);
    BinaryParts(e);
    var m := i + |Tokens(e.left)|;
    if Clash(e.left) {
      FailsShape(ts, i, e.left, p, line);
    } else {
      LeftEnds(e.op, e.left, line);
      ReadsShape(ts, i, e.left, p, line);
      if !Starred(e.op, e.right) { FailsShape(ts, m + 1, e.right, RightLevel(e.op), line); }
      LoopFails(ts, m - 1, p, Strip(e.left));
    }
  }

  /** The right operand's first token, and the left one's line. */
  lemma OperandsStand(ts: seq<Token>, i: nat, e: Expr, line: int)
    requires e.Binary? && Stands(ts, i, e, line)
    ensures
      var m := i + |Tokens(e.left)|;
      m + 1 < |ts| && ts[m + 1] == Tokens(e.right)[0] && ts[m - 1].line == line
  {
    hide Tokens;
    StandsBinary(ts, i, e, line);
    var m := i + |Tokens(e.left)|;
    assert ts[m + 1] == ts[m + 1..m + 1 + |Tokens(e.right)|][0];
  }

  lemma LoopFails(ts: seq<Token>, i: nat, p: nat, left: Tree)
    requires i + 2 < |ts| && IsBinary(ts[i + 1]) && p < Prec(ts[i + 1]) && ts[i].line == ts[i + 1].line
    requires (ts[i + 1].kind == Asterisk && ts[i + 2].literal == "*") || Parse(ts, i + 2, RightLevel(ts[i + 1])) == None
    ensures Loop(ts, i, p, left) == None
  {
    hide Parse;
  }

  /** For every line of operands, with signs and groups, and binary operators there is a correctly shaped
      expression with just these tokens, and any two of them are the same tree; the parser returns it,
      unless a `*` is directly followed by a token written `*`, and then refuses the line. */
  lemma PrecedenceCorrect(c: Chain, line: int)
    requires ChainOk(c) && OnLine(ChainTokens(c), line)
    ensures Shape(Build(c)) && Tokens(Build(c)) == ChainTokens(c)
    ensures ParseStatement(ChainTokens(c) + [END], 0)
         == if Doubled(ChainTokens(c)) then None else Some((Strip(Build(c)), |ChainTokens(c)| - 1))
    ensures forall e {:trigger Shape(e)} :: Shape(e) && Tokens(e) == ChainTokens(c) ==> Strip(e) == Strip(Build(c))
  {
    hide Parse, Tokens, Shape, Doubled;
    BuildShape(c);
    ParsesShape(Build(c), line, LOWEST);
    ParsesShape(Build(c), line, NORMAL);
    forall e | Shape(e) && Tokens(e) == ChainTokens(c) ensures Strip(e) == Strip(Build(c)) {
      SameTokensSameTree(e, Build(c), line);
    }
  }

  /** Operators of the first kind take an operator of the second kind in as part of their right operand. */
  predicate TakesIn(s: Kind, p: Kind) {
    || s in {And, Or}
    || (s in {Eq, NotEq, IsSame, IsNotSame}
        && p in {Match, Lt, Lte, Gt, Gte, Plus, Minus, Modulo, Slash, Asterisk, Pow})
    || (s in {Match, Lt, Lte, Gt, Gte} && p in {Plus, Minus, Modulo, Slash, Asterisk, Pow})
    || (s in {Plus, Minus, Modulo} && p in {Slash, Asterisk, Pow})
  }

  lemma TakesInTier(s: Token, p: Token)
    requires IsBinary(s) && IsBinary(p)
    ensures TakesIn(s.kind, p.kind) <==> IsLogic(s) || Tier(s.kind) < Tier(p.kind)
    ensures IsLogic(s) <==> Tier(s.kind) == 0
    ensures Tier(s.kind) < TIGHTEST && Tier(p.kind) < TIGHTEST
  {
  }

  function Nested(a: Token, s: Token, b: Token, p: Token, c: Token): Expr {
    if TakesIn(s.kind, p.kind) then Binary(s, Leaf(a), Binary(p, Leaf(b), Leaf(c)))
    else Binary(p, Binary(s, Leaf(a), Leaf(b)), Leaf(c))
  }

  lemma LeafFits(t: Token)
    requires Shape(Leaf(t))
    ensures Level(Leaf(t)) == TIGHTEST && Tokens(Leaf(t)) == [t] && !Clash(Leaf(t))
  {
  }

  lemma BinaryFits(op: Token, l: Expr, r: Expr)
    requires IsBinary(op) && Shape(l) && Shape(r) && !Clash(l) && !Clash(r) && Tokens(r)[0].literal != "*"
    requires if IsLogic(op) then Level(l) > 0 else Level(l) >= Tier(op.kind) && Level(r) > Tier(op.kind)
    ensures
      var e := Binary(op, l, r);
      Shape(e) && !Clash(e) && Level(e) == Tier(op.kind) && Tokens(e) == Tokens(l) + [op] + Tokens(r)
  {
    hide IsBinary, Tier;
  }

  lemma NestedShape(a: Token, s: Token, b: Token, p: Token, c: Token)
    requires Shape(Leaf(a)) && Shape(Leaf(b)) && Shape(Leaf(c)) && IsBinary(s) && IsBinary(p)
    requires b.literal != "*" && c.literal != "*"
    ensures Shape(Nested(a, s, b, p, c)) && !Clash(Nested(a, s, b, p, c))
    ensures Tokens(Nested(a, s, b, p, c)) == [a, s, b, p, c]
  {
    hide TakesIn, IsBinary, Tier, Shape, Tokens, Clash, Level, IsLogic;
    TakesInTier(s, p);
    LeafFits(a);
    LeafFits(b);
    LeafFits(c);
    assert [a] + [s] + ([b] + [p] + [c]) == [a, s, b, p, c] == [a] + [s] + [b] + [p] + [c];
    if TakesIn(s.kind, p.kind) {
      BinaryFits(p, Leaf(b), Leaf(c));
      BinaryFits(s, Leaf(a), Binary(p, Leaf(b), Leaf(c)));
    } else {
      BinaryFits(s, Leaf(a), Leaf(b));
      BinaryFits(p, Binary(s, Leaf(a), Leaf(b)), Leaf(c));
    }
  }

  /** Three operands and two operators, whichever they are: `a s b p c` is a s (b p c) exactly if s takes p in,
      and otherwise (a s b) p c. */
  lemma TwoOperators(a: Token, s: Token, b: Token, p: Token, c: Token, line: int)
    requires Shape(Leaf(a)) && Shape(Leaf(b)) && Shape(Leaf(c)) && IsBinary(s) && IsBinary(p)
    requires b.literal != "*" && c.literal != "*" && OnLine([a, s, b, p, c], line)
    ensures
      var x, y, z := Strip(Leaf(a)), Strip(Leaf(b)), Strip(Leaf(c));
      ParseStatement([a, s, b, p, c, END], 0) ==
        Some((if TakesIn(s.kind, p.kind) then Bin(s.kind, x, Bin(p.kind, y, z)) else Bin(p.kind, Bin(s.kind, x, y), z),
              4))
  {
    hide Parse, ParseInt, Doubled, TakesIn, Shape, IsBinary, Clash, Tokens;
    var e := Nested(a, s, b, p, c);
    NestedShape(a, s, b, p, c);
    assert [a, s, b, p, c] + [END] == [a, s, b, p, c, END];
    ClashIsDoubled(e);
    ParsesShape(e, line, if a.kind == Ident then LOWEST else NORMAL);
    ParsesShape(e, line, if a.kind == Ident || a.kind == InstanceVar then LOWEST else NORMAL);
  }

  /** `1 * "*"` is refused, and `"*" * 2` is not. */
  lemma StarString(line: int)
    ensures
      var one, star, str := Token(IntTok, "1", line), Token(Asterisk, "*", line), Token(Str, "*", line);
      && ParseStatement([one, star, str, END], 0) == None
      && ParseStatement([str, star, one, END], 0) == Some((Bin(Asterisk, Quote("*"), Int("1", 1)), 2))
  {
    hide Parse, ParseInt;
    var one, star, str := Token(IntTok, "1", line), Token(Asterisk, "*", line), Token(Str, "*", line);
    OneParses();
    StarLine(Leaf(one), star, Leaf(str), line);
    StarLine(Leaf(str), star, Leaf(one), line);
    assert DoubledAt([one, star, str], 1);
    assert !Doubled([str, star, one]);
    assert [one, star, str] + [END] == [one, star, str, END] && [str, star, one] + [END] == [str, star, one, END];
  }

  lemma OneParses()
    ensures ParseInt("1") == Some(1)
  {
    assert Digits("1", 0, 10) == Some(0);
  }

  /** Two leaves around a star. */
  lemma StarLine(l: Expr, star: Token, r: Expr, line: int)
    requires l.Leaf? && r.Leaf? && Shape(l) && Shape(r) && star == Token(Asterisk, "*", line) && l.t.line == line
    requires r.t.line == line
    ensures
      var ts := [l.t, star, r.t];
      ParseStatement(ts + [END], 0) == if Doubled(ts) then None else Some((Bin(Asterisk, Strip(l), Strip(r)), 2))
  {
    hide Parse, ParseInt, Doubled;
    var e := Binary(star, l, r);
    assert Tokens(e) == [l.t, star, r.t];
    ParsesShape(e, line, if l.t.kind == Ident then LOWEST else NORMAL);
  }

  // ------------------------------------------------------- one tree for a line

  /** Operand texts set apart from every operator's. */
  function Apart(t: Token): Token {
    if IsLeafKind(t) && t.kind != IntTok then t.(literal := "x" + t.literal)
      else if t.kind == LParen then t.(literal := "(") else t
  }

  function AllApart(ts: seq<Token>): seq<Token> {
    seq(|ts|, k requires 0 <= k < |ts| => Apart(ts[k]))
  }

  function ExprApart(e: Expr): Expr {
    match e
    case Leaf(t) => Leaf(Apart(t))
    case Paren(open, inner, close) => Paren(Apart(open), ExprApart(inner), close)
    case Sign(op, x) => Sign(op, ExprApart(x))
    case Binary(op, l, r) => Binary(op, ExprApart(l), ExprApart(r))
  }

  function TreeApart(t: Tree): Tree {
    match t
    case Name(n) => Name("x" + n)
    case Quote(s) => Quote("x" + s)
    case Pre(op, r) => Pre(op, TreeApart(r))
    case Bin(op, l, r) => Bin(op, TreeApart(l), TreeApart(r))
    case _ => t
  }

  lemma {:induction false} ApartShape(e: Expr)
    requires Shape(e)
    ensures Shape(ExprApart(e)) && Level(ExprApart(e)) == Level(e) && Strip(ExprApart(e)) == TreeApart(Strip(e))
  {
    hide Prec, ParseInt, IsBinary, RightLevel, Apart, IsLeafKind;
    match e
    case Leaf(t) => LeafApart(t);
    case Paren(open, inner, _) => ApartShape(inner); OthersApart(open);
    case Sign(_, x) => ApartShape(x);
    case Binary(_, l, r) => ApartShape(l); ApartShape(r);
  }

  lemma ApartBoth(a: seq<Token>, b: seq<Token>)
    ensures AllApart(a + b) == AllApart(a) + AllApart(b)
  {
  }

  lemma {:induction false} ApartTokens(e: Expr)
    requires Shape(e)
    ensures Tokens(ExprApart(e)) == AllApart(Tokens(e))
  {
    hide ParseInt, Level, AllApart, Prec, Apart, IsBinary, IsSign, IsLeafKind;
    match e
    case Leaf(t) => ApartOne(t);
    case Paren(open, inner, close) =>
      ApartTokens(inner);
      OthersApart(close);
      ApartOne(open);
      ApartOne(close);
      ApartBoth([open], Tokens(inner));
      ApartBoth([open] + Tokens(inner), [close]);
    case Sign(op, x) =>
      ApartTokens(x);
      OthersApart(op);
      ApartOne(op);
      ApartBoth([op], Tokens(x));
    case Binary(op, l, r) =>
      ApartTokens(l);
      ApartTokens(r);
      OthersApart(op);
      ApartOne(op);
      ApartBoth(Tokens(l), [op]);
      ApartBoth(Tokens(l) + [op], Tokens(r));
  }

  lemma OthersApart(t: Token)
    ensures IsBinary(t) || IsSign(t) || t.kind == RParen ==> Apart(t) == t
    ensures Apart(t).kind == t.kind
  {
  }

  lemma LeafApart(t: Token)
    ensures Shape(Leaf(t)) ==> Shape(Leaf(Apart(t))) && Strip(Leaf(Apart(t))) == TreeApart(Strip(Leaf(t)))
  {
  }

  lemma ApartOne(t: Token)
    ensures AllApart([t]) == [Apart(t)]
  {
  }

  lemma {:induction false} ApartNoClash(e: Expr)
    requires Shape(e)
    ensures !Clash(ExprApart(e)) && Tokens(ExprApart(e))[0].literal != "*"
  {
    hide Prec, ParseInt, Level, IsBinary;
    match e
    case Leaf(t) => IntIsNoStar(t);
    case Paren(_, inner, _) => ApartNoClash(inner);
    case Sign(_, x) => ApartNoClash(x);
    case Binary(_, l, r) => ApartNoClash(l); ApartNoClash(r);
  }

  lemma IntIsNoStar(t: Token)
    ensures t.kind == IntTok && ParseInt(t.literal).Some? ==> t.literal != "*"
    ensures t.kind != IntTok ==> "x" + t.literal != "*"
  {
    assert ("x" + t.literal)[0] == 'x';
    assert Digits("*", 1, 10) == None;
  }

  lemma {:induction false} TreeApartOnce(a: Tree, b: Tree)
    requires TreeApart(a) == TreeApart(b)
    ensures a == b
  {
    match a
    case Name(n) => assert ("x" + n)[1..] == n; assert ("x" + b.name)[1..] == b.name;
    case Quote(s) => assert ("x" + s)[1..] == s; assert ("x" + b.s)[1..] == b.s;
    case Pre(_, r) => TreeApartOnce(r, b.right);
    case Bin(_, l, r) => TreeApartOnce(l, b.left); TreeApartOnce(r, b.right);
    case _ =>
  }

  /** Two correctly shaped expressions with the same tokens are the same tree: the parser says so,
      once no operand can be taken for a star. */
  lemma SameTokensSameTree(a: Expr, b: Expr, line: int)
    requires Shape(a) && Shape(b) && Tokens(a) == Tokens(b) && OnLine(Tokens(a), line)
    ensures Strip(a) == Strip(b)
  {
    hide Parse, Tokens, Shape, Doubled, Clash;
    ApartShape(a);
    ApartShape(b);
    ApartTokens(a);
    ApartTokens(b);
    ApartNoClash(a);
    ApartNoClash(b);
    ClashIsDoubled(ExprApart(a));
    ClashIsDoubled(ExprApart(b));
    ParsesShape(ExprApart(a), line, NORMAL);
    ParsesShape(ExprApart(b), line, NORMAL);
    TreeApartOnce(Strip(a), Strip(b));
  }
}
