/**
 Printing a tree and reading it again (compiler/ast/expressions.go, the lexer and
 the parser): for every tree of integers, names, `-` and `!` and the binary
 operators, lexing and parsing its text gives the tree back.
 */
module Printing {
  import opened Wrappers
  import opened Lexing
  import opened Parsing
  import G = Grammar
  import E = Escaping
  import Scanning

  function OpText(k: Kind): string {
    match k
    case Plus => "+"
    case Minus => "-"
    case Modulo => "%"
    case Slash => "/"
    case Asterisk => "*"
    case Pow => "**"
    case Eq => "=="
    case NotEq => "!="
    case IsSame => "==="
    case IsNotSame => "!=="
    case Match => "=~"
    case Lt => "<"
    case Lte => "<="
    case Gt => ">"
    case Gte => ">="
    case And => "&&"
    case Or => "||"
    case Bang => "!"
    case _ => ""
  }

  /** String of the nodes. */
  function Printed(t: Tree): string {
    match t
    case Int(literal, _) => literal
    case Name(n) => n
    case Pre(op, r) => OpText(op) + Printed(r)
    case Bin(op, l, r) => "(" + Printed(l) + " " + OpText(op) + " " + Printed(r) + ")"
    case _ => ""
  }

  lemma OneCharacter(k: Kind)
    requires k in {Plus, Minus, Modulo, Slash, Asterisk, Lt, Gt, Bang}
    ensures Scanning.Spelled(OpText(k)) == Some(k)
  {
  }

  lemma TwoCharacters(k: Kind)
    requires k in {Pow, Eq, NotEq, Match, Lte, Gte, And, Or}
    ensures Scanning.Spelled(OpText(k)) == Some(k)
  {
  }

  lemma ThreeCharacters(k: Kind)
    requires k in {IsSame, IsNotSame}
    ensures Scanning.Spelled(OpText(k)) == Some(k)
  {
  }

  /** Each operator is printed as it is spelled. */
  lemma OpSpelled(k: Kind)
    ensures IsBinaryKind(k) || k == Bang ==> Scanning.Spelled(OpText(k)) == Some(k)
  {
    hide OpText, Scanning.Spelled;
    if k in {Plus, Minus, Modulo, Slash, Asterisk, Lt, Gt, Bang} {
      OneCharacter(k);
    } else if k in {Pow, Eq, NotEq, Match, Lte, Gte, And, Or} {
      TwoCharacters(k);
    } else if k in {IsSame, IsNotSame} {
      ThreeCharacters(k);
    }
  }

  /** Operands and operator, with a space on each side of it, in parentheses; a prefix stands right before its
      operand. */
  lemma PrintedForms(k: Kind, l: Tree, r: Tree)
    ensures IsBinaryKind(k) ==>
              exists op :: Scanning.Spelled(op) == Some(k)
                && Printed(Bin(k, l, r)) == ['('] + Printed(l) + [' '] + op + [' '] + Printed(r) + [')']
    ensures Printed(Pre(Minus, r)) == ['-'] + Printed(r) && Printed(Pre(Bang, r)) == ['!'] + Printed(r)
  {
    OpSpelled(k);
    hide OpText, Scanning.Spelled;
    if IsBinaryKind(k) {
      assert Scanning.Spelled(OpText(k)) == Some(k)
        && Printed(Bin(k, l, r)) == ['('] + Printed(l) + [' '] + OpText(k) + [' '] + Printed(r) + [')'];
    }
    OpTexts();
  }

  lemma OpTexts()
    ensures OpText(Minus) == ['-'] && OpText(Bang) == ['!']
  {
  }

  predicate AllDigits(s: string) {
    forall i :: 0 <= i < |s| ==> IsDigit(s[i])
  }

  predicate AllWord(s: string) {
    forall i :: 0 <= i < |s| ==> IsWordChar(s[i])
  }

  /** A lower-case name that is no keyword, perhaps with a question or exclamation mark. */
  predicate IsName(n: string) {
    && |n| > 0 && IsLetter(n[0]) && !IsUpper(n[0]) && KeywordOf(n) == Ident
    && (AllWord(n) || (|n| > 1 && AllWord(n[..|n| - 1]) && (n[|n| - 1] == '?' || n[|n| - 1] == '!')))
  }

  predicate IsBinaryKind(k: Kind) {
    G.IsBinary(Token(k, OpText(k), 0))
  }

  predicate Printable(t: Tree) {
    match t
    case Int(literal, v) => |literal| > 0 && AllDigits(literal) && ParseInt(literal) == Some(v)
    case Name(n) => IsName(n)
    case Pre(op, r) => (op == Minus || op == Bang) && Printable(r)
    case Bin(op, l, r) => IsBinaryKind(op) && Printable(l) && Printable(r)
    case _ => false
  }

  /** The tree with the tokens it is printed as. */
  function Written(t: Tree): G.Expr {
    match t
    case Int(literal, _) => G.Leaf(Token(IntTok, literal, 0))
    case Name(n) => G.Leaf(Token(Ident, n, 0))
    case Pre(op, r) => G.Sign(Token(op, OpText(op), 0), Written(r))
    case Bin(op, l, r) => G.Paren(Token(LParen, "(", 0), G.Binary(Token(op, OpText(op), 0), Written(l), Written(r)),
                                  Token(RParen, ")", 0))
    case _ => G.Leaf(Token(Eof, "", 0))
  }

  ghost predicate WellWritten(t: Tree) {
    && G.Shape(Written(t)) && G.Level(Written(t)) == G.TIGHTEST && G.Strip(Written(t)) == t
    && G.OnLine(G.Tokens(Written(t)), 0) && !G.Clash(Written(t)) && G.Tokens(Written(t))[0].literal != "*"
  }

  lemma {:induction false} WrittenShape(t: Tree)
    requires Printable(t)
    ensures G.Shape(Written(t)) && G.Level(Written(t)) == G.TIGHTEST && G.Strip(Written(t)) == t
    ensures G.OnLine(G.Tokens(Written(t)), 0) && !G.Clash(Written(t)) && G.Tokens(Written(t))[0].literal != "*"
    decreases t
  {
    assert WellWritten(t) by {
      hide WellWritten, Written, G.Shape, G.Strip, G.Tokens, G.OnLine, G.Clash, IsName, AllDigits, ParseInt;
      match t
      case Pre(_, r) => WrittenShape(r); WellWrittenIs(r); SignShape(t);
      case Bin(_, l, r) => WrittenShape(l); WrittenShape(r); WellWrittenIs(l); WellWrittenIs(r); BinaryShape(t);
      case _ => LeafShape(t);
    }
  }

  lemma WellWrittenIs(t: Tree)
    requires G.Shape(Written(t)) && G.Level(Written(t)) == G.TIGHTEST && G.Strip(Written(t)) == t
    requires G.OnLine(G.Tokens(Written(t)), 0) && !G.Clash(Written(t)) && G.Tokens(Written(t))[0].literal != "*"
    ensures WellWritten(t)
  {
  }

  lemma LeafShape(t: Tree)
    requires Printable(t) && (t.Name? || t.Int?)
    ensures WellWritten(t)
  {
    hide ParseInt, Prec, IsName, AllDigits, KeywordOf;
    match t
    case Name(n) => NameNotStar(n);
    case Int(literal, _) => NumberNotStar(literal);
  }

  lemma SignShape(t: Tree)
    requires t.Pre? && Printable(t) && WellWritten(t.right)
    ensures WellWritten(t)
  {
    hide ParseInt, Prec, IsName, AllDigits, OpText, G.OnLine;
    assert OpText(t.op) != "*" by { SignToken(t.op); }
    LineOfSign(t);
  }

  lemma BinaryShape(t: Tree)
    requires t.Bin? && Printable(t) && WellWritten(t.left) && WellWritten(t.right)
    ensures WellWritten(t)
  {
    hide ParseInt, Prec, G.IsBinary, IsName, IsBinaryKind, G.Tier, OpText, AllDigits;
    BinaryToken(t.op);
    LineOfBinary(t);
    var inner := Written(t).inner;
    assert G.Shape(inner) && G.Strip(inner) == t;
    assert !G.Starred(inner.op, inner.right) && !G.Clash(inner);
  }

  lemma SignToken(op: Kind)
    requires op == Minus || op == Bang
    ensures OpText(op) != "*"
  {
  }

  lemma LineOfSign(t: Tree)
    requires t.Pre? && G.OnLine(G.Tokens(Written(t.right)), 0)
    ensures G.OnLine(G.Tokens(Written(t)), 0)
  {
    hide OpText;
  }

  lemma LineOfBinary(t: Tree)
    requires t.Bin? && G.OnLine(G.Tokens(Written(t.left)), 0) && G.OnLine(G.Tokens(Written(t.right)), 0)
    ensures G.OnLine(G.Tokens(Written(t)), 0)
  {
    hide OpText;
    BinTokens(t);
  }

  lemma BinaryToken(op: Kind)
    requires IsBinaryKind(op)
    ensures
      var t := Token(op, OpText(op), 0);
      G.IsBinary(t) && G.Tier(t.kind) < G.TIGHTEST
  {
  }

  lemma NumberNotStar(n: string)
    requires |n| > 0 && AllDigits(n)
    ensures n != "*"
  {
    assert IsDigit(n[0]);
  }

  lemma NameNotStar(n: string)
    requires IsName(n)
    ensures n != "*"
  {
  }

  // ------------------------------------------------------------ token by token

  /** Where the lexer is n tokens later. */
  function After(s: string, p: Place, n: nat): Place
    decreases n
  {
    if n == 0 then p else After(s, Behind(s, p), n - 1)
  }

  lemma {:induction false} TokensSplit(s: string, p: Place, m: nat, n: nat)
    ensures TokensFrom(s, p, m + n) == TokensFrom(s, p, m) + TokensFrom(s, After(s, p, m), n)
    ensures After(s, p, m + n) == After(s, After(s, p, m), n)
    decreases m
  {
    hide Follow, Behind;
    if m > 0 { TokensSplit(s, Behind(s, p), m - 1, n); }
  }

  /** The lexer is at q, or at a single space in front of it, between words. */
  predicate Before(s: string, p: Place, q: nat) {
    p.fsm != Method && p.line == 0 && (p.at == q || (p.at + 1 == q && At(s, p.at) == ' '))
  }

  /** From p the given tokens are read, and the lexer is then at q. */
  predicate Reads(s: string, p: Place, ts: seq<Token>, q: nat) {
    && TokensFrom(s, p, |ts|) == ts
    && After(s, p, |ts|).at == q && After(s, p, |ts|).fsm != Method && After(s, p, |ts|).line == 0
  }

  lemma ReadsBoth(s: string, p: Place, a: seq<Token>, q: nat, b: seq<Token>, r: nat)
    requires Reads(s, p, a, q) && Reads(s, After(s, p, |a|), b, r)
    ensures Reads(s, p, a + b, r)
  {
    hide Follow, Behind;
    TokensSplit(s, p, |a|, |b|);
  }

  predicate Starts(c: char) {
    !IsSpace(c) && c != '#' && c != ':'
  }

  lemma ReadsOne(s: string, p: Place, q: nat)
    requires Before(s, p, q) && Starts(At(s, q))
    ensures
      var x := TokenHere(s, q, Initial, 0);
      x.fsm != Method && x.line == 0 ==> Reads(s, p, [x.token], x.at)
  {
    hide TokenHere;
    assert SpaceEnd(s, p.at) == q && Newlines(s, p.at, q) == 0 by { SpaceSkips(s, p.at, q); }
    var x := TokenHere(s, q, Initial, 0);
    assert Follow(s, p) == x;
    assert TokensFrom(s, p, 1) == [x.token] + TokensFrom(s, Behind(s, p), 0);
    assert After(s, p, 1) == After(s, Behind(s, p), 0);
  }

  lemma SpaceSkips(s: string, i: nat, q: nat)
    requires (i == q || (i + 1 == q && At(s, i) == ' ')) && !IsSpace(At(s, q))
    ensures SpaceEnd(s, i) == q && Newlines(s, i, q) == 0
  {
    assert SpaceEnd(s, q) == q && Newlines(s, q, q) == 0;
  }

  /** An operator or separator of the given kind. */
  lemma ReadsOperator(s: string, p: Place, q: nat, k: Kind, text: string)
    requires Before(s, p, q) && Starts(At(s, q)) && E.Stands(s, q, text) && k != Dot
    requires OperatorAt(s, q) == Some((k, |text|)) && At(s, q) != '"' && At(s, q) != '\''
    ensures Reads(s, p, [Token(k, text, 0)], q + |text|)
  {
    hide OperatorAt;
    ReadsOne(s, p, q);
  }

  lemma {:induction false} DigitsStop(s: string, i: nat, n: nat)
    requires i + n <= |s| && (forall k :: i <= k < i + n ==> IsDigit(s[k])) && !IsDigit(At(s, i + n))
    ensures DigitsEnd(s, i) == i + n
    decreases n
  {
    if n > 0 { DigitsStop(s, i + 1, n - 1); }
  }

  lemma {:induction false} WordStops(s: string, i: nat, n: nat)
    requires i + n <= |s| && (forall k :: i <= k < i + n ==> IsWordChar(s[k])) && !IsWordChar(At(s, i + n))
    ensures WordEnd(s, i) == i + n
    decreases n
  {
    if n > 0 { WordStops(s, i + 1, n - 1); }
  }

  /** What may stand behind a printed tree. */
  predicate Closes(c: char) {
    c == ' ' || c == ')' || c == ']' || c == ',' || c == NUL
  }

  lemma ReadsNumber(s: string, p: Place, q: nat, literal: string)
    requires Before(s, p, q) && E.Stands(s, q, literal) && |literal| > 0 && AllDigits(literal)
    requires Closes(At(s, q + |literal|))
    ensures Reads(s, p, [Token(IntTok, literal, 0)], q + |literal|)
  {
    E.StandsAt(s, q, literal, 0);
    forall k | q <= k < q + |literal| ensures IsDigit(s[k]) { E.StandsAt(s, q, literal, k - q); }
    DigitsStop(s, q, |literal|);
    PlainChar(s, q);
    StandsText(s, q, literal);
    ReadsOne(s, p, q);
    hide DigitsEnd, Reads, OperatorAt, StringAt, Lexing.Text, Before, E.Stands;
  }

  lemma ReadsName(s: string, p: Place, q: nat, n: string)
    requires Before(s, p, q) && E.Stands(s, q, n) && IsName(n) && Closes(At(s, q + |n|))
    ensures Reads(s, p, [Token(Ident, n, 0)], q + |n|)
  {
    hide Reads, TokenHere, E.Stands, Closes, IdentEnd, KeywordOf;
    NameToken(s, q, n);
    ReadsOne(s, p, q);
  }

  lemma NameToken(s: string, q: nat, n: string)
    requires E.Stands(s, q, n) && IsName(n) && Closes(At(s, q + |n|))
    ensures TokenHere(s, q, Initial, 0) == Lexed(Token(Ident, n, 0), q + |n|, NoSymbol, 0) && Starts(At(s, q))
  {
    hide TokenHere, IdentEnd, KeywordOf, AllWord, Lexing.Text, Closes;
    E.StandsAt(s, q, n, 0);
    NameEnds(s, q, n);
    NotDef(n);
    StandsText(s, q, n);
    WordHere(s, q, n);
    PlainChar(s, q);
  }

  lemma WordHere(s: string, q: nat, n: string)
    requires IsLetter(At(s, q)) && !IsUpper(At(s, q)) && KeywordOf(n) == Ident && n != "def"
    requires Lexing.Text(s, q, IdentEnd(s, q)) == n
    ensures TokenHere(s, q, Initial, 0) == Lexed(Token(Ident, n, 0), IdentEnd(s, q), NoSymbol, 0)
  {
    PlainChar(s, q);
    hide OperatorAt, IdentEnd, KeywordOf, Lexing.Text, StringAt;
  }

  /** A letter or digit starts no operator and no string. */
  lemma PlainChar(s: string, q: nat)
    requires IsWordChar(At(s, q))
    ensures OperatorAt(s, q) == None && At(s, q) != '"' && At(s, q) != '\'' && At(s, q) != ':' && At(s, q) != NUL
    ensures Starts(At(s, q))
  {
  }

  lemma StandsText(s: string, q: nat, n: string)
    requires E.Stands(s, q, n)
    ensures Lexing.Text(s, q, q + |n|) == n
  {
  }

  lemma NotDef(n: string)
    requires KeywordOf(n) == Ident
    ensures n != "def"
  {
  }

  lemma NameEnds(s: string, q: nat, n: string)
    requires E.Stands(s, q, n) && IsName(n) && Closes(At(s, q + |n|))
    ensures IdentEnd(s, q) == q + |n|
  {
    hide KeywordOf;
    var m := if AllWord(n) then |n| else |n| - 1;
    forall k | q <= k < q + m ensures IsWordChar(s[k]) {
      E.StandsAt(s, q, n, k - q);
      if !AllWord(n) { assert n[..|n| - 1][k - q] == n[k - q]; }
    }
    if m < |n| { E.StandsAt(s, q, n, m); }
    WordStops(s, q, m);
  }

  /** The first character of a printed tree. */
  lemma {:induction false} FirstChar(t: Tree)
    requires Printable(t)
    ensures Printed(t) != "" && Starts(Printed(t)[0]) && Printed(t)[0] != '=' && Printed(t)[0] != '>'
    decreases t
  {
    match t
    case Pre(op, _) => assert Printed(t)[0] == OpText(op)[0];
    case Bin(_, _, _) => assert Printed(t)[0] == '(';
    case _ =>
  }

  /** The text of an operator between spaces, or of a prefix, is read as that operator. */
  lemma OperatorText(s: string, q: nat, k: Kind)
    requires IsBinaryKind(k) && E.Stands(s, q, OpText(k)) && At(s, q + |OpText(k)|) == ' '
    ensures OperatorAt(s, q) == Some((k, |OpText(k)|)) && Starts(At(s, q)) && At(s, q) != '"' && At(s, q) != '\''
    ensures k != Dot
  {
    var n := |OpText(k)|;
    E.StandsAt(s, q, OpText(k), 0);
    if n > 1 { E.StandsAt(s, q, OpText(k), 1); }
    if n > 2 { E.StandsAt(s, q, OpText(k), 2); }
  }

  lemma SignText(s: string, q: nat, k: Kind)
    requires (k == Minus || k == Bang) && E.Stands(s, q, OpText(k)) && At(s, q + 1) != '=' && At(s, q + 1) != '>'
    ensures OperatorAt(s, q) == Some((k, 1)) && Starts(At(s, q)) && At(s, q) != '"' && At(s, q) != '\''
  {
    E.StandsAt(s, q, OpText(k), 0);
  }

  /** A printed tree is read as its tokens. */
  lemma {:induction false} ReadsTree(s: string, p: Place, q: nat, t: Tree)
    requires Printable(t) && Before(s, p, q) && E.Stands(s, q, Printed(t)) && Closes(At(s, q + |Printed(t)|))
    ensures Reads(s, p, G.Tokens(Written(t)), q + |Printed(t)|)
    decreases t, 1
  {
    hide Reads, Before, E.Stands, Printable, OpText;
    match t
    case Int(literal, _) => ReadsIntTree(s, p, q, t);
    case Name(n) => ReadsNameTree(s, p, q, t);
    case Pre(_, _) => ReadsPreTree(s, p, q, t);
    case Bin(_, _, _) => ReadsBinTree(s, p, q, t);
    case _ => Unprintable(t);
  }

  lemma Unprintable(t: Tree)
    requires !t.Int? && !t.Name? && !t.Pre? && !t.Bin?
    ensures !Printable(t)
  {
  }

  lemma ReadsIntTree(s: string, p: Place, q: nat, t: Tree)
    requires t.Int? && Printable(t) && Before(s, p, q) && E.Stands(s, q, Printed(t)) && Closes(At(s, q + |Printed(t)|))
    ensures Reads(s, p, G.Tokens(Written(t)), q + |Printed(t)|)
  {
    hide Reads;
    ReadsNumber(s, p, q, t.literal);
  }

  lemma ReadsNameTree(s: string, p: Place, q: nat, t: Tree)
    requires t.Name? && Printable(t) && Before(s, p, q) && E.Stands(s, q, Printed(t)) && Closes(At(s, q + |Printed(t)|))
    ensures Reads(s, p, G.Tokens(Written(t)), q + |Printed(t)|)
  {
    hide Reads, IsName;
    ReadsName(s, p, q, t.name);
  }

  lemma {:induction false} ReadsPreTree(s: string, p: Place, q: nat, t: Tree)
    requires t.Pre? && Printable(t) && Before(s, p, q) && E.Stands(s, q, Printed(t)) && Closes(At(s, q + |Printed(t)|))
    ensures Reads(s, p, G.Tokens(Written(t)), q + |Printed(t)|)
    decreases t, 0
  {
    hide Reads, E.Stands, Closes, Printed, Written, G.Tokens, OperatorAt, OpText, After, TokensFrom, At, Before;
    PreParts(t);
    ReadsSign(s, p, q, t);
    ReadsTree(s, After(s, p, 1), q + 1, t.right);
    ReadsBoth(s, p, [Token(t.op, OpText(t.op), 0)], q + 1, G.Tokens(Written(t.right)), q + |Printed(t)|);
  }

  lemma ReadsSign(s: string, p: Place, q: nat, t: Tree)
    requires t.Pre? && Printable(t) && Before(s, p, q) && E.Stands(s, q, Printed(t))
    ensures Reads(s, p, [Token(t.op, OpText(t.op), 0)], q + 1) && Before(s, After(s, p, 1), q + 1)
    ensures E.Stands(s, q + 1, Printed(t.right))
  {
    hide Reads, E.Stands, Closes, Printed, Written, G.Tokens, OperatorAt, OpText, After, TokensFrom, At;
    PreParts(t);
    E.StandsSplit(s, q, OpText(t.op), Printed(t.right));
    FirstChar(t.right);
    E.StandsAt(s, q + 1, Printed(t.right), 0);
    SignText(s, q, t.op);
    ReadsOperator(s, p, q, t.op, OpText(t.op));
    ReadsPlace(s, p, [Token(t.op, OpText(t.op), 0)], q + 1);
  }

  lemma PreParts(t: Tree)
    requires t.Pre? && Printable(t)
    ensures Printed(t) == OpText(t.op) + Printed(t.right) && |OpText(t.op)| == 1
    ensures G.Tokens(Written(t)) == [Token(t.op, OpText(t.op), 0)] + G.Tokens(Written(t.right))
  {
  }

  lemma ReadsPlace(s: string, p: Place, ts: seq<Token>, q: nat)
    requires Reads(s, p, ts, q)
    ensures After(s, p, |ts|).at == q && After(s, p, |ts|).fsm != Method && After(s, p, |ts|).line == 0
  {
  }

  lemma {:induction false} ReadsBinTree(s: string, p: Place, q: nat, t: Tree)
    requires t.Bin? && Printable(t) && Before(s, p, q) && E.Stands(s, q, Printed(t)) && Closes(At(s, q + |Printed(t)|))
    ensures Reads(s, p, G.Tokens(Written(t)), q + |Printed(t)|)
    decreases t, 0
  {
    hide Reads, E.Stands, OpText, IsBinaryKind, At, OperatorAt, Written, G.Tokens, TokensFrom, After, Printed;
    BinText(t);
    var l, r, o := Printed(t.left), Printed(t.right), OpText(t.op);
    BinParts(s, q, l, o, r);
    var ql, qo := q + 1, q + 1 + |l| + 1;
    var qr := qo + |o| + 1;
    var open, op, close := [Token(LParen, "(", 0)], [Token(t.op, o, 0)], [Token(RParen, ")", 0)];
    var lt, rt := G.Tokens(Written(t.left)), G.Tokens(Written(t.right));

    ReadsOperator(s, p, q, LParen, "(");
    var p1 := After(s, p, 1);
    ReadsPlace(s, p, open, ql);
    ReadsTree(s, p1, ql, t.left);
    ReadsBoth(s, p, open, ql, lt, ql + |l|);
    var p2 := After(s, p, |open + lt|);
    ReadsPlace(s, p, open + lt, ql + |l|);
    OperatorText(s, qo, t.op);
    ReadsOperator(s, p2, qo, t.op, o);
    ReadsBoth(s, p, open + lt, ql + |l|, op, qo + |o|);
    var p3 := After(s, p, |open + lt + op|);
    ReadsPlace(s, p, open + lt + op, qo + |o|);
    ReadsTree(s, p3, qr, t.right);
    ReadsBoth(s, p, open + lt + op, qo + |o|, rt, qr + |r|);
    var p4 := After(s, p, |open + lt + op + rt|);
    ReadsPlace(s, p, open + lt + op + rt, qr + |r|);
    ReadsOperator(s, p4, qr + |r|, RParen, ")");
    ReadsBoth(s, p, open + lt + op + rt, qr + |r|, close, qr + |r| + 1);
    assert G.Tokens(Written(t)) == open + lt + op + rt + close by { BinTokens(t); }
  }

  lemma BinText(t: Tree)
    requires t.Bin?
    ensures Printed(t) == "(" + Printed(t.left) + " " + OpText(t.op) + " " + Printed(t.right) + ")"
  {
  }

  lemma BinTokens(t: Tree)
    requires t.Bin?
    ensures
      var lt, rt := G.Tokens(Written(t.left)), G.Tokens(Written(t.right));
      G.Tokens(Written(t))
        == [Token(LParen, "(", 0)] + lt + [Token(t.op, OpText(t.op), 0)] + rt + [Token(RParen, ")", 0)]
  {
    hide OpText;
    var lt, rt, o := G.Tokens(Written(t.left)), G.Tokens(Written(t.right)), Token(t.op, OpText(t.op), 0);
    assert [Token(LParen, "(", 0)] + (lt + [o] + rt) == [Token(LParen, "(", 0)] + lt + [o] + rt;
  }

  /** The parts of a printed binary expression. */
  lemma BinParts(s: string, q: nat, l: string, o: string, r: string)
    requires E.Stands(s, q, "(" + l + " " + o + " " + r + ")")
    ensures E.Stands(s, q, "(") && OperatorAt(s, q) == Some((LParen, 1)) && At(s, q) == '('
    ensures E.Stands(s, q + 1, l) && At(s, q + 1 + |l|) == ' '
    ensures E.Stands(s, q + 2 + |l|, o) && At(s, q + 2 + |l| + |o|) == ' '
    ensures E.Stands(s, q + 3 + |l| + |o|, r) && At(s, q + 3 + |l| + |o| + |r|) == ')'
    ensures E.Stands(s, q + 3 + |l| + |o| + |r|, ")") && OperatorAt(s, q + 3 + |l| + |o| + |r|) == Some((RParen, 1))
  {
    hide E.Stands;
    E.StandsSplit(s, q, "(" + l + " " + o + " " + r, ")");
    E.StandsSplit(s, q, "(" + l + " " + o + " ", r);
    E.StandsSplit(s, q, "(" + l + " " + o, " ");
    E.StandsSplit(s, q, "(" + l + " ", o);
    E.StandsSplit(s, q, "(" + l, " ");
    E.StandsSplit(s, q, "(", l);
    E.StandsAt(s, q, "(", 0);
    E.StandsAt(s, q + 1 + |l|, " ", 0);
    E.StandsAt(s, q + 2 + |l| + |o|, " ", 0);
    E.StandsAt(s, q + 3 + |l| + |o| + |r|, ")", 0);
  }

  /** Printing and parsing are inverse: the text of a tree, lexed and parsed as a statement, is the tree. */
  lemma PrintedTreesReadBack(t: Tree)
    requires Printable(t)
    ensures
      var n := |G.Tokens(Written(t))|;
      var ts := TokensFrom(Printed(t), START, n + 1);
      && ts == G.Tokens(Written(t)) + [G.END]
      && ParseStatement(ts, 0) == Some((t, n - 1))
  {
    hide Reads, TokensFrom, Follow, Parse, Written, G.Shape, G.Tokens, Printable, Behind, Printed, G.Doubled, G.Clash;
    var s := Printed(t);
    var ts := G.Tokens(Written(t));
    assert E.Stands(s, 0, s);
    ReadsTree(s, START, 0, t);
    ReadsPlace(s, START, ts, |s|);
    ReadsEnd(s, After(s, START, |ts|));
    ReadsBoth(s, START, ts, |s|, [G.END], |s| + 1);
    assert TokensFrom(s, START, |ts + [G.END]|) == ts + [G.END] by { ReadsTokens(s, START, ts + [G.END], |s| + 1); }
    WrittenShape(t);
    G.ClashIsDoubled(Written(t));
    G.ParsesShape(Written(t), 0, LOWEST);
    G.ParsesShape(Written(t), 0, NORMAL);
  }

  lemma ReadsTokens(s: string, p: Place, ts: seq<Token>, q: nat)
    requires Reads(s, p, ts, q)
    ensures TokensFrom(s, p, |ts|) == ts
  {
  }

  lemma ReadsEnd(s: string, p: Place)
    requires p.at == |s| && p.fsm != Method && p.line == 0
    ensures Reads(s, p, [G.END], |s| + 1)
  {
    ReadsOne(s, p, |s|);
  }
}
