/**
 What the generator emits is laid out as the compiler theorem needs it: in the
 final program, with every anchor's line in place, each piece of syntax has its
 code where it was appended, and each set that was made is complete.
 */
module Generation {
  import opened Wrappers
  import opened Ast
  import opened Layout
  import opened Bytecode
  import opened Emission
  import opened Linking
  import opened WellFormed

  function SiteIn(g: Gen, k: nat, loop: Option<Anchors>): Site {
    Site(IsBlockSet(g, k), loop.Some?)
  }

  ghost predicate Known(g: Gen, loop: Option<Anchors>) {
    loop.Some? ==> loop.value.exit < |g.lines| && loop.value.next < |g.lines|
  }

  /** Set k can be written, and its loop's anchors exist. */
  ghost predicate Writable(g: Gen, k: nat, loop: Option<Anchors>) {
    Open(g, k) && Known(g, loop)
  }

  /** The argument vectors of set k are not touched. */
  predicate Same(g: Gen, h: Gen, k: nat)
    requires k < |g.sets|
  {
    k < |h.sets| && h.sets[k].params == g.sets[k].params
  }

  ghost predicate UnitDone(f: Final, u: nat) {
    u < |f.p.units| && UnitAt(f.p, u)
  }

  ghost predicate UnitsDone(f: Final, a: nat, b: nat) {
    forall u {:trigger UnitDone(f, u)} :: a <= u < b ==> UnitDone(f, u)
  }

  /** h is g with `size` more slots in set k; `code` says that they are what they
      should be, once h's anchors are known. */
  ghost predicate Wrote(f: Final, g: Gen, h: Gen, k: nat, loop: Option<Anchors>, size: nat, code: bool) {
    && Appended(g, h, k, size) && Writable(h, k, loop) && IsBlockSet(h, k) == IsBlockSet(g, k)
    && (Extends(f, h) ==> Extends(f, g) && code && UnitsDone(f, |g.sets|, |h.sets|))
  }

  lemma SiteSame(f: Final, g: Gen, k: nat, loop: Option<Anchors>)
    requires Open(g, k) && Extends(f, g)
    ensures SiteOf(f.p, k, LoopIn(f.lines, loop)) == SiteIn(g, k, loop)
  {
    assert OriginIs(f, g, k);
  }

  /** Where set k stands. */
  function Pc(g: Gen, k: nat): nat
    requires k < |g.sets|
  {
    |g.sets[k].code|
  }

  lemma Opened(f: Final, g: Gen, h: Gen, k: nat, loop: Option<Anchors>, n: nat, c: bool)
    requires Open(g, k) && Wrote(f, g, h, k, loop, n, c)
    ensures Writable(h, k, loop) && k < |g.sets| <= |h.sets| && Pc(h, k) == Pc(g, k) + n
    ensures SiteIn(h, k, loop) == SiteIn(g, k, loop)
  {
    hide Extends, Consistent, UnitsDone;
  }

  /** Two pieces in a row. */
  lemma Next(f: Final, e: Gen, g: Gen, h: Gen, k: nat, loop: Option<Anchors>, m: nat, n: nat, c: bool, d: bool)
    requires Open(e, k) && Wrote(f, e, g, k, loop, m, c) && Wrote(f, g, h, k, loop, n, d)
    ensures Wrote(f, e, h, k, loop, m + n, c && d)
    ensures Writable(h, k, loop) && k < |e.sets| <= |h.sets| && Pc(h, k) == Pc(e, k) + m + n
    ensures SiteIn(h, k, loop) == SiteIn(e, k, loop)
  {
    hide Extends, Grown, Consistent, UnitDone;
    Then(f, e, g, h, k, m, n);
    Sizes(e, g, k);
    Sizes(g, h, k);
  }

  /** What is written is what it is called. */
  lemma Settle(f: Final, g: Gen, h: Gen, k: nat, loop: Option<Anchors>, m: nat, n: nat, c: bool, d: bool)
    requires Open(g, k) && Wrote(f, g, h, k, loop, m, c) && m == n
    requires Extends(f, g) && c && SiteOf(f.p, k, LoopIn(f.lines, loop)) == SiteIn(g, k, loop) ==> d
    ensures Wrote(f, g, h, k, loop, n, d)
  {
    hide Extends, Appended, Consistent, UnitsDone;
    if Extends(f, g) { SiteSame(f, g, k, loop); }
  }

  /** The same in another loop. */
  lemma Reloop(f: Final, g: Gen, h: Gen, k: nat, loop: Option<Anchors>, other: Option<Anchors>, n: nat, c: bool)
    requires Wrote(f, g, h, k, loop, n, c) && Known(g, other)
    ensures Wrote(f, g, h, k, other, n, c)
  {
    hide Extends, Consistent, UnitsDone, SetGrown, NewRef;
  }

  lemma WroteNothing(f: Final, g: Gen, k: nat, loop: Option<Anchors>)
    requires Writable(g, k, loop)
    ensures Wrote(f, g, g, k, loop, 0, true)
  {
    hide Extends;
    forall j | 0 <= j < |g.sets| ensures SetGrown(g, g, k, j) { }
  }

  lemma WroteAnchor(f: Final, g: Gen, k: nat, loop: Option<Anchors>, line: Option<nat>)
    requires Writable(g, k, loop)
    ensures Wrote(f, g, NewAnchor(g, line), k, loop, 0, line.Some? ==> LineOf(f.lines, |g.lines|) == line.value)
    ensures Writable(NewAnchor(g, line), k, loop) && SiteIn(NewAnchor(g, line), k, loop) == SiteIn(g, k, loop)
  {
    hide Consistent, SetIs, OriginIs, RefIs;
    var h := NewAnchor(g, line);
    NewAnchorAppended(g, k, line);
    StaysOpen(g, h, k);
    if Extends(f, h) {
      ExtendsBefore(f, g, h, k);
      assert LineIs(f, h, |g.lines|);
    }
  }

  lemma StillUndefined(f: Final, g: Gen, h: Gen, k: nat, loop: Option<Anchors>, n: nat, c: bool, a: nat)
    requires Wrote(f, g, h, k, loop, n, c) && a < |g.lines|
    ensures a < |h.lines| && h.lines[a] == g.lines[a]
  {
    hide Extends, Consistent, UnitsDone, SetGrown, NewRef;
  }

  /** An anchor made on the way gets its line. */
  lemma WroteLine(f: Final, g: Gen, h: Gen, k: nat, loop: Option<Anchors>, n: nat, c: bool, a: nat, line: nat)
    requires Open(g, k) && Wrote(f, g, h, k, loop, n, c) && |g.lines| <= a < |h.lines| && h.lines[a].None?
    ensures Wrote(f, g, DefineAnchor(h, a, line), k, loop, n, c && LineOf(f.lines, a) == line)
    ensures Writable(DefineAnchor(h, a, line), k, loop)
    ensures SiteIn(DefineAnchor(h, a, line), k, loop) == SiteIn(g, k, loop)
  {
    hide Extends, Consistent, UnitsDone, Grown;
    AnchorDefined(f, g, h, k, n, a, line);
  }

  lemma Sizes(g: Gen, h: Gen, k: nat)
    requires Grown(g, h, k)
    ensures |g.sets| <= |h.sets| && |g.lines| <= |h.lines|
  {
  }

  /** An instruction. */
  lemma Wrote1(f: Final, g: Gen, k: nat, loop: Option<Anchors>, op: int, os: seq<Operand>)
    requires Writable(g, k, loop) && NoLines(os) && !Meaning(op, os, f.lines).IMalformed?
    ensures Wrote(f, g, Emit(g, k, op, os), k, loop, 1 + |os|, At(f.p, k, Pc(g, k), Meaning(op, os, f.lines)))
    ensures Same(g, Emit(g, k, op, os), k) && |Emit(g, k, op, os).sets| == |g.sets|
  {
    hide Extends, Grown, UnitAt, At, Meaning, Emit;
    var h := Emit(g, k, op, os);
    Emitted(f, g, k, op, os);
    StaysOpen(g, h, k);
    if Extends(f, h) { ExtendsBefore(f, g, h, k); }
  }

  lemma WroteTo(f: Final, g: Gen, k: nat, loop: Option<Anchors>, op: int, a: nat)
    requires Writable(g, k, loop) && a < |g.lines| && (op == JUMP || op == BRANCH_IF || op == BRANCH_UNLESS)
    ensures Wrote(f, g, EmitTo(g, k, op, a), k, loop, 2, At(f.p, k, Pc(g, k), MeaningOf1(op, Line(a), f.lines)))
    ensures Same(g, EmitTo(g, k, op, a), k)
  {
    hide Extends, Grown, UnitAt, At, MeaningOf1, EmitTo;
    var h := EmitTo(g, k, op, a);
    EmittedTo(f, g, k, op, a);
    StaysOpen(g, h, k);
    if Extends(f, h) { ExtendsBefore(f, g, h, k); }
  }

  // ------------------------------------------------------------ expressions

  ghost predicate ExprLaid(f: Final, g: Gen, k: nat, e: Expr, sc: Scope, loop: Option<Anchors>)
    requires k < |g.sets|
  {
    var h := EmitExpr(g, k, e, sc, loop);
    && Wrote(f, g, h, k, loop, Size(e, sc, SiteIn(g, k, loop)), CodeAt(f.p, k, Pc(g, k), e, sc, LoopIn(f.lines, loop)))
    && Same(g, h, k)
  }

  ghost predicate AllLaid(f: Final, g: Gen, k: nat, es: seq<Expr>, n: nat, sc: Scope, loop: Option<Anchors>)
    requires k < |g.sets| && n <= |es|
  {
    var h := EmitAll(g, k, es, n, sc, loop);
    && Wrote(f, g, h, k, loop, SizeAll(es, n, sc, SiteIn(g, k, loop)),
             CodeAll(f.p, k, Pc(g, k), es, n, sc, LoopIn(f.lines, loop)))
    && Same(g, h, k)
  }

  ghost predicate StmtsLaid(f: Final, g: Gen, k: nat, ss: seq<Stmt>, n: nat, sc: Scope, loop: Option<Anchors>)
    requires k < |g.sets| && n <= |ss|
  {
    var h := EmitStmts(g, k, ss, n, sc, loop);
    && Wrote(f, g, h, k, loop, SizeStmts(ss, n, sc, SiteIn(g, k, loop)),
             CodeStmts(f.p, k, Pc(g, k), ss, n, sc, LoopIn(f.lines, loop)))
    && Same(g, h, k)
  }

  ghost predicate StmtLaid(f: Final, g: Gen, k: nat, x: Stmt, sc: Scope, loop: Option<Anchors>)
    requires k < |g.sets|
  {
    var h := EmitStmt(g, k, x, sc, loop);
    && Wrote(f, g, h, k, loop, SizeStmt(x, sc, SiteIn(g, k, loop)),
             CodeStmt(f.p, k, Pc(g, k), x, sc, LoopIn(f.lines, loop)))
    && Same(g, h, k)
  }

  lemma WriteExpr(f: Final, g: Gen, k: nat, e: Expr, sc: Scope, loop: Option<Anchors>)
    requires Writable(g, k, loop)
    ensures ExprLaid(f, g, k, e, sc, loop)
    decreases e, 3
  {
    hide ExprLaid, Writable;
    assert k < |g.sets| by { InRange(g, k, loop); }
    match e
    case ArrayLit(_) => WriteArray(f, g, k, e, sc, loop);
    case Ident(_) => WriteIdent(f, g, k, e, sc, loop);
    case Assign(_, _) => WriteAssign(f, g, k, e, sc, loop);
    case Logic(_, _, _) => WriteLogic(f, g, k, e, sc, loop);
    case Infix(_, _, _) => WriteInfix(f, g, k, e, sc, loop);
    case Not(_) => WriteNot(f, g, k, e, sc, loop);
    case Minus(_) => WriteMinus(f, g, k, e, sc, loop);
    case Plus(v) => WriteSame(f, g, k, e, v, sc, loop);
    case If(_, _, _) => WriteIf(f, g, k, e, sc, loop);
    case Yield(_) => WriteYield(f, g, k, e, sc, loop);
    case Pair(_, v) => WriteSame(f, g, k, e, v, sc, loop);
    case Call(_, _, _, _) => WriteCall(f, g, k, e, sc, loop);
    case _ => WriteLeaf(f, g, k, e, sc, loop);
  }

  lemma InRange(g: Gen, k: nat, loop: Option<Anchors>)
    requires Writable(g, k, loop)
    ensures k < |g.sets|
  {
  }

  function LeafOp(e: Expr): int {
    match e
    case IntLit(_) => PUT_INT
    case StrLit(_) => PUT_STRING
    case BoolLit(b) => if b then PUT_TRUE else PUT_FALSE
    case SelfRef => PUT_SELF
    case BlockGiven => HAS_BLOCK
    case _ => PUT_NULL
  }

  function LeafOperands(e: Expr): seq<Operand> {
    match e
    case IntLit(n) => [Num(n)]
    case StrLit(t) => [Item(StrConst(t))]
    case _ => []
  }

  predicate IsLeaf(e: Expr) {
    e.IntLit? || e.StrLit? || e.BoolLit? || e.NilLit? || e.SelfRef? || e.BlockGiven?
  }

  lemma LeafForm(f: Final, g: Gen, k: nat, e: Expr, sc: Scope, loop: Option<Anchors>)
    requires IsLeaf(e) && k < |g.sets|
    ensures EmitExpr(g, k, e, sc, loop) == Emit(g, k, LeafOp(e), LeafOperands(e)) && NoLines(LeafOperands(e))
    ensures Size(e, sc, SiteIn(g, k, loop)) == 1 + |LeafOperands(e)|
    ensures !Meaning(LeafOp(e), LeafOperands(e), f.lines).IMalformed?
    ensures CodeAt(f.p, k, Pc(g, k), e, sc, LoopIn(f.lines, loop))
      == At(f.p, k, Pc(g, k), Meaning(LeafOp(e), LeafOperands(e), f.lines))
  {
    hide At, Emit, SiteIn, CodeAll, CodeArms, CodeStmts, StoresAt, SizeAll, SizeArms, SizeStmts, SizeStores, Resolve;
    hide BlockOperand, EmitAll, EmitArms, EmitStmts, EmitStores, EmitBlock, Decode, After;
  }

  lemma WriteLeaf(f: Final, g: Gen, k: nat, e: Expr, sc: Scope, loop: Option<Anchors>)
    requires Writable(g, k, loop) && IsLeaf(e)
    ensures ExprLaid(f, g, k, e, sc, loop)
  {
    hide Wrote, Consistent, Emit, At, EmitExpr, Size, CodeAt, NoLines, Meaning, LeafOp, LeafOperands, IsLeaf;
    LeafForm(f, g, k, e, sc, loop);
    Wrote1(f, g, k, loop, LeafOp(e), LeafOperands(e));
  }

  lemma WriteSame(f: Final, g: Gen, k: nat, e: Expr, v: Expr, sc: Scope, loop: Option<Anchors>)
    requires Writable(g, k, loop) && ((e.Plus? && v == e.arg) || (e.Pair? && v == e.value))
    ensures ExprLaid(f, g, k, e, sc, loop)
    decreases e, 2
  {
    hide Wrote, Consistent, CodeAll, CodeArms, CodeStmts, SizeAll, SizeArms, SizeStmts, EmitAll, EmitArms, EmitStmts;
    hide StoresAt;
    hide EmitStores, SizeStores, Resolve, BlockOperand, Emit, At, SiteIn, SiteOf;
    WriteExpr(f, g, k, v, sc, loop);
  }

  lemma WriteInfix(f: Final, g: Gen, k: nat, e: Expr, sc: Scope, loop: Option<Anchors>)
    requires Writable(g, k, loop) && e.Infix?
    ensures ExprLaid(f, g, k, e, sc, loop)
    decreases e, 2
  {
    hide Wrote, At, Decode, After, SiteIn, SiteOf, Consistent, EmitOperator, Extends, Resolve, BlockOperand;
    hide CodeAll, CodeArms, CodeStmts, SizeAll, SizeArms, SizeStmts, EmitAll, EmitArms, EmitStmts, StoresAt, EmitStores;
    hide SizeStores;
    var sc1 := After(e.left, sc);
    var site, lp, pc := SiteIn(g, k, loop), LoopIn(f.lines, loop), Pc(g, k);
    var g1 := EmitExpr(g, k, e.left, sc, loop);
    var g2 := EmitExpr(g1, k, e.right, sc1, loop);
    var h := EmitOperator(g2, k, e.op);
    var m, n := Size(e.left, sc, site), Size(e.right, sc1, site);
    var c1, c2 := CodeAt(f.p, k, pc, e.left, sc, lp), CodeAt(f.p, k, pc + m, e.right, sc1, lp);
    var c3 := At(f.p, k, pc + m + n, OperatorInstr(e.op));
    WriteExpr(f, g, k, e.left, sc, loop);
    Opened(f, g, g1, k, loop, m, c1);
    WriteExpr(f, g1, k, e.right, sc1, loop);
    Next(f, g, g1, g2, k, loop, m, n, c1, c2);
    WriteOperator(f, g2, k, e.op, loop);
    Next(f, g, g2, h, k, loop, m + n, 2, c1 && c2, c3);
    Settle(f, g, h, k, loop, m + n + 2, Size(e, sc, site), c1 && c2 && c3, CodeAt(f.p, k, pc, e, sc, lp));
  }

  lemma WriteOperator(f: Final, g: Gen, k: nat, op: Name, loop: Option<Anchors>)
    requires Writable(g, k, loop)
    ensures Wrote(f, g, EmitOperator(g, k, op), k, loop, 2, At(f.p, k, Pc(g, k), OperatorInstr(op)))
    ensures Same(g, EmitOperator(g, k, op), k)
  {
    hide Wrote, Open, At, Emit;
    var i := OperatorInstr(op);
    Wrote1(f, g, k, loop, if i.IArith? then i.op else BINARY_OPERATOR, [Item(NameConst(op))]);
  }

  lemma WriteSend0(f: Final, g: Gen, k: nat, x: Name, argc: nat, loop: Option<Anchors>)
    requires Writable(g, k, loop)
    ensures
      var h := Emit(g, k, SEND, [Item(NameConst(x)), Num(argc), Item(NilConst), Item(NilConst)]);
      Wrote(f, g, h, k, loop, 5, At(f.p, k, Pc(g, k), ISend(x, argc, None, None))) && Same(g, h, k)
  {
    hide Wrote, Open, At, Emit;
    Wrote1(f, g, k, loop, SEND, [Item(NameConst(x)), Num(argc), Item(NilConst), Item(NilConst)]);
  }

  lemma WriteIdent(f: Final, g: Gen, k: nat, e: Expr, sc: Scope, loop: Option<Anchors>)
    requires Writable(g, k, loop) && e.Ident?
    ensures ExprLaid(f, g, k, e, sc, loop)
  {
    hide Wrote, At, Decode, SiteOf, Consistent, Emit, Extends, Resolve;
    var a := Resolve(sc, e.name);
    if a.Some? {
      Wrote1(f, g, k, loop, GET_LOCAL, [Num(a.value.depth), Num(a.value.index)]);
    } else {
      var g1 := Emit(g, k, PUT_SELF, []);
      var h := Emit(g1, k, SEND, [Item(NameConst(e.name)), Num(0), Item(NilConst), Item(NilConst)]);
      Wrote1(f, g, k, loop, PUT_SELF, []);
      Opened(f, g, g1, k, loop, 1, At(f.p, k, Pc(g, k), IPutSelf));
      WriteSend0(f, g1, k, e.name, 0, loop);
      Next(f, g, g1, h, k, loop, 1, 5, At(f.p, k, Pc(g, k), IPutSelf),
           At(f.p, k, Pc(g, k) + 1, ISend(e.name, 0, None, None)));
    }
  }

  lemma WriteNot(f: Final, g: Gen, k: nat, e: Expr, sc: Scope, loop: Option<Anchors>)
    requires Writable(g, k, loop) && e.Not?
    ensures ExprLaid(f, g, k, e, sc, loop)
    decreases e, 2
  {
    hide Wrote, At, Decode, SiteIn, SiteOf, Consistent, Emit, Extends, Resolve, BlockOperand;
    hide CodeAll, CodeArms, CodeStmts, SizeAll, SizeArms, SizeStmts, EmitAll, EmitArms, EmitStmts, StoresAt, EmitStores;
    hide SizeStores;
    var site, lp, pc := SiteIn(g, k, loop), LoopIn(f.lines, loop), Pc(g, k);
    var g1 := EmitExpr(g, k, e.arg, sc, loop);
    var h := EmitExpr(g, k, e, sc, loop);
    var m := Size(e.arg, sc, site);
    var c1, c2 := CodeAt(f.p, k, pc, e.arg, sc, lp), At(f.p, k, pc + m, ISend(BANG, 0, None, None));
    WriteExpr(f, g, k, e.arg, sc, loop);
    Opened(f, g, g1, k, loop, m, c1);
    WriteSend0(f, g1, k, BANG, 0, loop);
    Next(f, g, g1, h, k, loop, m, 5, c1, c2);
    Settle(f, g, h, k, loop, m + 5, Size(e, sc, site), c1 && c2, CodeAt(f.p, k, pc, e, sc, lp));
  }

  lemma WriteMinus(f: Final, g: Gen, k: nat, e: Expr, sc: Scope, loop: Option<Anchors>)
    requires Writable(g, k, loop) && e.Minus?
    ensures ExprLaid(f, g, k, e, sc, loop)
    decreases e, 2
  {
    hide Wrote, At, Decode, SiteIn, SiteOf, Consistent, Emit, Extends, Resolve, BlockOperand;
    hide CodeAll, CodeArms, CodeStmts, SizeAll, SizeArms, SizeStmts, EmitAll, EmitArms, EmitStmts, StoresAt, EmitStores;
    hide SizeStores;
    var site, lp, pc := SiteIn(g, k, loop), LoopIn(f.lines, loop), Pc(g, k);
    var g0 := Emit(g, k, PUT_INT, [Num(0)]);
    var g1 := EmitExpr(g0, k, e.arg, sc, loop);
    var h := EmitExpr(g, k, e, sc, loop);
    var m := Size(e.arg, sc, site);
    var c0, c1 := At(f.p, k, pc, IPutInt(0)), CodeAt(f.p, k, pc + 2, e.arg, sc, lp);
    var c2 := At(f.p, k, pc + 2 + m, ISend(MINUS_NAME, 1, None, None));
    Wrote1(f, g, k, loop, PUT_INT, [Num(0)]);
    Opened(f, g, g0, k, loop, 2, c0);
    WriteExpr(f, g0, k, e.arg, sc, loop);
    Next(f, g, g0, g1, k, loop, 2, m, c0, c1);
    WriteSend0(f, g1, k, MINUS_NAME, 1, loop);
    Next(f, g, g1, h, k, loop, 2 + m, 5, c0 && c1, c2);
    Settle(f, g, h, k, loop, 2 + m + 5, Size(e, sc, site), c0 && c1 && c2, CodeAt(f.p, k, pc, e, sc, lp));
  }

  lemma WriteAll(f: Final, g: Gen, k: nat, es: seq<Expr>, n: nat, sc: Scope, loop: Option<Anchors>)
    requires Writable(g, k, loop) && n <= |es|
    ensures AllLaid(f, g, k, es, n, sc, loop)
    decreases es, n
  {
    hide Wrote, CodeAt, Size, EmitExpr, SiteIn, SiteOf, Consistent, Extends, After;
    if n == 0 {
      WroteNothing(f, g, k, loop);
    } else {
      var site, lp, pc := SiteIn(g, k, loop), LoopIn(f.lines, loop), Pc(g, k);
      var sc1 := AfterAll(es, n - 1, sc);
      var g1 := EmitAll(g, k, es, n - 1, sc, loop);
      var h := EmitAll(g, k, es, n, sc, loop);
      var m1, m2 := SizeAll(es, n - 1, sc, site), Size(es[n - 1], sc1, site);
      var c1, c2 := CodeAll(f.p, k, pc, es, n - 1, sc, lp), CodeAt(f.p, k, pc + m1, es[n - 1], sc1, lp);
      WriteAll(f, g, k, es, n - 1, sc, loop);
      Opened(f, g, g1, k, loop, m1, c1);
      WriteExpr(f, g1, k, es[n - 1], sc1, loop);
      Next(f, g, g1, h, k, loop, m1, m2, c1, c2);
      Settle(f, g, h, k, loop, m1 + m2, SizeAll(es, n, sc, site), c1 && c2, CodeAll(f.p, k, pc, es, n, sc, lp));
    }
  }

  lemma WriteArray(f: Final, g: Gen, k: nat, e: Expr, sc: Scope, loop: Option<Anchors>)
    requires Writable(g, k, loop) && e.ArrayLit?
    ensures ExprLaid(f, g, k, e, sc, loop)
    decreases e, 2
  {
    hide Wrote, At, Decode, SiteIn, SiteOf, Consistent, Emit, Extends, CodeAll, SizeAll, EmitAll;
    var site, lp, pc, n := SiteIn(g, k, loop), LoopIn(f.lines, loop), Pc(g, k), |e.elems|;
    var g1 := EmitAll(g, k, e.elems, n, sc, loop);
    var h := EmitExpr(g, k, e, sc, loop);
    var m := SizeAll(e.elems, n, sc, site);
    var c1, c2 := CodeAll(f.p, k, pc, e.elems, n, sc, lp), At(f.p, k, pc + m, INewArray(n));
    WriteAll(f, g, k, e.elems, n, sc, loop);
    Opened(f, g, g1, k, loop, m, c1);
    Wrote1(f, g1, k, loop, NEW_ARRAY, [Num(n)]);
    Next(f, g, g1, h, k, loop, m, 2, c1, c2);
    Settle(f, g, h, k, loop, m + 2, Size(e, sc, site), c1 && c2, CodeAt(f.p, k, pc, e, sc, lp));
  }

  lemma WriteYield(f: Final, g: Gen, k: nat, e: Expr, sc: Scope, loop: Option<Anchors>)
    requires Writable(g, k, loop) && e.Yield?
    ensures ExprLaid(f, g, k, e, sc, loop)
    decreases e, 2
  {
    hide Wrote, At, Decode, SiteIn, SiteOf, Consistent, Emit, Extends, CodeAll, SizeAll, EmitAll;
    var site, lp, pc, n := SiteIn(g, k, loop), LoopIn(f.lines, loop), Pc(g, k), |e.args|;
    var g0 := Emit(g, k, PUT_SELF, []);
    var g1 := EmitAll(g0, k, e.args, n, sc, loop);
    var h := EmitExpr(g, k, e, sc, loop);
    var m := SizeAll(e.args, n, sc, site);
    var c0, c1, c2 := At(f.p, k, pc, IPutSelf), CodeAll(f.p, k, pc + 1, e.args, n, sc, lp),
      At(f.p, k, pc + 1 + m, IInvokeBlock(n));
    Wrote1(f, g, k, loop, PUT_SELF, []);
    Opened(f, g, g0, k, loop, 1, c0);
    WriteAll(f, g0, k, e.args, n, sc, loop);
    Next(f, g, g0, g1, k, loop, 1, m, c0, c1);
    Wrote1(f, g1, k, loop, INVOKE_BLOCK, [Num(n)]);
    Next(f, g, g1, h, k, loop, 1 + m, 2, c0 && c1, c2);
    Settle(f, g, h, k, loop, 1 + m + 2, Size(e, sc, site), c0 && c1 && c2, CodeAt(f.p, k, pc, e, sc, lp));
  }

  // ------------------------------------------------------------- assignment

  lemma DeclareResolves(sc: Scope, x: Name)
    ensures Resolve(Declare(sc, x), x).Some?
  {
  }

  lemma WriteStore(f: Final, g: Gen, k: nat, vars: seq<Name>, i: nat, sc: Scope, loop: Option<Anchors>)
    requires Writable(g, k, loop) && i < |vars|
    ensures
      var h := EmitStore(g, k, vars, i, sc);
      Wrote(f, g, h, k, loop, StoreSize(vars, i), StoreAt(f.p, k, Pc(g, k), vars, i, sc)) && Same(g, h, k)
  {
    hide Wrote, At, Decode, SiteIn, Consistent, Emit, Extends, Resolve, Declare;
    DeclareResolves(sc, vars[i]);
    var a := Resolve(Declare(sc, vars[i]), vars[i]).value;
    var h := EmitStore(g, k, vars, i, sc);
    var pc, g1, m, c1 := Pc(g, k), g, 0, true;
    WroteNothing(f, g, k, loop);
    if vars[i] != BLANK {
      g1, m, c1 := Emit(g, k, SET_LOCAL, [Num(a.depth), Num(a.index)]), 3, At(f.p, k, pc, ISetLocal(a.depth, a.index));
      Wrote1(f, g, k, loop, SET_LOCAL, [Num(a.depth), Num(a.index)]);
    }
    Opened(f, g, g1, k, loop, m, c1);
    if i != |vars| - 1 {
      Wrote1(f, g1, k, loop, POP, []);
      Next(f, g, g1, h, k, loop, m, 1, c1, At(f.p, k, pc + m, IPop));
    }
  }

  lemma WriteStores(f: Final, g: Gen, k: nat, vars: seq<Name>, n: nat, sc: Scope, loop: Option<Anchors>)
    requires Writable(g, k, loop) && n <= |vars|
    ensures
      var h := EmitStores(g, k, vars, n, sc);
      Wrote(f, g, h, k, loop, SizeStores(vars, n), StoresAt(f.p, k, Pc(g, k), vars, n, sc)) && Same(g, h, k)
    decreases n
  {
    hide Wrote, SiteIn, Consistent, EmitStore, Extends, DeclareAll, StoreAt, StoreSize;
    if n == 0 {
      WroteNothing(f, g, k, loop);
    } else {
      var pc, sc1 := Pc(g, k), DeclareAll(sc, vars, n - 1);
      var g1 := EmitStores(g, k, vars, n - 1, sc);
      var h := EmitStores(g, k, vars, n, sc);
      var m := SizeStores(vars, n - 1);
      var c1, c2 := StoresAt(f.p, k, pc, vars, n - 1, sc), StoreAt(f.p, k, pc + m, vars, n - 1, sc1);
      WriteStores(f, g, k, vars, n - 1, sc, loop);
      Opened(f, g, g1, k, loop, m, c1);
      WriteStore(f, g1, k, vars, n - 1, sc1, loop);
      Next(f, g, g1, h, k, loop, m, StoreSize(vars, n - 1), c1, c2);
    }
  }

  lemma WriteAssign(f: Final, g: Gen, k: nat, e: Expr, sc: Scope, loop: Option<Anchors>)
    requires Writable(g, k, loop) && e.Assign?
    ensures ExprLaid(f, g, k, e, sc, loop)
    decreases e, 2
  {
    hide Wrote, At, Decode, SiteIn, SiteOf, Consistent, Emit, Extends, EmitStores, StoresAt, SizeStores, After;
    hide CodeAll, CodeArms, CodeStmts, SizeAll, SizeArms, SizeStmts, EmitAll, EmitArms, EmitStmts, Resolve;
    hide BlockOperand;
    var site, lp, pc, n := SiteIn(g, k, loop), LoopIn(f.lines, loop), Pc(g, k), |e.vars|;
    var sc1 := After(e.value, sc);
    var g1 := EmitExpr(g, k, e.value, sc, loop);
    var m := Size(e.value, sc, site);
    var c := CodeAt(f.p, k, pc, e.value, sc, lp);
    WriteExpr(f, g, k, e.value, sc, loop);
    Opened(f, g, g1, k, loop, m, c);
    var g2, q, c2 := g1, m, c;
    if n > 1 {
      g2, q, c2 := Emit(g1, k, EXPAND_ARRAY, [Num(n)]), m + 2, c && At(f.p, k, pc + m, IExpandArray(n));
      Wrote1(f, g1, k, loop, EXPAND_ARRAY, [Num(n)]);
      Next(f, g, g1, g2, k, loop, m, 2, c, At(f.p, k, pc + m, IExpandArray(n)));
    }
    var h := EmitStores(g2, k, e.vars, n, sc1);
    var c3 := StoresAt(f.p, k, pc + q, e.vars, n, sc1);
    WriteStores(f, g2, k, e.vars, n, sc1, loop);
    Next(f, g, g2, h, k, loop, q, SizeStores(e.vars, n), c2, c3);
    Settle(f, g, h, k, loop, q + SizeStores(e.vars, n), Size(e, sc, site), c2 && c3, CodeAt(f.p, k, pc, e, sc, lp));
  }

  // --------------------------------------------------------------- branches

  function EmitTest(g: Gen, k: nat, op: int, end: nat): Gen {
    Emit(EmitTo(Emit(g, k, DUP, []), k, op, end), k, POP, [])
  }

  /** Dup, the branch to the end, and Pop. */
  lemma WriteTest(f: Final, g: Gen, k: nat, op: int, end: nat, loop: Option<Anchors>)
    requires Writable(g, k, loop) && (op == BRANCH_IF || op == BRANCH_UNLESS) && end < |g.lines|
    ensures
      var h, pc := EmitTest(g, k, op, end), Pc(g, k);
      && Wrote(f, g, h, k, loop, 4,
               (At(f.p, k, pc, IDup) && At(f.p, k, pc + 1, MeaningOf1(op, Line(end), f.lines)))
                 && At(f.p, k, pc + 3, IPop))
      && Same(g, h, k)
  {
    hide Wrote, At, Consistent, Emit, EmitTo;
    var pc := Pc(g, k);
    var g1 := Emit(g, k, DUP, []);
    var g2 := EmitTo(g1, k, op, end);
    var c1, c2 := At(f.p, k, pc, IDup), At(f.p, k, pc + 1, MeaningOf1(op, Line(end), f.lines));
    Wrote1(f, g, k, loop, DUP, []);
    Opened(f, g, g1, k, loop, 1, c1);
    StillUndefined(f, g, g1, k, loop, 1, c1, end);
    WroteTo(f, g1, k, loop, op, end);
    Next(f, g, g1, g2, k, loop, 1, 2, c1, c2);
    Wrote1(f, g2, k, loop, POP, []);
    Next(f, g, g2, EmitTest(g, k, op, end), k, loop, 3, 1, c1 && c2, At(f.p, k, pc + 3, IPop));
  }

  lemma WriteLogic(f: Final, g: Gen, k: nat, e: Expr, sc: Scope, loop: Option<Anchors>)
    requires Writable(g, k, loop) && e.Logic?
    ensures ExprLaid(f, g, k, e, sc, loop)
    decreases e, 2
  {
    hide Wrote, At, Decode, SiteIn, SiteOf, Consistent, Emit, EmitTo, Extends, After, EmitExpr, CodeAt, Size;
    var site, lp, pc := SiteIn(g, k, loop), LoopIn(f.lines, loop), Pc(g, k);
    var sc1, end, op := After(e.left, sc), |g.lines|, BranchOp(e.conj);
    var m, n := Size(e.left, sc, site), Size(e.right, sc1, site);
    var g0 := NewAnchor(g, None);
    var g1 := EmitExpr(g0, k, e.left, sc, loop);
    var g2 := EmitTest(g1, k, op, end);
    var g3 := EmitExpr(g2, k, e.right, sc1, loop);
    var h := DefineAnchor(g3, end, Here(g3, k));
    var c1, c3 := CodeAt(f.p, k, pc, e.left, sc, lp), CodeAt(f.p, k, pc + m + 4, e.right, sc1, lp);
    var c2 := (At(f.p, k, pc + m, IDup) && At(f.p, k, pc + m + 1, MeaningOf1(op, Line(end), f.lines)))
        && At(f.p, k, pc + m + 3, IPop);
    WroteAnchor(f, g, k, loop, None);
    WriteExpr(f, g0, k, e.left, sc, loop);
    Opened(f, g0, g1, k, loop, m, c1);
    StillUndefined(f, g0, g1, k, loop, m, c1, end);
    WriteTest(f, g1, k, op, end, loop);
    Next(f, g0, g1, g2, k, loop, m, 4, c1, c2);
    WriteExpr(f, g2, k, e.right, sc1, loop);
    Next(f, g0, g2, g3, k, loop, m + 4, n, c1 && c2, c3);
    StillUndefined(f, g0, g3, k, loop, m + 4 + n, (c1 && c2) && c3, end);
    Next(f, g, g0, g3, k, loop, 0, m + 4 + n, true, (c1 && c2) && c3);
    WroteLine(f, g, g3, k, loop, m + 4 + n, (c1 && c2) && c3, end, Here(g3, k));
    LogicForm(g, k, e, sc, loop);
    LogicSize(e, sc, site);
    if SiteOf(f.p, k, lp) == site && ((c1 && c2) && c3) && LineOf(f.lines, end) == Here(g3, k) {
      LogicBuilt(f.p, k, pc, e, sc, lp);
    }
    Settle(f, g, h, k, loop, m + 4 + n, Size(e, sc, site),
           ((c1 && c2) && c3) && LineOf(f.lines, end) == Here(g3, k), CodeAt(f.p, k, pc, e, sc, lp));
  }

  lemma LogicForm(g: Gen, k: nat, e: Expr, sc: Scope, loop: Option<Anchors>)
    requires e.Logic?
    ensures
      var end := |g.lines|;
      var g3 := EmitExpr(EmitTest(EmitExpr(NewAnchor(g, None), k, e.left, sc, loop), k, BranchOp(e.conj), end), k,
                         e.right, After(e.left, sc), loop);
      EmitExpr(g, k, e, sc, loop) == DefineAnchor(g3, end, Here(g3, k))
  {
    hide Emit, EmitTo, After, EmitAll, EmitArms, EmitStmts, Resolve, EmitStores;
  }

  /** Code for the operands, with the test between them, is code for the operation. */
  lemma LogicBuilt(p: Program, k: nat, pc: nat, e: Expr, sc: Scope, loop: Option<Loop>)
    requires
      var site := SiteOf(p, k, loop);
      e.Logic?
      && var m, n := Size(e.left, sc, site), Size(e.right, After(e.left, sc), site);
         var end := pc + m + 4 + n;
      && CodeAt(p, k, pc, e.left, sc, loop) && At(p, k, pc + m, IDup)
      && At(p, k, pc + m + 1, if e.conj then IBranchUnless(end) else IBranchIf(end)) && At(p, k, pc + m + 3, IPop)
      && CodeAt(p, k, pc + m + 4, e.right, After(e.left, sc), loop)
    ensures CodeAt(p, k, pc, e, sc, loop)
  {
    hide At, Decode, After, CodeAll, CodeArms, CodeStmts, Size, Resolve, BlockOperand, StoresAt;
  }

  lemma LogicSize(e: Expr, sc: Scope, site: Site)
    requires e.Logic?
    ensures Size(e, sc, site) == Size(e.left, sc, site) + 4 + Size(e.right, After(e.left, sc), site)
  {
    hide After, SizeAll, SizeArms, SizeStmts, SizeStores, Resolve;
  }

  ghost predicate ArmsLaid(f: Final, g: Gen, k: nat, arms: seq<Arm>, n: nat, sc: Scope, loop: Option<Anchors>,
                           last: nat)
    requires k < |g.sets| && n <= |arms|
  {
    var h := EmitArms(g, k, arms, n, sc, loop, last);
    && Wrote(f, g, h, k, loop, SizeArms(arms, n, sc, SiteIn(g, k, loop)),
             CodeArms(f.p, k, Pc(g, k), arms, n, sc, LoopIn(f.lines, loop), LineOf(f.lines, last)))
    && Same(g, h, k)
  }

  lemma WriteArms(f: Final, g: Gen, k: nat, arms: seq<Arm>, n: nat, sc: Scope, loop: Option<Anchors>, last: nat)
    requires Writable(g, k, loop) && n <= |arms| && last < |g.lines|
    ensures ArmsLaid(f, g, k, arms, n, sc, loop, last)
    decreases arms, n
  {
    hide Wrote, CodeArm, SizeArm, EmitArm, SiteIn, SiteOf, Consistent, Extends, After, AfterStmts;
    if n == 0 {
      WroteNothing(f, g, k, loop);
    } else {
      var site, lp, pc, end := SiteIn(g, k, loop), LoopIn(f.lines, loop), Pc(g, k), LineOf(f.lines, last);
      var sc1 := AfterArms(arms, n - 1, sc);
      var g1 := EmitArms(g, k, arms, n - 1, sc, loop, last);
      var h := EmitArms(g, k, arms, n, sc, loop, last);
      var m1, m2 := SizeArms(arms, n - 1, sc, site), SizeArm(arms[n - 1], sc1, site);
      var c1, c2 := CodeArms(f.p, k, pc, arms, n - 1, sc, lp, end), CodeArm(f.p, k, pc + m1, arms[n - 1], sc1, lp, end);
      WriteArms(f, g, k, arms, n - 1, sc, loop, last);
      Opened(f, g, g1, k, loop, m1, c1);
      StillUndefined(f, g, g1, k, loop, m1, c1, last);
      WriteArm(f, g1, k, arms[n - 1], sc1, loop, last);
      Next(f, g, g1, h, k, loop, m1, m2, c1, c2);
      Settle(f, g, h, k, loop, m1 + m2, SizeArms(arms, n, sc, site), c1 && c2,
             CodeArms(f.p, k, pc, arms, n, sc, lp, end));
    }
  }

  function EmitBody(g: Gen, k: nat, arm: Arm, sc: Scope, loop: Option<Anchors>): Gen {
    if arm.body == [] then Emit(g, k, PUT_NULL, []) else EmitStmts(g, k, arm.body, |arm.body|, sc, loop)
  }

  function SizeBody(arm: Arm, sc: Scope, site: Site): nat {
    if arm.body == [] then 1 else SizeStmts(arm.body, |arm.body|, sc, site)
  }

  ghost predicate CodeBody(p: Program, k: nat, pc: nat, arm: Arm, sc: Scope, loop: Option<Loop>) {
    if arm.body == [] then At(p, k, pc, IPutNull) else CodeStmts(p, k, pc, arm.body, |arm.body|, sc, loop)
  }

  lemma WriteBody(f: Final, g: Gen, k: nat, arm: Arm, sc: Scope, loop: Option<Anchors>)
    requires Writable(g, k, loop)
    ensures
      var h := EmitBody(g, k, arm, sc, loop);
      && Wrote(f, g, h, k, loop, SizeBody(arm, sc, SiteIn(g, k, loop)),
               CodeBody(f.p, k, Pc(g, k), arm, sc, LoopIn(f.lines, loop)))
      && Same(g, h, k)
    decreases arm, 0
  {
    hide Wrote, At, Consistent, Emit, SiteIn, EmitStmts, SizeStmts, CodeStmts;
    if arm.body == [] {
      Wrote1(f, g, k, loop, PUT_NULL, []);
    } else {
      WriteStmts(f, g, k, arm.body, |arm.body|, sc, loop);
    }
  }

  lemma WriteArm(f: Final, g: Gen, k: nat, arm: Arm, sc: Scope, loop: Option<Anchors>, last: nat)
    requires Writable(g, k, loop) && last < |g.lines|
    ensures
      var h := EmitArm(g, k, arm, sc, loop, last);
      && Wrote(f, g, h, k, loop, SizeArm(arm, sc, SiteIn(g, k, loop)),
               CodeArm(f.p, k, Pc(g, k), arm, sc, LoopIn(f.lines, loop), LineOf(f.lines, last)))
      && Same(g, h, k)
    decreases arm, 1
  {
    hide Wrote, At, SiteIn, SiteOf, Consistent, Emit, EmitTo, Extends, After, EmitExpr, CodeAt, Size, EmitStmts;
    hide SizeStmts, CodeStmts;
    var site, lp, pc, end := SiteIn(g, k, loop), LoopIn(f.lines, loop), Pc(g, k), LineOf(f.lines, last);
    var sc1, over := After(arm.cond, sc), |g.lines|;
    var m, n := Size(arm.cond, sc, site), SizeBody(arm, sc1, site);
    var g0 := NewAnchor(g, None);
    var g1 := EmitExpr(g0, k, arm.cond, sc, loop);
    var g2 := EmitTo(g1, k, BRANCH_UNLESS, over);
    var g3 := EmitBody(g2, k, arm, sc1, loop);
    var g4 := EmitTo(g3, k, JUMP, last);
    var c1, c2 := CodeAt(f.p, k, pc, arm.cond, sc, lp), At(f.p, k, pc + m, IBranchUnless(LineOf(f.lines, over)));
    var c3, c4 := CodeBody(f.p, k, pc + m + 2, arm, sc1, lp), At(f.p, k, pc + m + 2 + n, IJump(end));
    WroteAnchor(f, g, k, loop, None);
    WriteExpr(f, g0, k, arm.cond, sc, loop);
    Opened(f, g0, g1, k, loop, m, c1);
    StillUndefined(f, g0, g1, k, loop, m, c1, over);
    WroteTo(f, g1, k, loop, BRANCH_UNLESS, over);
    Next(f, g0, g1, g2, k, loop, m, 2, c1, c2);
    WriteBody(f, g2, k, arm, sc1, loop);
    Next(f, g0, g2, g3, k, loop, m + 2, n, c1 && c2, c3);
    StillUndefined(f, g0, g3, k, loop, m + 2 + n, (c1 && c2) && c3, last);
    WroteTo(f, g3, k, loop, JUMP, last);
    Next(f, g0, g3, g4, k, loop, m + 2 + n, 2, (c1 && c2) && c3, c4);
    StillUndefined(f, g0, g4, k, loop, m + 4 + n, ((c1 && c2) && c3) && c4, over);
    Next(f, g, g0, g4, k, loop, 0, m + 4 + n, true, ((c1 && c2) && c3) && c4);
    WroteLine(f, g, g4, k, loop, m + 4 + n, ((c1 && c2) && c3) && c4, over, Here(g4, k));
    Settle(f, g, DefineAnchor(g4, over, Here(g4, k)), k, loop, m + 4 + n, SizeArm(arm, sc, site),
           (((c1 && c2) && c3) && c4) && LineOf(f.lines, over) == Here(g4, k), CodeArm(f.p, k, pc, arm, sc, lp, end));
  }

  function EmitElse(g: Gen, k: nat, e: Expr, sc: Scope, loop: Option<Anchors>): Gen
    requires e.If?
  {
    if e.hasElse then EmitStmts(g, k, e.alt, |e.alt|, sc, loop) else Emit(g, k, PUT_NULL, [])
  }

  function SizeElse(e: Expr, sc: Scope, site: Site): nat
    requires e.If?
  {
    if e.hasElse then SizeStmts(e.alt, |e.alt|, sc, site) else 1
  }

  ghost predicate CodeElse(p: Program, k: nat, pc: nat, e: Expr, sc: Scope, loop: Option<Loop>)
    requires e.If?
  {
    if e.hasElse then CodeStmts(p, k, pc, e.alt, |e.alt|, sc, loop) else At(p, k, pc, IPutNull)
  }

  lemma WriteElse(f: Final, g: Gen, k: nat, e: Expr, sc: Scope, loop: Option<Anchors>)
    requires Writable(g, k, loop) && e.If?
    ensures
      var h := EmitElse(g, k, e, sc, loop);
      && Wrote(f, g, h, k, loop, SizeElse(e, sc, SiteIn(g, k, loop)),
               CodeElse(f.p, k, Pc(g, k), e, sc, LoopIn(f.lines, loop)))
      && Same(g, h, k)
    decreases e, 1
  {
    hide Wrote, At, Consistent, Emit, SiteIn, EmitStmts, SizeStmts, CodeStmts;
    if e.hasElse {
      WriteStmts(f, g, k, e.alt, |e.alt|, sc, loop);
    } else {
      Wrote1(f, g, k, loop, PUT_NULL, []);
    }
  }

  lemma WriteIf(f: Final, g: Gen, k: nat, e: Expr, sc: Scope, loop: Option<Anchors>)
    requires Writable(g, k, loop) && e.If?
    ensures ExprLaid(f, g, k, e, sc, loop)
    decreases e, 2
  {
    hide Wrote, At, SiteIn, SiteOf, Consistent, Emit, Extends, AfterArms, EmitArms, SizeArms, CodeArms, EmitExpr, Size;
    hide CodeAt;
    hide EmitElse, SizeElse, CodeElse;
    var site, lp, pc, last, n := SiteIn(g, k, loop), LoopIn(f.lines, loop), Pc(g, k), |g.lines|, |e.arms|;
    var end := LineOf(f.lines, last);
    var sc1 := AfterArms(e.arms, n, sc);
    var m1, m2 := SizeArms(e.arms, n, sc, site), SizeElse(e, sc1, site);
    var g0 := NewAnchor(g, None);
    var g1 := EmitArms(g0, k, e.arms, n, sc, loop, last);
    var g2 := EmitElse(g1, k, e, sc1, loop);
    var c1, c2 := CodeArms(f.p, k, pc, e.arms, n, sc, lp, end), CodeElse(f.p, k, pc + m1, e, sc1, lp);
    WroteAnchor(f, g, k, loop, None);
    WriteArms(f, g0, k, e.arms, n, sc, loop, last);
    Opened(f, g0, g1, k, loop, m1, c1);
    WriteElse(f, g1, k, e, sc1, loop);
    Next(f, g0, g1, g2, k, loop, m1, m2, c1, c2);
    StillUndefined(f, g0, g2, k, loop, m1 + m2, c1 && c2, last);
    Next(f, g, g0, g2, k, loop, 0, m1 + m2, true, c1 && c2);
    WroteLine(f, g, g2, k, loop, m1 + m2, c1 && c2, last, Here(g2, k));
    IfForm(g, k, e, sc, loop);
    IfSize(e, sc, site);
    if SiteOf(f.p, k, lp) == site && (c1 && c2) && end == Here(g2, k) { IfBuilt(f.p, k, pc, e, sc, lp); }
    Settle(f, g, DefineAnchor(g2, last, Here(g2, k)), k, loop, m1 + m2, Size(e, sc, site),
           (c1 && c2) && end == Here(g2, k), CodeAt(f.p, k, pc, e, sc, lp));
  }

  lemma IfForm(g: Gen, k: nat, e: Expr, sc: Scope, loop: Option<Anchors>)
    requires e.If?
    ensures
      var g1 := EmitArms(NewAnchor(g, None), k, e.arms, |e.arms|, sc, loop, |g.lines|);
      var g2 := EmitElse(g1, k, e, AfterArms(e.arms, |e.arms|, sc), loop);
      EmitExpr(g, k, e, sc, loop) == DefineAnchor(g2, |g.lines|, Here(g2, k))
  {
    hide Emit, AfterArms, EmitArms, EmitStmts;
  }

  lemma IfSize(e: Expr, sc: Scope, site: Site)
    requires e.If?
    ensures Size(e, sc, site)
      == SizeArms(e.arms, |e.arms|, sc, site) + SizeElse(e, AfterArms(e.arms, |e.arms|, sc), site)
  {
    hide AfterArms, SizeArms, SizeStmts;
  }

  lemma IfBuilt(p: Program, k: nat, pc: nat, e: Expr, sc: Scope, loop: Option<Loop>)
    requires e.If? && CodeArms(p, k, pc, e.arms, |e.arms|, sc, loop, pc + Size(e, sc, SiteOf(p, k, loop)))
    requires CodeElse(p, k, pc + SizeArms(e.arms, |e.arms|, sc, SiteOf(p, k, loop)), e, AfterArms(e.arms, |e.arms|, sc),
                      loop)
    ensures CodeAt(p, k, pc, e, sc, loop)
  {
    hide AfterArms, SizeArms, SizeStmts, CodeArms, CodeStmts, At;
  }

  // --------------------------------------------------------- calls and units

  /** A new set, filled and finished, seen from set k. */
  ghost predicate UnitMade(f: Final, g: Gen, h: Gen, k: nat, loop: Option<Anchors>, origin: Origin) {
    && Wrote(f, g, h, k, loop, 0, |g.sets| < |f.p.units| && f.p.units[|g.sets|] == SourceOf(origin, f.lines))
    && Same(g, h, k)
  }

  lemma StartUnit(g: Gen, origin: Origin, params: ArgSet, loop: Option<Anchors>)
    requires Consistent(g) && Known(g, loop)
    ensures
      var h, u := NewSet(g, origin, params), |g.sets|;
      && Writable(h, u, loop) && Grown(g, h, u) && Pc(h, u) == 0 && h.sets[u].params == params && h.origins[u] == origin
  {
    var h, u := NewSet(g, origin, params), |g.sets|;
    forall j | 0 <= j < |g.sets| ensures SetGrown(g, h, u, j) { }
    forall r | r in h.refs ensures RefOk(h, r) { assert RefOk(g, r); }
  }

  /** What is known of a set when it is finished. */
  ghost predicate Ended(f: Final, u: nat, n: nat, params: ArgSet) {
    && u < |f.p.sets| && At(f.p, u, n, ILeave) && |f.p.sets[u].code| == n + 1 && f.p.sets[u].params == params
  }

  lemma EndUnit(f: Final, g1: Gen, g2: Gen, u: nat, n: nat, c: bool, inner: Option<Anchors>)
    requires Open(g1, u) && Pc(g1, u) == 0 && Wrote(f, g1, g2, u, inner, n, c)
    ensures
      var h := Finish(g2, u);
      && |h.sets| == |g2.sets| >= |g1.sets| && Consistent(h)
      && (Extends(f, h) ==>
            && Extends(f, g1) && c && UnitsDone(f, |g1.sets|, |h.sets|)
            && u < |f.p.units| && f.p.units[u] == SourceOf(g1.origins[u], f.lines) && Ended(f, u, n, g2.sets[u].params))
  {
    hide UnitAt, At, Decode, Emit;
    var g3 := Emit(g2, u, LEAVE, []);
    var h := Finish(g2, u);
    Opened(f, g1, g2, u, inner, n, c);
    Wrote1(f, g2, u, inner, LEAVE, []);
    Next(f, g1, g2, g3, u, inner, n, 1, c, At(f.p, u, n, ILeave));
    forall r | r in h.refs ensures RefOk(h, r) { assert RefOk(g3, r); }
    if Extends(f, h) {
      FinishedExtends(f, g3, h, u);
      ExtendsBefore(f, g1, g3, u);
      assert OriginIs(f, g1, u);
      assert SetIs(f, h, u);
    }
  }

  /** Seen from the set that was being written when the new one was begun. */
  lemma NestUnit(f: Final, g: Gen, g1: Gen, g2: Gen, u: nat, n: nat, c: bool, k: nat, loop: Option<Anchors>,
                 inner: Option<Anchors>)
    requires Open(g, k) && Known(g, loop) && u == |g.sets| && |g1.sets| == u + 1
    requires Open(g1, u) && Grown(g, g1, u) && Wrote(f, g1, g2, u, inner, n, c)
    ensures
      var h := Finish(g2, u);
      && Appended(g, h, k, 0) && Writable(h, k, loop) && IsBlockSet(h, k) == IsBlockSet(g, k) && Same(g, h, k)
      && (Extends(f, h) ==> Extends(f, g))
  {
    hide UnitAt, At, Decode, Emit;
    var g3 := Emit(g2, u, LEAVE, []);
    var h := Finish(g2, u);
    Opened(f, g1, g2, u, inner, n, c);
    Wrote1(f, g2, u, inner, LEAVE, []);
    Next(f, g1, g2, g3, u, inner, n, 1, c, At(f.p, u, Pc(g2, u), ILeave));
    GrownTrans(g, g1, g3, u);
    FinishedGrown(g, g3, h, u, k);
    StaysOpen(g, h, k);
    if Extends(f, h) { ExtendsBefore(f, g, h, k); }
  }

  lemma FinishedGrown(g: Gen, g3: Gen, h: Gen, u: nat, k: nat)
    requires Grown(g, g3, u) && u == |g.sets| < |g3.sets| && h == g3.(finished := g3.finished + [u]) && Consistent(g3)
    requires k < |g.sets|
    ensures Grown(g, h, k) && Consistent(h) && h.sets[k] == g.sets[k]
  {
    forall j | 0 <= j < |g.sets| ensures SetGrown(g, h, k, j) { assert SetGrown(g, g3, u, j); }
    forall r | r in h.refs ensures r in g.refs || NewRef(g, k, r) { assert r in g.refs || NewRef(g, u, r); }
    forall r | r in h.refs ensures RefOk(h, r) { assert RefOk(g3, r); }
    assert SetGrown(g, g3, u, k);
  }

  lemma FinishedExtends(f: Final, g: Gen, h: Gen, u: nat)
    requires h == g.(finished := g.finished + [u]) && Extends(f, h)
    ensures Extends(f, g)
  {
    forall a | 0 <= a < |g.lines| ensures LineIs(f, g, a) { assert LineIs(f, h, a); }
    forall v | 0 <= v < |g.origins| ensures OriginIs(f, g, v) { assert OriginIs(f, h, v); }
    forall j | 0 <= j < |g.sets| ensures SetIs(f, g, j) {
      assert SetIs(f, h, j);
      forall i: nat | i < |g.sets[j].code| && Waiting(h, j, i) ensures Waiting(g, j, i) { }
    }
  }

  lemma WriteBlock(f: Final, g: Gen, k: nat, b: BlockLit, outer: seq<seq<Name>>, loop: Option<Anchors>)
    requires Writable(g, k, loop)
    ensures UnitMade(f, g, EmitBlock(g, b, outer, loop), k, loop, FromBlock(b.params, b.body, outer, loop))
    decreases b, 0
  {
    hide Extends, Grown, Consistent, At, UnitAt, EmitStmts, SizeStmts, CodeStmts, Emit, SiteIn;
    var u, n := |g.sets|, |b.body|;
    var origin := FromBlock(b.params, b.body, outer, loop);
    var sc := BlockScope(b.params, outer);
    StartUnit(g, origin, ArgSet([], []), loop);
    var g1 := NewSet(g, origin, ArgSet([], []));
    var g2 := EmitStmts(g1, u, b.body, n, sc, loop);
    WriteStmts(f, g1, u, b.body, n, sc, loop);
    var m, c := SizeStmts(b.body, n, sc, SiteIn(g1, u, loop)),
      CodeStmts(f.p, u, 0, b.body, n, sc, LoopIn(f.lines, loop));
    EndUnit(f, g1, g2, u, m, c, loop);
    NestUnit(f, g, g1, g2, u, m, c, k, loop, loop);
    var h := EmitBlock(g, b, outer, loop);
    if Extends(f, h) {
      SiteSame(f, g1, u, loop);
      BlockAt(f.p, u, m);
      assert UnitDone(f, u);
    }
  }

  lemma BlockAt(p: Program, u: nat, m: nat)
    requires u < |p.units| && u < |p.sets| && p.units[u].BlockSource?
    requires
      var s := p.units[u];
      var sc := BlockScope(s.names, s.outer);
      && CodeStmts(p, u, 0, s.body, |s.body|, sc, s.loop) && m == SizeStmts(s.body, |s.body|, sc, SiteOf(p, u, s.loop))
      && At(p, u, m, ILeave) && |p.sets[u].code| == m + 1
    ensures UnitAt(p, u)
  {
    hide CodeStmts, SizeStmts, At, Distinct;
  }

  lemma WroteCount(f: Final, g: Gen, k: nat, loop: Option<Anchors>, n: nat)
    requires Writable(g, k, loop)
    ensures Wrote(f, g, g.(argSets := n), k, loop, 0, true)
  {
    var h := g.(argSets := n);
    forall j | 0 <= j < |g.sets| ensures SetGrown(g, h, k, j) { }
    forall r | r in h.refs ensures RefOk(h, r) { assert RefOk(g, r); }
    if Extends(f, h) { ExtendsBefore(f, g, h, k); }
  }

  /** The block of a call, if there is one. */
  function EmitBlockOf(g: Gen, e: Expr, after: Scope, loop: Option<Anchors>): Gen
    requires e.Call?
  {
    if e.block.Some? then EmitBlock(g, e.block.value, [after.cur] + after.outer, loop) else g
  }

  function UnitOf(g: Gen, e: Expr): Option<nat>
    requires e.Call?
  {
    if e.block.Some? then Some(|g.sets|) else None
  }

  lemma WriteBlockOf(f: Final, g: Gen, k: nat, e: Expr, after: Scope, loop: Option<Anchors>)
    requires Writable(g, k, loop) && e.Call?
    ensures
      var h := EmitBlockOf(g, e, after, loop);
      && Wrote(f, g, h, k, loop, 0, BlockOperand(f.p, e.block, UnitOf(g, e), after, LoopIn(f.lines, loop)))
      && Same(g, h, k)
    decreases e, 1
  {
    hide Extends, Grown, Consistent, UnitAt, EmitBlock, UnitsDone;
    if e.block.Some? {
      WriteBlock(f, g, k, e.block.value, [after.cur] + after.outer, loop);
    } else {
      WroteNothing(f, g, k, loop);
    }
  }

  function EmitSend(g: Gen, k: nat, e: Expr, unit: Option<nat>, argSet: nat): Gen
    requires e.Call?
  {
    if e.name == DEFER_NAME then Emit(g, k, DEFER, [Num(|e.args|), Item(SetItem(unit))])
    else Emit(g, k, SEND,
              [Item(NameConst(e.name)), Num(|e.args|), Item(SetItem(unit)), Item(ArgsConst(argSet, ArgSetOf(e.args)))])
  }

  function SendInstr(e: Expr, unit: Option<nat>): Instr
    requires e.Call?
  {
    if e.name == DEFER_NAME then IDefer(|e.args|, unit) else ISend(e.name, |e.args|, unit, Some(ArgSetOf(e.args)))
  }

  lemma WriteSend(f: Final, g: Gen, k: nat, e: Expr, unit: Option<nat>, argSet: nat, loop: Option<Anchors>)
    requires Writable(g, k, loop) && e.Call?
    ensures
      var h := EmitSend(g, k, e, unit, argSet);
      && Wrote(f, g, h, k, loop, if e.name == DEFER_NAME then 3 else 5, At(f.p, k, Pc(g, k), SendInstr(e, unit)))
      && Same(g, h, k)
  {
    hide Wrote, Consistent, At, Emit, ArgSetOf;
    if e.name == DEFER_NAME {
      Wrote1(f, g, k, loop, DEFER, [Num(|e.args|), Item(SetItem(unit))]);
    } else {
      Wrote1(f, g, k, loop, SEND,
             [Item(NameConst(e.name)), Num(|e.args|), Item(SetItem(unit)), Item(ArgsConst(argSet, ArgSetOf(e.args)))]);
    }
  }

  lemma WriteCall(f: Final, g: Gen, k: nat, e: Expr, sc: Scope, loop: Option<Anchors>)
    requires Writable(g, k, loop) && e.Call?
    ensures ExprLaid(f, g, k, e, sc, loop)
    decreases e, 2
  {
    hide Wrote, At, SiteIn, SiteOf, Consistent, Extends, After, AfterAll, EmitAll, SizeAll, CodeAll, EmitExpr, Size;
    hide CodeAt;
    hide EmitSend, EmitBlockOf, BlockOperand, SendInstr;
    var site, lp, pc, n := SiteIn(g, k, loop), LoopIn(f.lines, loop), Pc(g, k), |e.args|;
    var sc1 := After(e.recv, sc);
    var after := AfterAll(e.args, n, sc1);
    var m1, m2, m4 := Size(e.recv, sc, site), SizeAll(e.args, n, sc1, site), if e.name == DEFER_NAME then 3 else 5;
    var g0 := g.(argSets := g.argSets + 1);
    var g1 := EmitExpr(g0, k, e.recv, sc, loop);
    var g2 := EmitAll(g1, k, e.args, n, sc1, loop);
    var g3 := EmitBlockOf(g2, e, after, loop);
    var unit := UnitOf(g2, e);
    var h := EmitSend(g3, k, e, unit, g.argSets);
    var c1, c2 := CodeAt(f.p, k, pc, e.recv, sc, lp), CodeAll(f.p, k, pc + m1, e.args, n, sc1, lp);
    var c3, c4 := BlockOperand(f.p, e.block, unit, after, lp), At(f.p, k, pc + m1 + m2, SendInstr(e, unit));
    WroteCount(f, g, k, loop, g.argSets + 1);
    Opened(f, g, g0, k, loop, 0, true);
    WriteExpr(f, g0, k, e.recv, sc, loop);
    Next(f, g, g0, g1, k, loop, 0, m1, true, c1);
    WriteAll(f, g1, k, e.args, n, sc1, loop);
    Next(f, g, g1, g2, k, loop, m1, m2, c1, c2);
    WriteBlockOf(f, g2, k, e, after, loop);
    Next(f, g, g2, g3, k, loop, m1 + m2, 0, c1 && c2, c3);
    WriteSend(f, g3, k, e, unit, g.argSets, loop);
    Next(f, g, g3, h, k, loop, m1 + m2, m4, (c1 && c2) && c3, c4);
    CallForm(g, k, e, sc, loop);
    CallSize(e, sc, site);
    if SiteOf(f.p, k, lp) == site && ((c1 && c2) && c3) && c4 { CallBuilt(f.p, k, pc, e, sc, lp, unit); }
    Settle(f, g, h, k, loop, m1 + m2 + m4, Size(e, sc, site), ((c1 && c2) && c3) && c4, CodeAt(f.p, k, pc, e, sc, lp));
  }

  lemma CallForm(g: Gen, k: nat, e: Expr, sc: Scope, loop: Option<Anchors>)
    requires e.Call?
    ensures
      var sc1 := After(e.recv, sc);
      var g2 := EmitAll(EmitExpr(g.(argSets := g.argSets + 1), k, e.recv, sc, loop), k, e.args, |e.args|, sc1, loop);
      EmitExpr(g, k, e, sc, loop)
        == EmitSend(EmitBlockOf(g2, e, AfterAll(e.args, |e.args|, sc1), loop), k, e, UnitOf(g2, e), g.argSets)
  {
    hide Emit, After, AfterAll, EmitAll, EmitBlock, ArgSetOf;
  }

  lemma CallSize(e: Expr, sc: Scope, site: Site)
    requires e.Call?
    ensures Size(e, sc, site)
      == Size(e.recv, sc, site) + SizeAll(e.args, |e.args|, After(e.recv, sc), site)
        + (if e.name == DEFER_NAME then 3 else 5)
  {
    hide After, SizeAll;
  }

  lemma CallBuilt(p: Program, k: nat, pc: nat, e: Expr, sc: Scope, loop: Option<Loop>, unit: Option<nat>)
    requires e.Call?
    requires
      var site := SiteOf(p, k, loop);
      var sc1 := After(e.recv, sc);
      var q := pc + Size(e.recv, sc, site);
      && CodeAt(p, k, pc, e.recv, sc, loop) && CodeAll(p, k, q, e.args, |e.args|, sc1, loop)
      && BlockOperand(p, e.block, unit, AfterAll(e.args, |e.args|, sc1), loop)
      && At(p, k, q + SizeAll(e.args, |e.args|, sc1, site), SendInstr(e, unit))
    ensures CodeAt(p, k, pc, e, sc, loop)
  {
    hide After, AfterAll, SizeAll, Size, At, ArgSetOf, CodeAll, BlockOperand;
  }

  // ------------------------------------------------------------- statements

  lemma WriteStmts(f: Final, g: Gen, k: nat, ss: seq<Stmt>, n: nat, sc: Scope, loop: Option<Anchors>)
    requires Writable(g, k, loop) && n <= |ss|
    ensures StmtsLaid(f, g, k, ss, n, sc, loop)
    decreases ss, n
  {
    hide Wrote, CodeStmt, SizeStmt, EmitStmt, SiteIn, SiteOf, Consistent, Extends, AfterStmt;
    if n == 0 {
      WroteNothing(f, g, k, loop);
    } else {
      var site, lp, pc := SiteIn(g, k, loop), LoopIn(f.lines, loop), Pc(g, k);
      var sc1 := AfterStmts(ss, n - 1, sc);
      var g1 := EmitStmts(g, k, ss, n - 1, sc, loop);
      var h := EmitStmts(g, k, ss, n, sc, loop);
      var m1, m2 := SizeStmts(ss, n - 1, sc, site), SizeStmt(ss[n - 1], sc1, site);
      var c1, c2 := CodeStmts(f.p, k, pc, ss, n - 1, sc, lp), CodeStmt(f.p, k, pc + m1, ss[n - 1], sc1, lp);
      WriteStmts(f, g, k, ss, n - 1, sc, loop);
      Opened(f, g, g1, k, loop, m1, c1);
      WriteStmt(f, g1, k, ss[n - 1], sc1, loop);
      Next(f, g, g1, h, k, loop, m1, m2, c1, c2);
      Settle(f, g, h, k, loop, m1 + m2, SizeStmts(ss, n, sc, site), c1 && c2, CodeStmts(f.p, k, pc, ss, n, sc, lp));
    }
  }

  lemma WriteStmt(f: Final, g: Gen, k: nat, x: Stmt, sc: Scope, loop: Option<Anchors>)
    requires Writable(g, k, loop)
    ensures StmtLaid(f, g, k, x, sc, loop)
    decreases x, 3
  {
    hide StmtLaid, Writable;
    assert k < |g.sets| by { InRange(g, k, loop); }
    match x
    case While(_, _) => WriteWhile(f, g, k, x, sc, loop);
    case Def(_, _, _) => WriteDef(f, g, k, x, sc, loop);
    case Continue => WriteJumpOut(f, g, k, x, sc, loop);
    case Break => WriteJumpOut(f, g, k, x, sc, loop);
    case _ => WriteValue(f, g, k, x, sc, loop);
  }

  lemma WriteValue(f: Final, g: Gen, k: nat, x: Stmt, sc: Scope, loop: Option<Anchors>)
    requires Writable(g, k, loop) && (x.ExprStmt? || x.Return?)
    ensures StmtLaid(f, g, k, x, sc, loop)
    decreases x, 2
  {
    hide Wrote, At, SiteIn, SiteOf, Consistent, Emit, Extends, EmitExpr, Size, CodeAt;
    var site, lp, pc := SiteIn(g, k, loop), LoopIn(f.lines, loop), Pc(g, k);
    var g1 := EmitExpr(g, k, x.e, sc, loop);
    var h := EmitStmt(g, k, x, sc, loop);
    var m, c := Size(x.e, sc, site), CodeAt(f.p, k, pc, x.e, sc, lp);
    WriteExpr(f, g, k, x.e, sc, loop);
    Opened(f, g, g1, k, loop, m, c);
    if x.Return? {
      Wrote1(f, g1, k, loop, LEAVE, []);
      Next(f, g, g1, h, k, loop, m, 1, c, At(f.p, k, pc + m, ILeave));
      Settle(f, g, h, k, loop, m + 1, m + 1, c && At(f.p, k, pc + m, ILeave), CodeStmt(f.p, k, pc, x, sc, lp));
    } else if x.isStmt {
      Wrote1(f, g1, k, loop, POP, []);
      Next(f, g, g1, h, k, loop, m, 1, c, At(f.p, k, pc + m, IPop));
      Settle(f, g, h, k, loop, m + 1, m + 1, c && At(f.p, k, pc + m, IPop), CodeStmt(f.p, k, pc, x, sc, lp));
    }
  }

  /** break and continue. */
  lemma WriteJumpOut(f: Final, g: Gen, k: nat, x: Stmt, sc: Scope, loop: Option<Anchors>)
    requires Writable(g, k, loop) && (x.Break? || x.Continue?)
    ensures StmtLaid(f, g, k, x, sc, loop)
  {
    hide Wrote, At, Consistent, Emit, EmitTo, Extends;
    var lp, pc := LoopIn(f.lines, loop), Pc(g, k);
    var out, i := if x.Break? then BREAK else LEAVE, if x.Break? then IBreak else ILeave;
    var h := EmitStmt(g, k, x, sc, loop);
    if loop.None? {
      Wrote1(f, g, k, loop, out, []);
      Settle(f, g, h, k, loop, 1, 1, At(f.p, k, pc, i), CodeStmt(f.p, k, pc, x, sc, lp));
    } else {
      var a := if x.Break? then loop.value.exit else loop.value.next;
      var g1, m, c := g, 0, true;
      WroteNothing(f, g, k, loop);
      if IsBlockSet(g, k) {
        g1, m, c := Emit(g, k, out, []), 1, At(f.p, k, pc, i);
        Wrote1(f, g, k, loop, out, []);
      }
      Opened(f, g, g1, k, loop, m, c);
      StillUndefined(f, g, g1, k, loop, m, c, a);
      WroteTo(f, g1, k, loop, JUMP, a);
      var d := At(f.p, k, pc + m, IJump(LineOf(f.lines, a)));
      Next(f, g, g1, h, k, loop, m, 2, c, d);
      Settle(f, g, h, k, loop, m + 2, m + 2, c && d, CodeStmt(f.p, k, pc, x, sc, lp));
    }
  }

  // ------------------------------------------------------------------ loops

  /** The loop up to its condition. */
  function EmitHead(g: Gen, k: nat, x: Stmt, sc: Scope): Gen
    requires x.While?
  {
    var next, exit := |g.lines|, |g.lines| + 1;
    var g1 := EmitTo(NewAnchor(NewAnchor(g, None), None), k, JUMP, next);
    var g2 := EmitStmts(NewAnchor(g1, Some(Here(g1, k))), k, x.body, |x.body|, sc, Some(Anchors(exit, next)));
    DefineAnchor(g2, next, Here(g2, k))
  }

  /** Two anchors without a line. */
  lemma WroteAnchors(f: Final, g: Gen, k: nat, loop: Option<Anchors>)
    requires Writable(g, k, loop)
    ensures
      var h := NewAnchor(NewAnchor(g, None), None);
      Wrote(f, g, h, k, loop, 0, true) && Writable(h, k, loop) && SiteIn(h, k, loop) == SiteIn(g, k, loop)
  {
    hide Wrote, SiteIn, Consistent;
    var g1 := NewAnchor(g, None);
    WroteAnchor(f, g, k, loop, None);
    WroteAnchor(f, g1, k, loop, None);
    Next(f, g, g1, NewAnchor(g1, None), k, loop, 0, 0, true, true);
  }

  ghost predicate HeadCode(f: Final, k: nat, pc: nat, x: Stmt, sc: Scope, next: nat, inner: Option<Anchors>, m: nat)
    requires x.While?
  {
    && At(f.p, k, pc, IJump(LineOf(f.lines, next))) && LineOf(f.lines, next + 2) == pc + 2
    && CodeStmts(f.p, k, pc + 2, x.body, |x.body|, sc, LoopIn(f.lines, inner)) && LineOf(f.lines, next) == pc + 2 + m
  }

  lemma WriteHead(f: Final, g: Gen, k: nat, x: Stmt, sc: Scope, loop: Option<Anchors>)
    requires Writable(g, k, loop) && x.While?
    ensures
      var h, next := EmitHead(g, k, x, sc), |g.lines|;
      var inner := Some(Anchors(next + 1, next));
      var m := SizeStmts(x.body, |x.body|, sc, SiteIn(g, k, inner));
      && Wrote(f, g, h, k, loop, 2 + m, HeadCode(f, k, Pc(g, k), x, sc, next, inner, m))
      && Same(g, h, k) && |h.lines| > next + 2 && h.lines[next + 1].None?
    decreases x, 0
  {
    hide Wrote, At, SiteOf, Consistent, EmitTo, Extends, EmitStmts, SizeStmts, CodeStmts;
    var next, pc := |g.lines|, Pc(g, k);
    var inner := Some(Anchors(next + 1, next));
    var m := SizeStmts(x.body, |x.body|, sc, SiteIn(g, k, inner));
    var g0 := NewAnchor(NewAnchor(g, None), None);
    var g1 := EmitTo(g0, k, JUMP, next);
    var gs := NewAnchor(g1, Some(Here(g1, k)));
    var g2 := EmitStmts(gs, k, x.body, |x.body|, sc, inner);
    var c1, c2 := At(f.p, k, pc, IJump(LineOf(f.lines, next))), LineOf(f.lines, next + 2) == pc + 2;
    var c3 := CodeStmts(f.p, k, pc + 2, x.body, |x.body|, sc, LoopIn(f.lines, inner));
    WroteAnchors(f, g, k, loop);
    WroteTo(f, g0, k, loop, JUMP, next);
    Opened(f, g0, g1, k, loop, 2, c1);
    EmitToLines(g0, k, JUMP, next);
    WroteAnchor(f, g1, k, loop, Some(Here(g1, k)));
    Next(f, g0, g1, gs, k, loop, 2, 0, c1, c2);
    WriteStmts(f, gs, k, x.body, |x.body|, sc, inner);
    Reloop(f, gs, g2, k, inner, loop, m, c3);
    Next(f, g0, gs, g2, k, loop, 2, m, c1 && c2, c3);
    StillUndefined(f, gs, g2, k, loop, m, c3, next);
    StillUndefined(f, gs, g2, k, loop, m, c3, next + 1);
    StillUndefined(f, gs, g2, k, loop, m, c3, next + 2);
    Next(f, g, g0, g2, k, loop, 0, 2 + m, true, (c1 && c2) && c3);
    WroteLine(f, g, g2, k, loop, 2 + m, (c1 && c2) && c3, next, Here(g2, k));
    Settle(f, g, EmitHead(g, k, x, sc), k, loop, 2 + m, 2 + m,
           ((c1 && c2) && c3) && LineOf(f.lines, next) == pc + 2 + m, HeadCode(f, k, pc, x, sc, next, inner, m));
  }

  lemma EmitToLines(g: Gen, k: nat, op: int, a: nat)
    ensures EmitTo(g, k, op, a).lines == g.lines
  {
  }

  lemma WriteWhile(f: Final, g: Gen, k: nat, x: Stmt, sc: Scope, loop: Option<Anchors>)
    requires Writable(g, k, loop) && x.While?
    ensures StmtLaid(f, g, k, x, sc, loop)
    decreases x, 2
  {
    hide Wrote, At, Consistent, EmitTo, Extends, EmitHead, HeadCode, EmitExpr, Size, CodeAt, SizeStmts, AfterStmts;
    hide SizeStmt, CodeStmt, EmitStmt;
    var next, pc, site, lp := |g.lines|, Pc(g, k), SiteIn(g, k, loop), LoopIn(f.lines, loop);
    var inner := Some(Anchors(next + 1, next));
    var m := SizeStmts(x.body, |x.body|, sc, site.(inLoop := true));
    var sc1 := AfterStmts(x.body, |x.body|, sc);
    var n := Size(x.cond, sc1, site);
    var g3 := EmitHead(g, k, x, sc);
    var g4 := EmitExpr(g3, k, x.cond, sc1, loop);
    var g5 := EmitTo(g4, k, BRANCH_IF, next + 2);
    var c1, c2 := HeadCode(f, k, pc, x, sc, next, inner, m), CodeAt(f.p, k, pc + 2 + m, x.cond, sc1, lp);
    var c3 := At(f.p, k, pc + 2 + m + n, IBranchIf(LineOf(f.lines, next + 2)));
    WriteHead(f, g, k, x, sc, loop);
    Opened(f, g, g3, k, loop, 2 + m, c1);
    WriteExpr(f, g3, k, x.cond, sc1, loop);
    Next(f, g, g3, g4, k, loop, 2 + m, n, c1, c2);
    StillUndefined(f, g3, g4, k, loop, n, c2, next + 2);
    StillUndefined(f, g3, g4, k, loop, n, c2, next + 1);
    WroteTo(f, g4, k, loop, BRANCH_IF, next + 2);
    StillUndefined(f, g4, g5, k, loop, 2, c3, next + 1);
    Next(f, g, g4, g5, k, loop, 2 + m + n, 2, c1 && c2, c3);
    WroteLine(f, g, g5, k, loop, 4 + m + n, (c1 && c2) && c3, next + 1, Here(g5, k));
    WhileForm(g, k, x, sc, loop);
    WhileSize(x, sc, site);
    if SiteOf(f.p, k, lp) == site && ((c1 && c2) && c3) && LineOf(f.lines, next + 1) == Here(g5, k) {
      WhileBuilt(f, k, pc, x, sc, lp, next, inner, m);
    }
    Settle(f, g, DefineAnchor(g5, next + 1, Here(g5, k)), k, loop, 4 + m + n, SizeStmt(x, sc, site),
           ((c1 && c2) && c3) && LineOf(f.lines, next + 1) == Here(g5, k), CodeStmt(f.p, k, pc, x, sc, lp));
  }

  lemma WhileForm(g: Gen, k: nat, x: Stmt, sc: Scope, loop: Option<Anchors>)
    requires x.While?
    ensures
      var g4 := EmitExpr(EmitHead(g, k, x, sc), k, x.cond, AfterStmts(x.body, |x.body|, sc), loop);
      var g5 := EmitTo(g4, k, BRANCH_IF, |g.lines| + 2);
      EmitStmt(g, k, x, sc, loop) == DefineAnchor(g5, |g.lines| + 1, Here(g5, k))
  {
    hide EmitTo, AfterStmts, EmitStmts, EmitExpr;
  }

  lemma WhileSize(x: Stmt, sc: Scope, site: Site)
    requires x.While?
    ensures SizeStmt(x, sc, site) ==
            4 + SizeStmts(x.body, |x.body|, sc, site.(inLoop := true))
              + Size(x.cond, AfterStmts(x.body, |x.body|, sc), site)
  {
    hide SizeStmts, Size, AfterStmts;
  }

  lemma WhileBuilt(f: Final, k: nat, pc: nat, x: Stmt, sc: Scope, loop: Option<Loop>, next: nat, inner: Option<Anchors>,
                   m: nat)
    requires x.While? && inner == Some(Anchors(next + 1, next)) && HeadCode(f, k, pc, x, sc, next, inner, m)
    requires
      var site := SiteOf(f.p, k, loop);
      var sc1 := AfterStmts(x.body, |x.body|, sc);
      var n := Size(x.cond, sc1, site);
      && m == SizeStmts(x.body, |x.body|, sc, site.(inLoop := true))
      && CodeAt(f.p, k, pc + 2 + m, x.cond, sc1, loop)
      && At(f.p, k, pc + 2 + m + n, IBranchIf(LineOf(f.lines, next + 2)))
      && LineOf(f.lines, next + 1) == pc + 4 + m + n
    ensures CodeStmt(f.p, k, pc, x, sc, loop)
  {
    hide SizeStmts, Size, AfterStmts, CodeStmts, CodeAt, At;
  }

  // ---------------------------------------------------------------- methods

  lemma FindInPrefix(a: seq<Name>, b: seq<Name>, x: Name)
    requires a <= b && x in a
    ensures x in b && Find(b, x) == Find(a, x)
    decreases a
  {
    if a[0] != x {
      assert a[1..] <= b[1..] && x in a[1..];
      FindInPrefix(a[1..], b[1..], x);
    }
  }

  lemma WriteOptional(f: Final, g: Gen, k: nat, x: Name, sc: Scope, i: nat)
    requires Writable(g, k, None) && Resolve(sc, x) == Some(Address(0, i))
    ensures
      var h := EmitOptional(g, k, x, sc);
      Wrote(f, g, h, k, None, 3, At(f.p, k, Pc(g, k), ISetOptional(0, i))) && Same(g, h, k)
  {
    hide Wrote, Consistent, Emit, At, Resolve;
    Wrote1(f, g, k, None, SET_OPTIONAL, [Num(0), Num(i)]);
  }

  lemma TopLevel(sc: Scope, x: Name)
    requires sc.outer == []
    ensures
      var a := Resolve(Declare(sc, x), x);
      && a.Some? && a.value.depth == 0 && x in Declare(sc, x).cur && Declare(sc, x).outer == []
  {
  }

  ghost predicate ParamLaid(f: Final, g: Gen, k: nat, q: Param, sc: Scope)
    requires k < |g.sets|
  {
    var h := EmitParam(g, k, q, sc);
    && Wrote(f, g, h, k, None, SizeParam(q, sc, SiteIn(g, k, None)),
             CodeParam(f.p, k, Pc(g, k), q, ParamIndex(q, sc), sc))
    && Same(g, h, k)
  }

  lemma WriteParam(f: Final, g: Gen, k: nat, q: Param, sc: Scope)
    requires Writable(g, k, None) && sc.outer == []
    ensures ParamLaid(f, g, k, q, sc)
    decreases q, 2
  {
    hide Wrote, Consistent, Extends, Emit, At, SiteIn, CodeAt, Size, After, EmitOptional, EmitExpr, Resolve, Declare;
    match q
    case DefaultParam(_, _) => WriteDefault(f, g, k, q, sc);
    case KeyDefaultParam(_, _) => WriteKeyDefault(f, g, k, q, sc);
    case RestParam(x) =>
      TopLevel(sc, x);
      var g1 := Emit(g, k, NEW_ARRAY, [Num(0)]);
      Wrote1(f, g, k, None, NEW_ARRAY, [Num(0)]);
      Opened(f, g, g1, k, None, 2, At(f.p, k, Pc(g, k), INewArray(0)));
      WriteOptional(f, g1, k, x, Declare(sc, x), ParamIndex(q, sc));
      Next(f, g, g1, EmitParam(g, k, q, sc), k, None, 2, 3, At(f.p, k, Pc(g, k), INewArray(0)),
           At(f.p, k, Pc(g, k) + 2, ISetOptional(0, ParamIndex(q, sc))));
    case _ => WroteNothing(f, g, k, None);
  }

  lemma WriteDefault(f: Final, g: Gen, k: nat, q: Param, sc: Scope)
    requires Writable(g, k, None) && sc.outer == [] && q.DefaultParam?
    ensures ParamLaid(f, g, k, q, sc)
    decreases q, 1
  {
    hide Wrote, Consistent, Extends, Emit, At, SiteIn, SiteOf, CodeAt, Size, After, EmitOptional, EmitExpr, Resolve;
    hide Declare;
    var d, lp, pc := q.default, LoopIn(f.lines, None), Pc(g, k);
    var g1, m := EmitExpr(g, k, d, sc, None), Size(d, sc, SiteIn(g, k, None));
    var c := CodeAt(f.p, k, pc, d, sc, None);
    WriteExpr(f, g, k, d, sc, None);
    AfterGrows(d, sc);
    Opened(f, g, g1, k, None, m, c);
    var h, i := EmitParam(g, k, q, sc), ParamIndex(q, sc);
    if q.name == BLANK {
      Settle(f, g, h, k, None, m, m, c, CodeParam(f.p, k, pc, q, i, sc));
    } else {
      TopLevel(After(d, sc), q.name);
      WriteOptional(f, g1, k, q.name, AfterParam(q, sc), i);
      var c2 := At(f.p, k, pc + m, ISetOptional(0, i));
      Next(f, g, g1, h, k, None, m, 3, c, c2);
      Settle(f, g, h, k, None, m + 3, m + 3, c && c2, CodeParam(f.p, k, pc, q, i, sc));
    }
  }

  lemma WriteKeyDefault(f: Final, g: Gen, k: nat, q: Param, sc: Scope)
    requires Writable(g, k, None) && sc.outer == [] && q.KeyDefaultParam?
    ensures ParamLaid(f, g, k, q, sc)
    decreases q, 1
  {
    hide Wrote, Consistent, Extends, Emit, At, SiteIn, SiteOf, CodeAt, Size, After, EmitOptional, EmitExpr, Resolve;
    hide Declare;
    var d, lp, pc, sc1 := q.default, LoopIn(f.lines, None), Pc(g, k), Declare(sc, q.name);
    var g1, m := EmitExpr(g, k, d, sc1, None), Size(d, sc1, SiteIn(g, k, None));
    var c := CodeAt(f.p, k, pc, d, sc1, None);
    WriteExpr(f, g, k, d, sc1, None);
    TopLevel(sc, q.name);
    AfterGrows(d, sc1);
    KeyIndex(q, sc);
    Opened(f, g, g1, k, None, m, c);
    var h, i := EmitParam(g, k, q, sc), ParamIndex(q, sc);
    WriteOptional(f, g1, k, q.name, sc1, i);
    var c2 := At(f.p, k, pc + m, ISetOptional(0, i));
    Next(f, g, g1, h, k, None, m, 3, c, c2);
    Settle(f, g, h, k, None, m + 3, m + 3, c && c2, CodeParam(f.p, k, pc, q, i, sc));
  }

  /** The default of a keyword parameter may declare more names; the parameter's index stays. */
  lemma KeyIndex(q: Param, sc: Scope)
    requires sc.outer == [] && q.KeyDefaultParam?
    ensures Resolve(Declare(sc, q.name), q.name) == Some(Address(0, ParamIndex(q, sc)))
  {
    hide After;
    var sc1 := Declare(sc, q.name);
    AfterGrows(q.default, sc1);
    FindInPrefix(sc1.cur, After(q.default, sc1).cur, q.name);
  }

  lemma WroteArg(f: Final, g: Gen, k: nat, i: nat, q: Param)
    requires Writable(g, k, None)
    ensures Wrote(f, g, SetArg(g, k, i, q), k, None, 0, true)
  {
    var h := SetArg(g, k, i, q);
    forall j | 0 <= j < |g.sets| ensures SetGrown(g, h, k, j) { }
    forall r | r in h.refs ensures RefOk(h, r) { assert RefOk(g, r); }
    if Extends(f, h) { ExtendsBefore(f, g, h, k); }
  }

  /** The argument vectors when the first n parameters have been looked at. */
  function ArgsUpTo(ps: seq<Param>, n: nat): ArgSet
    requires n <= |ps|
  {
    ArgSet(seq(|ps|, i requires 0 <= i < |ps| => if i < n then ps[i].name else BLANK),
           seq(|ps|, i requires 0 <= i < |ps| => if i < n then ParamKindOf(ps[i]) else NormalArg))
  }

  lemma WriteParams(f: Final, g: Gen, k: nat, ps: seq<Param>, n: nat)
    requires Writable(g, k, None) && Pc(g, k) == 0 && n <= |ps| && g.sets[k].params == ArgsUpTo(ps, 0)
    requires !IsBlockSet(g, k)
    ensures
      var h := EmitParams(g, k, ps, n);
      && Wrote(f, g, h, k, None, SizeParams(ps, n, EMPTY, SiteIn(g, k, None)), CodeParams(f.p, k, ps, n))
      && k < |h.sets| && h.sets[k].params == ArgsUpTo(ps, n)
    decreases ps, n
  {
    hide Wrote, Consistent, Extends, SiteOf, EmitParam, SizeParam, CodeParam, AfterParam, ParamKindOf, ParamIndex;
    if n == 0 {
      WroteNothing(f, g, k, None);
    } else {
      var sc, site := AfterParams(ps, n - 1, EMPTY), SiteIn(g, k, None);
      var g1 := EmitParams(g, k, ps, n - 1);
      var g2 := EmitParam(g1, k, ps[n - 1], sc);
      var h := EmitParams(g, k, ps, n);
      var m1, m2 := SizeParams(ps, n - 1, EMPTY, site), SizeParam(ps[n - 1], sc, site);
      var c1, c2 := CodeParams(f.p, k, ps, n - 1), CodeParam(f.p, k, m1, ps[n - 1], ParamIndex(ps[n - 1], sc), sc);
      AfterParamsGrows(ps, 0, n - 1, EMPTY);
      WriteParams(f, g, k, ps, n - 1);
      Opened(f, g, g1, k, None, m1, c1);
      WriteParam(f, g1, k, ps[n - 1], sc);
      Next(f, g, g1, g2, k, None, m1, m2, c1, c2);
      WroteArg(f, g2, k, n - 1, ps[n - 1]);
      Next(f, g, g2, h, k, None, m1 + m2, 0, c1 && c2, true);
      Settle(f, g, h, k, None, m1 + m2, SizeParams(ps, n, EMPTY, site), (c1 && c2) && true, CodeParams(f.p, k, ps, n));
    }
  }

  function EmitMethodBody(g: Gen, u: nat, x: Stmt): Gen
    requires x.Def?
  {
    if x.body == [] then Emit(g, u, PUT_NULL, [])
    else EmitStmts(g, u, x.body, |x.body|, AfterParams(x.params, |x.params|, EMPTY), None)
  }

  function SizeMethodBody(x: Stmt): nat
    requires x.Def?
  {
    if x.body == [] then 1
      else SizeStmts(x.body, |x.body|, AfterParams(x.params, |x.params|, EMPTY), Site(false, false))
  }

  ghost predicate CodeMethodBody(p: Program, u: nat, pc: nat, x: Stmt)
    requires x.Def?
  {
    if x.body == [] then At(p, u, pc, IPutNull)
    else CodeStmts(p, u, pc, x.body, |x.body|, AfterParams(x.params, |x.params|, EMPTY), None)
  }

  lemma WriteMethodBody(f: Final, g: Gen, u: nat, x: Stmt)
    requires Writable(g, u, None) && x.Def? && !IsBlockSet(g, u)
    ensures
      var h := EmitMethodBody(g, u, x);
      Wrote(f, g, h, u, None, SizeMethodBody(x), CodeMethodBody(f.p, u, Pc(g, u), x)) && Same(g, h, u)
    decreases x, 0
  {
    hide Wrote, Consistent, Emit, At, EmitStmts, SizeStmts, CodeStmts, AfterParams;
    if x.body == [] {
      Wrote1(f, g, u, None, PUT_NULL, []);
    } else {
      WriteStmts(f, g, u, x.body, |x.body|, AfterParams(x.params, |x.params|, EMPTY), None);
    }
  }

  lemma WriteMethod(f: Final, g: Gen, k: nat, x: Stmt, loop: Option<Anchors>)
    requires Writable(g, k, loop) && x.Def?
    ensures UnitMade(f, g, EmitMethod(g, x), k, loop, FromMethod(x.params, x.body))
    decreases x, 1
  {
    hide Extends, Grown, Consistent, At, UnitAt, EmitParams, EmitStmts, SizeParams, SizeMethodBody, CodeParams;
    hide CodeMethodBody, Emit;
    var u, n := |g.sets|, |x.params|;
    var origin := FromMethod(x.params, x.body);
    StartUnit(g, origin, BlankArgs(n), None);
    var g1 := NewSet(g, origin, BlankArgs(n));
    assert BlankArgs(n) == ArgsUpTo(x.params, 0);
    var g2 := EmitParams(g1, u, x.params, n);
    var g3 := EmitMethodBody(g2, u, x);
    var q := SizeParams(x.params, n, EMPTY, SiteIn(g1, u, None));
    var m, c1, c2 := SizeMethodBody(x), CodeParams(f.p, u, x.params, n), CodeMethodBody(f.p, u, q, x);
    WriteParams(f, g1, u, x.params, n);
    Opened(f, g1, g2, u, None, q, c1);
    WriteMethodBody(f, g2, u, x);
    Next(f, g1, g2, g3, u, None, q, m, c1, c2);
    EndUnit(f, g1, g3, u, q + m, c1 && c2, None);
    NestUnit(f, g, g1, g3, u, q + m, c1 && c2, k, loop, None);
    assert ArgsUpTo(x.params, n) == ParamSetOf(x.params);
    var h := EmitMethod(g, x);
    if Extends(f, h) {
      SiteSame(f, g1, u, None);
      MethodAt(f.p, u, x, q, m);
      assert UnitDone(f, u);
    }
  }

  lemma MethodAt(p: Program, u: nat, x: Stmt, q: nat, m: nat)
    requires x.Def? && u < |p.units| && u < |p.sets| && p.units[u] == MethodSource(x.params, x.body)
    requires CodeParams(p, u, x.params, |x.params|) && q == SizeParams(x.params, |x.params|, EMPTY, SiteOf(p, u, None))
    requires CodeMethodBody(p, u, q, x) && m == SizeMethodBody(x) && p.sets[u].params == ParamSetOf(x.params)
    requires At(p, u, q + m, ILeave) && |p.sets[u].code| == q + m + 1
    ensures UnitAt(p, u)
  {
    hide CodeParams, SizeParams, CodeStmts, SizeStmts, At, AfterParams, ParamSetOf;
  }

  lemma WriteDef(f: Final, g: Gen, k: nat, x: Stmt, sc: Scope, loop: Option<Anchors>)
    requires Writable(g, k, loop) && x.Def?
    ensures StmtLaid(f, g, k, x, sc, loop)
    decreases x, 2
  {
    hide Wrote, At, Consistent, Extends, Emit, EmitMethod, SiteIn, SiteOf;
    var u, pc, n := |g.sets|, Pc(g, k), |x.params|;
    var g1 := EmitMethod(g, x);
    var g2 := Emit(g1, k, PUT_SELF, []);
    var h := EmitStmt(g, k, x, sc, loop);
    var c1 := u < |f.p.units| && f.p.units[u] == SourceOf(FromMethod(x.params, x.body), f.lines);
    var c2, c3 := At(f.p, k, pc, IPutSelf), At(f.p, k, pc + 1, IDefMethod(n, x.name, Some(u)));
    WriteMethod(f, g, k, x, loop);
    Opened(f, g, g1, k, loop, 0, c1);
    Wrote1(f, g1, k, loop, PUT_SELF, []);
    Next(f, g, g1, g2, k, loop, 0, 1, c1, c2);
    Wrote1(f, g2, k, loop, DEF_METHOD, [Num(n), Item(NameConst(x.name)), Item(SetConst(u))]);
    Next(f, g, g2, h, k, loop, 1, 4, c1 && c2, c3);
    Settle(f, g, h, k, loop, 5, 5, (c1 && c2) && c3, CodeStmt(f.p, k, pc, x, sc, LoopIn(f.lines, loop)));
  }

  // ---------------------------------------------------------------- program

  lemma ProgramConsistent(body: seq<Stmt>)
    requires body != []
    ensures Consistent(EmitProgram(NOTHING, body)) && |EmitProgram(NOTHING, body).sets| > 0
  {
    hide Extends, Grown, At, UnitAt, EmitStmts, SizeStmts, CodeStmts, Emit, SiteIn;
    var f := Final(Program([], []), []);
    var n, origin, params := |body|, FromMain(body), ArgSet([], []);
    StartUnit(NOTHING, origin, params, None);
    var g1 := NewSet(NOTHING, origin, params);
    WriteStmts(f, g1, 0, body, n, EMPTY, None);
    EndUnit(f, g1, EmitStmts(g1, 0, body, n, EMPTY, None), 0, SizeStmts(body, n, EMPTY, SiteIn(g1, 0, None)),
            CodeStmts(f.p, 0, 0, body, n, EMPTY, None), None);
  }

  /** Whatever program extends what was generated, all of it is laid out as compiled. */
  lemma WriteProgram(f: Final, body: seq<Stmt>)
    requires body != [] && Extends(f, EmitProgram(NOTHING, body))
    ensures UnitsDone(f, 0, |EmitProgram(NOTHING, body).sets|)
    ensures |f.p.units| > 0 && f.p.units[0] == MainSource(body)
  {
    hide Extends, Grown, At, UnitAt, EmitStmts, SizeStmts, CodeStmts, Emit, SiteIn;
    var n, origin, params := |body|, FromMain(body), ArgSet([], []);
    StartUnit(NOTHING, origin, params, None);
    var g1 := NewSet(NOTHING, origin, params);
    var g2 := EmitStmts(g1, 0, body, n, EMPTY, None);
    WriteStmts(f, g1, 0, body, n, EMPTY, None);
    var m, c := SizeStmts(body, n, EMPTY, SiteIn(g1, 0, None)), CodeStmts(f.p, 0, 0, body, n, EMPTY, None);
    EndUnit(f, g1, g2, 0, m, c, None);
    SiteSame(f, g1, 0, None);
    MainAt(f.p, m);
    var h := EmitProgram(NOTHING, body);
    assert h == Finish(g2, 0);
    Lengths(f, h);
    assert UnitDone(f, 0);
  }

  lemma Lengths(f: Final, g: Gen)
    requires Consistent(g) && Extends(f, g)
    ensures |g.sets| <= |f.p.units| && |g.sets| <= |f.p.sets|
  {
  }

  lemma MainAt(p: Program, m: nat)
    requires |p.units| > 0 && |p.sets| > 0 && p.units[0].MainSource?
    requires
      var body := p.units[0].body;
      && CodeStmts(p, 0, 0, body, |body|, EMPTY, None) && m == SizeStmts(body, |body|, EMPTY, SiteOf(p, 0, None))
      && At(p, 0, m, ILeave) && |p.sets[0].code| == m + 1
    ensures UnitAt(p, 0)
  {
    hide CodeStmts, SizeStmts, At;
  }
}
