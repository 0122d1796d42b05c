/**
 Every compiled instruction set is aligned: walking it by operand counts lands
 exactly on its end, every branch target is a boundary of the same set or its
 end, and every constant index is in range.
 */
module Alignment {
  import opened Wrappers
  import opened Ast
  import opened Bytecode
  import opened Layout
  import opened WellFormed
  import opened Relation
  import opened Boundaries
  import opened Shapes

  ghost predicate Covers(code: seq<int>, targets: int -> bool) {
    forall q: nat {:trigger Boundary(code, q)} :: Boundary(code, q) ==> targets(q)
  }

  /** Where compiled code of unit k may stand: at a boundary, with reachable targets allowed. */
  ghost predicate Standing(p: Program, k: nat, pc: nat, nest: nat, jumps: bool, loop: Option<Loop>,
                           targets: int -> bool)
  {
    && k < |p.sets| && Boundary(p.sets[k].code, pc) && Covers(p.sets[k].code, targets)
    && (nest == 0 ==> !InBlock(p, k))
    && (jumps ==> nest == 0 && loop.Some? && targets(loop.value.exit) && targets(loop.value.next))
  }

  ghost predicate Covered(p: Program, k: nat, a: nat, b: nat, targets: int -> bool) {
    k < |p.sets| && Span(p.sets[k], a, b, targets) && Boundary(p.sets[k].code, b)
  }

  /** One instruction. */
  lemma Walk1(p: Program, k: nat, pc: nat, i: Instr)
    requires At(p, k, pc, i) && !i.IMalformed? && !i.IOther? && Boundary(p.sets[k].code, pc)
    ensures Boundary(p.sets[k].code, pc + Len(i))
  {
    hide Decode;
    LenOfDecoded(p.sets[k], pc);
    assert IsOpcode(p.sets[k].code[pc]) by { DecodedOpcode(p.sets[k], pc); }
    assert Reaches(p.sets[k].code, pc + Len(i), pc + Len(i));
    ReachesTrans(p.sets[k].code, 0, pc, pc + Len(i));
  }

  lemma DecodedOpcode(ins: InstructionSet, pc: nat)
    requires pc < |ins.code| && !Decode(ins, pc).IMalformed?
    ensures IsOpcode(ins.code[pc])
  {
  }

  lemma Cover1(p: Program, k: nat, pc: nat, i: Instr, targets: int -> bool)
    requires At(p, k, pc, i) && !i.IMalformed? && !i.IOther? && TargetIn(i, targets) && Boundary(p.sets[k].code, pc)
    ensures Covered(p, k, pc, pc + Len(i), targets)
  {
    hide Decode;
    LenOfDecoded(p.sets[k], pc);
    DecodedOpcode(p.sets[k], pc);
    assert Span(p.sets[k], pc + Len(i), pc + Len(i), targets);
    Walk1(p, k, pc, i);
  }

  lemma Join(p: Program, k: nat, a: nat, b: nat, c: nat, targets: int -> bool)
    requires Covered(p, k, a, b, targets) && Covered(p, k, b, c, targets)
    ensures Covered(p, k, a, c, targets)
  {
    hide Decode;
    SpanTrans(p.sets[k], a, b, c, targets);
  }

  lemma Nothing(p: Program, k: nat, pc: nat, targets: int -> bool)
    requires k < |p.sets| && Boundary(p.sets[k].code, pc)
    ensures Covered(p, k, pc, pc, targets)
  {
  }

  // ------------------------------------------------------------ expressions

  lemma ExprCovered(p: Program, k: nat, pc: nat, e: Expr, sc: Scope, loop: Option<Loop>, nest: nat, jumps: bool,
                    ts: int -> bool)
    requires CodeAt(p, k, pc, e, sc, loop) && WfExpr(e, nest, jumps) && Standing(p, k, pc, nest, jumps, loop, ts)
    ensures Covered(p, k, pc, pc + Size(e, sc, SiteOf(p, k, loop)), ts)
    decreases e, 1
  {
    hide Covered, CodeAt, Size, After, WfExpr, Standing;
    match e
    case ArrayLit(_) => ArrayCovered(p, k, pc, e, sc, loop, nest, jumps, ts);
    case Ident(_) => IdentCovered(p, k, pc, e, sc, loop, nest, jumps, ts);
    case Assign(_, _) => AssignCovered(p, k, pc, e, sc, loop, nest, jumps, ts);
    case Logic(_, _, _) => LogicCovered(p, k, pc, e, sc, loop, nest, jumps, ts);
    case Infix(_, _, _) => InfixCovered(p, k, pc, e, sc, loop, nest, jumps, ts);
    case Not(_) => NotCovered(p, k, pc, e, sc, loop, nest, jumps, ts);
    case Minus(_) => MinusCovered(p, k, pc, e, sc, loop, nest, jumps, ts);
    case Plus(_) => SameCovered(p, k, pc, e, e.arg, sc, loop, nest, jumps, ts);
    case If(_, _, _) => IfCovered(p, k, pc, e, sc, loop, nest, jumps, ts);
    case Yield(_) => YieldCovered(p, k, pc, e, sc, loop, nest, jumps, ts);
    case Pair(_, v) => SameCovered(p, k, pc, e, v, sc, loop, nest, jumps, ts);
    case Call(_, _, _, _) => CallCovered(p, k, pc, e, sc, loop, nest, jumps, ts);
    case _ => LeafCovered(p, k, pc, e, sc, loop, nest, jumps, ts);
  }

  lemma LeafCovered(p: Program, k: nat, pc: nat, e: Expr, sc: Scope, loop: Option<Loop>, nest: nat, jumps: bool,
                    ts: int -> bool)
    requires e.IntLit? || e.StrLit? || e.BoolLit? || e.NilLit? || e.SelfRef? || e.BlockGiven?
    requires CodeAt(p, k, pc, e, sc, loop) && Standing(p, k, pc, nest, jumps, loop, ts)
    ensures Covered(p, k, pc, pc + Size(e, sc, SiteOf(p, k, loop)), ts)
  {
    hide Decode, At, Boundary, Covered;
    Cover1(p, k, pc, LeafInstr(e), ts);
  }

  /** An expression that compiles to the code of another. */
  lemma SameShape(p: Program, k: nat, pc: nat, e: Expr, v: Expr, sc: Scope, loop: Option<Loop>, nest: nat, jumps: bool)
    requires (e.Plus? && v == e.arg) || (e.Pair? && v == e.value)
    requires CodeAt(p, k, pc, e, sc, loop) && WfExpr(e, nest, jumps)
    ensures CodeAt(p, k, pc, v, sc, loop) && WfExpr(v, nest, false)
    ensures Size(e, sc, SiteOf(p, k, loop)) == Size(v, sc, SiteOf(p, k, loop))
  {
    hide Decode, At, CodeAll, CodeArms, CodeStmts, StoresAt, SizeAll, SizeArms, SizeStmts;
    hide SizeStores, Resolve, BlockOperand, WfAll, WfStmts, WfArm, WfBlock, After;
  }

  lemma SameCovered(p: Program, k: nat, pc: nat, e: Expr, v: Expr, sc: Scope, loop: Option<Loop>, nest: nat,
                    jumps: bool, ts: int -> bool)
    requires (e.Plus? && v == e.arg) || (e.Pair? && v == e.value)
    requires CodeAt(p, k, pc, e, sc, loop) && WfExpr(e, nest, jumps) && Standing(p, k, pc, nest, jumps, loop, ts)
    ensures Covered(p, k, pc, pc + Size(e, sc, SiteOf(p, k, loop)), ts)
    decreases e, 0
  {
    hide CodeAt, Size, WfExpr, After, Covered, Boundary, Covers;
    SameShape(p, k, pc, e, v, sc, loop, nest, jumps);
    ExprCovered(p, k, pc, v, sc, loop, nest, false, ts);
  }

  lemma NotCovered(p: Program, k: nat, pc: nat, e: Expr, sc: Scope, loop: Option<Loop>, nest: nat, jumps: bool,
                   ts: int -> bool)
    requires e.Not? && CodeAt(p, k, pc, e, sc, loop) && WfExpr(e, nest, jumps)
    requires Standing(p, k, pc, nest, jumps, loop, ts)
    ensures Covered(p, k, pc, pc + Size(e, sc, SiteOf(p, k, loop)), ts)
    decreases e, 0
  {
    hide Decode, At, Boundary, Covered, CodeAt, Size, After, WfExpr;
    NotShape(p, k, pc, e, sc, loop, nest, jumps);
    ExprCovered(p, k, pc, e.arg, sc, loop, nest, false, ts);
    Then1(p, k, pc, pc + Size(e.arg, sc, SiteOf(p, k, loop)), ISend(BANG, 0, None, None), ts);
  }

  lemma ArrayCovered(p: Program, k: nat, pc: nat, e: Expr, sc: Scope, loop: Option<Loop>, nest: nat, jumps: bool,
                     ts: int -> bool)
    requires e.ArrayLit? && CodeAt(p, k, pc, e, sc, loop) && WfExpr(e, nest, jumps)
    requires Standing(p, k, pc, nest, jumps, loop, ts)
    ensures Covered(p, k, pc, pc + Size(e, sc, SiteOf(p, k, loop)), ts)
    decreases e, 0
  {
    hide Decode, At, Boundary, Covered, CodeAll, SizeAll, WfAll;
    AllCovered(p, k, pc, e.elems, |e.elems|, sc, loop, nest, ts);
    Then1(p, k, pc, pc + SizeAll(e.elems, |e.elems|, sc, SiteOf(p, k, loop)), INewArray(|e.elems|), ts);
  }

  lemma IdentCovered(p: Program, k: nat, pc: nat, e: Expr, sc: Scope, loop: Option<Loop>, nest: nat, jumps: bool,
                     ts: int -> bool)
    requires e.Ident? && CodeAt(p, k, pc, e, sc, loop) && Standing(p, k, pc, nest, jumps, loop, ts)
    ensures Covered(p, k, pc, pc + Size(e, sc, SiteOf(p, k, loop)), ts)
  {
    hide Decode, At, Boundary, Covered, Resolve;
    if Resolve(sc, e.name).Some? {
      var a := Resolve(sc, e.name).value;
      Cover1(p, k, pc, IGetLocal(a.depth, a.index), ts);
    } else {
      Cover1(p, k, pc, IPutSelf, ts);
      Then1(p, k, pc, pc + 1, ISend(e.name, 0, None, None), ts);
    }
  }

  lemma AssignCovered(p: Program, k: nat, pc: nat, e: Expr, sc: Scope, loop: Option<Loop>, nest: nat, jumps: bool,
                      ts: int -> bool)
    requires e.Assign? && CodeAt(p, k, pc, e, sc, loop) && WfExpr(e, nest, jumps)
    requires Standing(p, k, pc, nest, jumps, loop, ts)
    ensures Covered(p, k, pc, pc + Size(e, sc, SiteOf(p, k, loop)), ts)
    decreases e, 0
  {
    hide Decode, At, Boundary, Covered, CodeAt, Size, After, WfExpr, StoresAt, SizeStores;
    AssignShape(p, k, pc, e, sc, loop);
    AssignExtent(e, sc, SiteOf(p, k, loop), nest, jumps);
    var q := pc + Size(e.value, sc, SiteOf(p, k, loop));
    ExprCovered(p, k, pc, e.value, sc, loop, nest, false, ts);
    if |e.vars| > 1 { Then1(p, k, pc, q, IExpandArray(|e.vars|), ts); }
    StoresCovered(p, k, pc, if |e.vars| > 1 then q + 2 else q, e.vars, |e.vars|, After(e.value, sc), ts);
  }

  lemma InfixCovered(p: Program, k: nat, pc: nat, e: Expr, sc: Scope, loop: Option<Loop>, nest: nat, jumps: bool,
                     ts: int -> bool)
    requires e.Infix? && CodeAt(p, k, pc, e, sc, loop) && WfExpr(e, nest, jumps)
    requires Standing(p, k, pc, nest, jumps, loop, ts)
    ensures Covered(p, k, pc, pc + Size(e, sc, SiteOf(p, k, loop)), ts)
    decreases e, 0
  {
    hide Decode, At, Boundary, Covered, CodeAt, Size, After, WfExpr;
    InfixShape(p, k, pc, e, sc, loop);
    InfixExtent(e, sc, SiteOf(p, k, loop), nest, jumps);
    var q := pc + Size(e.left, sc, SiteOf(p, k, loop));
    var r := q + Size(e.right, After(e.left, sc), SiteOf(p, k, loop));
    ExprCovered(p, k, pc, e.left, sc, loop, nest, false, ts);
    Landed(p, k, pc, q, ts);
    ExprCovered(p, k, q, e.right, After(e.left, sc), loop, nest, false, ts);
    Join(p, k, pc, q, r, ts);
    Then1(p, k, pc, r, OperatorInstr(e.op), ts);
  }

  lemma MinusCovered(p: Program, k: nat, pc: nat, e: Expr, sc: Scope, loop: Option<Loop>, nest: nat, jumps: bool,
                     ts: int -> bool)
    requires e.Minus? && CodeAt(p, k, pc, e, sc, loop) && WfExpr(e, nest, jumps)
    requires Standing(p, k, pc, nest, jumps, loop, ts)
    ensures Covered(p, k, pc, pc + Size(e, sc, SiteOf(p, k, loop)), ts)
    decreases e, 0
  {
    hide Decode, At, Boundary, Covered, CodeAt, Size, After, WfExpr;
    MinusShape(p, k, pc, e, sc, loop, nest, jumps);
    var q := pc + 2 + Size(e.arg, sc, SiteOf(p, k, loop));
    Cover1(p, k, pc, IPutInt(0), ts);
    Landed(p, k, pc, pc + 2, ts);
    ExprCovered(p, k, pc + 2, e.arg, sc, loop, nest, false, ts);
    Join(p, k, pc, pc + 2, q, ts);
    Then1(p, k, pc, q, ISend(MINUS_NAME, 1, None, None), ts);
  }

  lemma YieldCovered(p: Program, k: nat, pc: nat, e: Expr, sc: Scope, loop: Option<Loop>, nest: nat, jumps: bool,
                     ts: int -> bool)
    requires e.Yield? && CodeAt(p, k, pc, e, sc, loop) && WfExpr(e, nest, jumps)
    requires Standing(p, k, pc, nest, jumps, loop, ts)
    ensures Covered(p, k, pc, pc + Size(e, sc, SiteOf(p, k, loop)), ts)
    decreases e, 0
  {
    hide Decode, At, Boundary, Covered, CodeAt, Size, After, WfExpr, CodeAll, SizeAll, WfAll;
    YieldShape(p, k, pc, e, sc, loop, nest, jumps);
    var q := pc + 1 + SizeAll(e.args, |e.args|, sc, SiteOf(p, k, loop));
    Cover1(p, k, pc, IPutSelf, ts);
    Landed(p, k, pc, pc + 1, ts);
    AllCovered(p, k, pc + 1, e.args, |e.args|, sc, loop, nest, ts);
    Join(p, k, pc, pc + 1, q, ts);
    Then1(p, k, pc, q, IInvokeBlock(|e.args|), ts);
  }

  /** One more instruction behind covered code. */
  lemma Then1(p: Program, k: nat, a: nat, b: nat, i: Instr, ts: int -> bool)
    requires Covered(p, k, a, b, ts) && At(p, k, b, i) && !i.IMalformed? && !i.IOther? && TargetIn(i, ts)
    ensures Covered(p, k, a, b + Len(i), ts)
  {
    hide At, Span, Decode, Boundary;
    Cover1(p, k, b, i, ts);
    Join(p, k, a, b, b + Len(i), ts);
  }

  /** Behind covered code the site conditions hold again. */
  lemma Moved(p: Program, k: nat, a: nat, b: nat, nest: nat, loop: Option<Loop>, ts: int -> bool)
    requires Standing(p, k, a, nest, false, loop, ts) && Covered(p, k, a, b, ts)
    ensures Standing(p, k, b, nest, false, loop, ts)
  {
  }

  lemma AllCovered(p: Program, k: nat, pc: nat, es: seq<Expr>, n: nat, sc: Scope, loop: Option<Loop>, nest: nat,
                   ts: int -> bool)
    requires n <= |es| && CodeAll(p, k, pc, es, n, sc, loop) && WfAll(es, nest)
    requires Standing(p, k, pc, nest, false, loop, ts)
    ensures Covered(p, k, pc, pc + SizeAll(es, n, sc, SiteOf(p, k, loop)), ts)
    decreases es, n
  {
    hide Decode, At, Boundary, Covered, CodeAt, Size, After;
    if n == 0 {
      Nothing(p, k, pc, ts);
    } else {
      var q := pc + SizeAll(es, n - 1, sc, SiteOf(p, k, loop));
      AllCovered(p, k, pc, es, n - 1, sc, loop, nest, ts);
      Moved(p, k, pc, q, nest, loop, ts);
      ExprCovered(p, k, q, es[n - 1], AfterAll(es, n - 1, sc), loop, nest, false, ts);
      Join(p, k, pc, q, pc + SizeAll(es, n, sc, SiteOf(p, k, loop)), ts);
    }
  }

  lemma StoresCovered(p: Program, k: nat, pc: nat, r: nat, vars: seq<Name>, n: nat, sc: Scope, ts: int -> bool)
    requires n <= |vars| && Covered(p, k, pc, r, ts) && StoresAt(p, k, r, vars, n, sc)
    ensures Covered(p, k, pc, r + SizeStores(vars, n), ts)
    decreases n
  {
    hide Decode, At, Boundary, Covered, Declare, Resolve;
    if n > 0 {
      StoresCovered(p, k, pc, r, vars, n - 1, sc, ts);
      var q := r + SizeStores(vars, n - 1);
      if vars[n - 1] != BLANK {
        var a := Resolve(Declare(DeclareAll(sc, vars, n - 1), vars[n - 1]), vars[n - 1]).value;
        Then1(p, k, pc, q, ISetLocal(a.depth, a.index), ts);
      }
      if n - 1 != |vars| - 1 {
        Then1(p, k, pc, if vars[n - 1] != BLANK then q + 3 else q, IPop, ts);
      }
    }
  }

  lemma LogicCovered(p: Program, k: nat, pc: nat, e: Expr, sc: Scope, loop: Option<Loop>, nest: nat, jumps: bool,
                     ts: int -> bool)
    requires e.Logic? && CodeAt(p, k, pc, e, sc, loop) && WfExpr(e, nest, jumps)
    requires Standing(p, k, pc, nest, jumps, loop, ts)
    ensures Covered(p, k, pc, pc + Size(e, sc, SiteOf(p, k, loop)), ts)
    decreases e, 0
  {
    hide Decode, At, Boundary, Covered, CodeAt, Size, After, WfExpr;
    LogicShape(p, k, pc, e, sc, loop);
    LogicExtent(e, sc, SiteOf(p, k, loop), nest, jumps);
    var q := pc + Size(e.left, sc, SiteOf(p, k, loop));
    var end := pc + Size(e, sc, SiteOf(p, k, loop));
    var branch := if e.conj then IBranchUnless(end) else IBranchIf(end);
    ExprCovered(p, k, pc, e.left, sc, loop, nest, false, ts);
    Then1(p, k, pc, q, IDup, ts);
    Landed(p, k, pc, q + 1, ts);
    Walk1(p, k, q + 1, branch);
    Walk1(p, k, q + 3, IPop);
    ExprCovered(p, k, q + 4, e.right, After(e.left, sc), loop, nest, false, ts);
    Landed(p, k, q + 4, end, ts);
    Then1(p, k, pc, q + 1, branch, ts);
    Then1(p, k, pc, q + 3, IPop, ts);
    Join(p, k, pc, q + 4, end, ts);
  }

  lemma Landed(p: Program, k: nat, a: nat, b: nat, ts: int -> bool)
    requires Covered(p, k, a, b, ts)
    ensures Boundary(p.sets[k].code, b)
  {
  }

  lemma CallCovered(p: Program, k: nat, pc: nat, e: Expr, sc: Scope, loop: Option<Loop>, nest: nat, jumps: bool,
                    ts: int -> bool)
    requires e.Call? && CodeAt(p, k, pc, e, sc, loop) && WfExpr(e, nest, jumps)
    requires Standing(p, k, pc, nest, jumps, loop, ts)
    ensures Covered(p, k, pc, pc + Size(e, sc, SiteOf(p, k, loop)), ts)
    decreases e, 0
  {
    hide Decode, At, Boundary, Covered, CodeAt, Size, After, WfExpr, CodeAll, SizeAll, WfAll, AfterAll, BlockOperand;
    hide ArgSetOf;
    CallShape(p, k, pc, e, sc, loop, nest, jumps);
    var q := pc + Size(e.recv, sc, SiteOf(p, k, loop));
    var sc1 := After(e.recv, sc);
    var r := q + SizeAll(e.args, |e.args|, sc1, SiteOf(p, k, loop));
    ExprCovered(p, k, pc, e.recv, sc, loop, nest, false, ts);
    Landed(p, k, pc, q, ts);
    AllCovered(p, k, q, e.args, |e.args|, sc1, loop, nest, ts);
    Join(p, k, pc, q, r, ts);
    var unit :| BlockOperand(p, e.block, unit, AfterAll(e.args, |e.args|, sc1), loop)
                && At(p, k, r, ISend(e.name, |e.args|, unit, Some(ArgSetOf(e.args))));
    Then1(p, k, pc, r, ISend(e.name, |e.args|, unit, Some(ArgSetOf(e.args))), ts);
  }

  /** The arms, and the else part behind them, whatever the arms' end is. */
  lemma IfCovered(p: Program, k: nat, pc: nat, e: Expr, sc: Scope, loop: Option<Loop>, nest: nat, jumps: bool,
                  ts: int -> bool)
    requires e.If? && CodeAt(p, k, pc, e, sc, loop) && WfExpr(e, nest, jumps)
    requires Standing(p, k, pc, nest, jumps, loop, ts)
    ensures Covered(p, k, pc, pc + Size(e, sc, SiteOf(p, k, loop)), ts)
    decreases e, 0
  {
    hide Decode, At, Boundary, Covered, AfterArms, CodeArms, SizeArms, CodeStmts, SizeStmts;
    var site := SiteOf(p, k, loop);
    var q := pc + SizeArms(e.arms, |e.arms|, sc, site);
    var end := pc + Size(e, sc, site);
    ArmsCovered(p, k, pc, e, |e.arms|, sc, loop, nest, jumps, All(), end);
    Landed(p, k, pc, q, All());
    if e.hasElse {
      StmtsCovered(p, k, q, e.alt, |e.alt|, AfterArms(e.arms, |e.arms|, sc), loop, nest, jumps, ts);
    } else {
      Cover1(p, k, q, IPutNull, ts);
    }
    Landed(p, k, q, end, ts);
    ArmsCovered(p, k, pc, e, |e.arms|, sc, loop, nest, jumps, ts, end);
    Join(p, k, pc, q, end, ts);
  }

  /** No restriction on targets: for finding boundaries before targets are known to be some. */
  ghost function All(): int -> bool { t => true }

  lemma ArmsCovered(p: Program, k: nat, pc: nat, e: Expr, n: nat, sc: Scope, loop: Option<Loop>, nest: nat, jumps: bool,
                    ts: int -> bool, end: nat)
    requires e.If? && n <= |e.arms| && CodeArms(p, k, pc, e.arms, n, sc, loop, end) && WfExpr(e, nest, jumps)
    requires Standing(p, k, pc, nest, jumps, loop, ts) && ts(end)
    ensures Covered(p, k, pc, pc + SizeArms(e.arms, n, sc, SiteOf(p, k, loop)), ts)
    decreases e.arms, n
  {
    hide Decode, At, Boundary, Covered, CodeArm, SizeArm, WfStmts;
    if n == 0 {
      Nothing(p, k, pc, ts);
    } else {
      var q := pc + SizeArms(e.arms, n - 1, sc, SiteOf(p, k, loop));
      ArmsCovered(p, k, pc, e, n - 1, sc, loop, nest, jumps, ts, end);
      Landed(p, k, pc, q, ts);
      ArmCovered(p, k, q, e.arms[n - 1], AfterArms(e.arms, n - 1, sc), loop, nest, jumps, ts, end);
      Join(p, k, pc, q, pc + SizeArms(e.arms, n, sc, SiteOf(p, k, loop)), ts);
    }
  }

  lemma ArmCovered(p: Program, k: nat, pc: nat, arm: Arm, sc: Scope, loop: Option<Loop>, nest: nat, jumps: bool,
                   ts: int -> bool, end: nat)
    requires CodeArm(p, k, pc, arm, sc, loop, end) && WfArm(arm, nest, jumps)
    requires Standing(p, k, pc, nest, jumps, loop, ts) && ts(end)
    ensures Covered(p, k, pc, pc + SizeArm(arm, sc, SiteOf(p, k, loop)), ts)
    decreases arm, 0
  {
    hide Decode, At, Boundary, Covered, CodeAt, CodeStmts, Size, SizeStmts, After;
    var site := SiteOf(p, k, loop);
    var q := pc + Size(arm.cond, sc, site);
    var next := pc + SizeArm(arm, sc, site);
    ExprCovered(p, k, pc, arm.cond, sc, loop, nest, false, ts);
    Landed(p, k, pc, q, ts);
    Walk1(p, k, q, IBranchUnless(next));
    if arm.body == [] {
      Cover1(p, k, q + 2, IPutNull, ts);
    } else {
      StmtsCovered(p, k, q + 2, arm.body, |arm.body|, After(arm.cond, sc), loop, nest, jumps, ts);
    }
    Then1(p, k, q + 2, next - 2, IJump(end), ts);
    Landed(p, k, q + 2, next, ts);
    Then1(p, k, pc, q, IBranchUnless(next), ts);
    Join(p, k, pc, q + 2, next, ts);
  }

  // ------------------------------------------------------------- statements

  lemma StmtsCovered(p: Program, k: nat, pc: nat, ss: seq<Stmt>, n: nat, sc: Scope, loop: Option<Loop>, nest: nat,
                     jumps: bool, ts: int -> bool)
    requires n <= |ss| && CodeStmts(p, k, pc, ss, n, sc, loop) && WfStmts(ss, nest, jumps)
    requires Standing(p, k, pc, nest, jumps, loop, ts)
    ensures Covered(p, k, pc, pc + SizeStmts(ss, n, sc, SiteOf(p, k, loop)), ts)
    decreases ss, n
  {
    hide Decode, At, Boundary, Covered, CodeStmt, SizeStmt, WfStmt;
    if n == 0 {
      Nothing(p, k, pc, ts);
    } else {
      var q := pc + SizeStmts(ss, n - 1, sc, SiteOf(p, k, loop));
      StmtsCovered(p, k, pc, ss, n - 1, sc, loop, nest, jumps, ts);
      Landed(p, k, pc, q, ts);
      StmtCovered(p, k, q, ss[n - 1], AfterStmts(ss, n - 1, sc), loop, nest, jumps, ts);
      Join(p, k, pc, q, pc + SizeStmts(ss, n, sc, SiteOf(p, k, loop)), ts);
    }
  }

  lemma StmtCovered(p: Program, k: nat, pc: nat, x: Stmt, sc: Scope, loop: Option<Loop>, nest: nat, jumps: bool,
                    ts: int -> bool)
    requires CodeStmt(p, k, pc, x, sc, loop) && WfStmt(x, nest, jumps) && Standing(p, k, pc, nest, jumps, loop, ts)
    ensures Covered(p, k, pc, pc + SizeStmt(x, sc, SiteOf(p, k, loop)), ts)
    decreases x, 1
  {
    hide Decode, At, Boundary, Covered, CodeAt, Size, WfExpr, CodeStmts, SizeStmts, WfStmts;
    match x
    case While(_, _) => WhileCovered(p, k, pc, x, sc, loop, nest, jumps, ts);
    case Def(_, _, _) => DefCovered(p, k, pc, x, sc, loop, ts);
    case Continue => Cover1(p, k, pc, IJump(loop.value.next), ts);
    case Break => Cover1(p, k, pc, IJump(loop.value.exit), ts);
    case _ => ValueCovered(p, k, pc, x, sc, loop, nest, jumps, ts);
  }

  lemma ValueCovered(p: Program, k: nat, pc: nat, x: Stmt, sc: Scope, loop: Option<Loop>, nest: nat, jumps: bool,
                     ts: int -> bool)
    requires x.ExprStmt? || x.Return?
    requires CodeStmt(p, k, pc, x, sc, loop) && WfStmt(x, nest, jumps) && Standing(p, k, pc, nest, jumps, loop, ts)
    ensures Covered(p, k, pc, pc + SizeStmt(x, sc, SiteOf(p, k, loop)), ts)
    decreases x, 0
  {
    hide Decode, At, Boundary, Covered, CodeAt, Size, WfExpr;
    var q := pc + Size(x.e, sc, SiteOf(p, k, loop));
    ExprCovered(p, k, pc, x.e, sc, loop, nest, jumps && x.ExprStmt?, ts);
    if x.Return? {
      Then1(p, k, pc, q, ILeave, ts);
    } else if x.isStmt {
      Then1(p, k, pc, q, IPop, ts);
    }
  }

  lemma DefCovered(p: Program, k: nat, pc: nat, x: Stmt, sc: Scope, loop: Option<Loop>, ts: int -> bool)
    requires x.Def? && CodeStmt(p, k, pc, x, sc, loop) && k < |p.sets| && Boundary(p.sets[k].code, pc)
    ensures Covered(p, k, pc, pc + SizeStmt(x, sc, SiteOf(p, k, loop)), ts)
  {
    hide Decode, At, Boundary, Covered;
    var unit: nat :| At(p, k, pc + 1, IDefMethod(|x.params|, x.name, Some(unit)))
                     && unit < |p.units| && p.units[unit] == MethodSource(x.params, x.body);
    Cover1(p, k, pc, IPutSelf, ts);
    Then1(p, k, pc, pc + 1, IDefMethod(|x.params|, x.name, Some(unit)), ts);
  }

  /** The loop's ends are boundaries, so its breaks and continues may go there. */
  lemma WhileCovered(p: Program, k: nat, pc: nat, x: Stmt, sc: Scope, loop: Option<Loop>, nest: nat, jumps: bool,
                     ts: int -> bool)
    requires x.While? && CodeStmt(p, k, pc, x, sc, loop) && WfStmt(x, nest, jumps)
    requires Standing(p, k, pc, nest, jumps, loop, ts)
    ensures Covered(p, k, pc, pc + SizeStmt(x, sc, SiteOf(p, k, loop)), ts)
    decreases x, 0
  {
    hide Decode, At, Boundary, Covered, CodeAt, Size, WfExpr, CodeStmts, SizeStmts, WfStmts, AfterStmts;
    var site := SiteOf(p, k, loop);
    var next := pc + 2 + SizeStmts(x.body, |x.body|, sc, site.(inLoop := true));
    var sc' := AfterStmts(x.body, |x.body|, sc);
    var exit := next + Size(x.cond, sc', site) + 2;
    var inner := Some(Loop(exit, next));
    Walk1(p, k, pc, IJump(next));
    StmtsCovered(p, k, pc + 2, x.body, |x.body|, sc, inner, nest, nest == 0, All());
    Landed(p, k, pc + 2, next, All());
    ExprCovered(p, k, next, x.cond, sc', loop, nest, false, ts);
    Then1(p, k, next, exit - 2, IBranchIf(pc + 2), ts);
    Landed(p, k, next, exit, ts);
    StmtsCovered(p, k, pc + 2, x.body, |x.body|, sc, inner, nest, nest == 0, ts);
    Cover1(p, k, pc, IJump(next), ts);
    Join(p, k, pc, pc + 2, next, ts);
    Join(p, k, pc, next, exit, ts);
  }

  // ------------------------------------------------------------------ units

  lemma ParamsCovered(p: Program, k: nat, ps: seq<Param>, n: nat, ts: int -> bool)
    requires k < |p.sets| && n <= |ps| && CodeParams(p, k, ps, n) && WfParams(ps) && !InBlock(p, k)
    requires Covers(p.sets[k].code, ts)
    ensures Covered(p, k, 0, SizeParams(ps, n, EMPTY, SiteOf(p, k, None)), ts)
    decreases n
  {
    hide Decode, At, Covered, CodeAt, Size, WfExpr, After, Declare, Covers;
    if n == 0 {
      Nothing(p, k, 0, ts);
    } else {
      hide Boundary;
      var site := SiteOf(p, k, None);
      var sc := AfterParams(ps, n - 1, EMPTY);
      var q := SizeParams(ps, n - 1, EMPTY, site);
      var i := ParamIndex(ps[n - 1], sc);
      ParamsCovered(p, k, ps, n - 1, ts);
      Landed(p, k, 0, q, ts);
      assert WfParam(ps[n - 1]);
      match ps[n - 1]
      case DefaultParam(x, d) =>
        ExprCovered(p, k, q, d, sc, None, 0, false, ts);
        Join(p, k, 0, q, q + Size(d, sc, site), ts);
        Then1(p, k, 0, q + Size(d, sc, site), ISetOptional(0, i), ts);
      case KeyDefaultParam(x, d) =>
        ExprCovered(p, k, q, d, Declare(sc, x), None, 0, false, ts);
        Join(p, k, 0, q, q + Size(d, Declare(sc, x), site), ts);
        Then1(p, k, 0, q + Size(d, Declare(sc, x), site), ISetOptional(0, i), ts);
      case RestParam(x) =>
        Then1(p, k, 0, q, INewArray(0), ts);
        Then1(p, k, 0, q + 2, ISetOptional(0, i), ts);
      case _ =>
    }
  }

  lemma UnitAligned(p: Program, k: nat)
    requires k < |p.units| && k < |p.sets| && UnitAt(p, k) && UnitWf(p, k)
    ensures Aligned(p.sets[k])
  {
    hide Decode, At, Covered, CodeStmts, SizeStmts, CodeParams, WfStmts, AfterStmts, StartScope;
    var u := p.units[k];
    var ts := Marks(p.sets[k].code);
    var q := BodyStart(p, k);
    assert Boundary(p.sets[k].code, 0);
    if u.MethodSource? {
      ParamsCovered(p, k, u.params, |u.params|, ts);
    } else {
      Nothing(p, k, 0, ts);
    }
    Landed(p, k, 0, q, ts);
    hide Boundary;
    if u.MethodSource? && u.body == [] {
      Then1(p, k, 0, q, IPutNull, ts);
    } else {
      var nest := if u.BlockSource? then |u.outer| else 0;
      StmtsCovered(p, k, q, u.body, |u.body|, StartScope(u), LoopOf(u), nest, false, ts);
      Join(p, k, 0, q, q + SizeStmts(u.body, |u.body|, StartScope(u), SiteOf(p, k, LoopOf(u))), ts);
    }
    Then1(p, k, 0, |p.sets[k].code| - 1, ILeave, ts);
    assert Covered(p, k, 0, |p.sets[k].code|, ts);
    CoveredAligned(p, k);
  }

  lemma CoveredAligned(p: Program, k: nat)
    requires k < |p.sets| && Covered(p, k, 0, |p.sets[k].code|, Marks(p.sets[k].code))
    ensures Aligned(p.sets[k])
  {
    hide Decode, Span;
  }

  /** The theorem: compiled programs are aligned throughout. */
  lemma CompiledAligned(p: Program)
    requires Sound(p)
    ensures AllAligned(p.sets)
  {
    hide Aligned, CodeStmts, CodeParams;
    forall k | 0 <= k < |p.sets| ensures Aligned(p.sets[k]) {
      assert UnitAt(p, k) && UnitWf(p, k);
      UnitAligned(p, k);
    }
  }
}
