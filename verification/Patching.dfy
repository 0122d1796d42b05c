/**
 GenerateInstructions' last steps: every slot that waits for an anchor gets its
 line.  What comes out is a program the compiler theorem speaks about.
 */
module Patching {
  import opened Wrappers
  import opened Ast
  import opened Layout
  import opened Bytecode
  import opened WellFormed
  import opened Relation
  import opened Emission
  import opened Linking
  import opened Generation

  // ------------------------------------------------------------------ anchors

  /** The line of an anchor, zero if it was never defined. */
  function LinesOf(lines: seq<Option<nat>>): seq<nat> {
    seq(|lines|, a requires 0 <= a < |lines| => if lines[a].Some? then lines[a].value else 0)
  }

  function PatchOne(sets: seq<InstructionSet>, r: AnchorRef, lines: seq<nat>): (t: seq<InstructionSet>)
    ensures |t| == |sets|
  {
    if r.unit < |sets| && r.index < |sets[r.unit].code| then
      sets[r.unit := sets[r.unit].(code := sets[r.unit].code[r.index := LineOf(lines, r.anchor)])]
    else sets
  }

  /** The loop over instructionsWithAnchor, up to reference n. */
  function Patched(sets: seq<InstructionSet>, refs: seq<AnchorRef>, lines: seq<nat>, n: nat): (t: seq<InstructionSet>)
    requires n <= |refs|
    ensures |t| == |sets|
  {
    if n == 0 then sets else PatchOne(Patched(sets, refs, lines, n - 1), refs[n - 1], lines)
  }

  ghost predicate PatchedSlot(g: Gen, t: seq<InstructionSet>, k: nat, i: nat, n: nat)
    requires k < |g.sets| == |t| && i < |g.sets[k].code| == |t[k].code| && n <= |g.refs|
  {
    || (exists a :: AnchorRef(a, k, i) in g.refs[..n])
    || t[k].code[i] == g.sets[k].code[i]
  }

  ghost predicate PatchedSet(g: Gen, t: seq<InstructionSet>, k: nat, n: nat)
    requires k < |g.sets| == |t| && n <= |g.refs|
  {
    && t[k].consts == g.sets[k].consts && t[k].params == g.sets[k].params && |t[k].code| == |g.sets[k].code|
    && forall i: nat {:trigger t[k].code[i]} :: i < |g.sets[k].code| ==> PatchedSlot(g, t, k, i, n)
  }

  ghost predicate PatchedRef(t: seq<InstructionSet>, lines: seq<nat>, r: AnchorRef) {
    r.unit < |t| && r.index < |t[r.unit].code| && t[r.unit].code[r.index] == LineOf(lines, r.anchor)
  }

  /** The loop's invariant: the slots of the first n references hold their lines, all others are as they were. */
  lemma {:induction false} PatchedSoFar(g: Gen, lines: seq<nat>, n: nat)
    requires Consistent(g) && n <= |g.refs|
    ensures
      var t := Patched(g.sets, g.refs, lines, n);
      && (forall k {:trigger PatchedSet(g, t, k, n)} :: 0 <= k < |t| ==> PatchedSet(g, t, k, n))
      && (forall j {:trigger g.refs[j]} :: 0 <= j < n ==> PatchedRef(t, lines, g.refs[j]))
    decreases n
  {
    if n == 0 {
      forall k | 0 <= k < |g.sets| ensures PatchedSet(g, g.sets, k, 0) {
        forall i: nat | i < |g.sets[k].code| ensures PatchedSlot(g, g.sets, k, i, 0) { }
      }
    } else {
      PatchedSoFar(g, lines, n - 1);
      PatchNext(g, Patched(g.sets, g.refs, lines, n - 1), lines, n);
    }
  }

  lemma PatchNext(g: Gen, b: seq<InstructionSet>, lines: seq<nat>, n: nat)
    requires Consistent(g) && 0 < n <= |g.refs| && |b| == |g.sets|
    requires forall k {:trigger PatchedSet(g, b, k, n - 1)} :: 0 <= k < |b| ==> PatchedSet(g, b, k, n - 1)
    requires forall j {:trigger g.refs[j]} :: 0 <= j < n - 1 ==> PatchedRef(b, lines, g.refs[j])
    ensures
      var t := PatchOne(b, g.refs[n - 1], lines);
      && (forall k {:trigger PatchedSet(g, t, k, n)} :: 0 <= k < |t| ==> PatchedSet(g, t, k, n))
      && (forall j {:trigger g.refs[j]} :: 0 <= j < n ==> PatchedRef(t, lines, g.refs[j]))
  {
    var r := g.refs[n - 1];
    var t := PatchOne(b, r, lines);
    assert RefOk(g, r) && PatchedSet(g, b, r.unit, n - 1);
    assert g.refs[..n] == g.refs[..n - 1] + [r];
    forall k | 0 <= k < |t| ensures PatchedSet(g, t, k, n) {
      assert PatchedSet(g, b, k, n - 1);
      forall i: nat | i < |g.sets[k].code| ensures PatchedSlot(g, t, k, i, n) {
        if k == r.unit && i == r.index {
          assert AnchorRef(r.anchor, k, i) in g.refs[..n];
        } else {
          assert b[k].code[i] == t[k].code[i];
          assert PatchedSlot(g, b, k, i, n - 1);
        }
      }
    }
    forall j | 0 <= j < n ensures PatchedRef(t, lines, g.refs[j]) {
      if j < n - 1 {
        assert PatchedRef(b, lines, g.refs[j]);
        assert g.refs[j] in g.refs && r in g.refs;
        if Clash(g.refs[j], r) { assert g.refs[j] == r; }
      }
    }
  }

  // ------------------------------------------------------- the whole program

  function UnitsOf(g: Gen): seq<Source> {
    var lines := LinesOf(g.lines);
    seq(|g.origins|, u requires 0 <= u < |g.origins| => SourceOf(g.origins[u], lines))
  }

  function FinalOf(g: Gen): Final {
    var lines := LinesOf(g.lines);
    Final(Program(Patched(g.sets, g.refs, lines, |g.refs|), UnitsOf(g)), lines)
  }

  lemma FinalExtends(g: Gen)
    requires Consistent(g)
    ensures Extends(FinalOf(g), g)
  {
    var f := FinalOf(g);
    var n := |g.refs|;
    var t := f.p.sets;
    PatchedSoFar(g, f.lines, n);
    assert g.refs[..n] == g.refs;
    forall a | 0 <= a < |g.lines| ensures LineIs(f, g, a) { }
    forall u | 0 <= u < |g.origins| ensures OriginIs(f, g, u) { }
    forall k | 0 <= k < |g.sets| ensures SetIs(f, g, k) {
      assert PatchedSet(g, t, k, n);
      forall i: nat | i < |g.sets[k].code| ensures Waiting(g, k, i) || t[k].code[i] == g.sets[k].code[i] {
        assert PatchedSlot(g, t, k, i, n);
      }
    }
    forall r | r in g.refs ensures RefIs(f, r) {
      var j :| 0 <= j < n && g.refs[j] == r;
      assert PatchedRef(t, f.lines, r);
    }
  }

  /** Generated code is compiled code: the hypothesis of the compiler theorem. */
  lemma GeneratedCompiled(body: seq<Stmt>)
    requires body != []
    ensures
      var p := FinalOf(EmitProgram(NOTHING, body)).p;
      Compiled(p) && |p.units| > 0 && p.units[0] == MainSource(body)
  {
    hide UnitAt, EmitProgram, Extends, Patched, UnitsOf;
    var g := EmitProgram(NOTHING, body);
    ProgramConsistent(body);
    FinalExtends(g);
    WriteProgram(FinalOf(g), body);
    UnitCount(g);
    var p := FinalOf(g).p;
    forall u | 0 <= u < |p.units| ensures UnitAt(p, u) { assert UnitDone(FinalOf(g), u); }
  }

  lemma UnitCount(g: Gen)
    ensures |FinalOf(g).p.units| == |g.origins| && |FinalOf(g).p.sets| == |g.sets|
  {
  }

  // ---------------------------------------------------------- well-formedness

  ghost predicate OriginWf(o: Origin) {
    match o
    case FromMain(body) => (StmtBlock(body) || ValueBlock(body)) && WfStmts(body, 0, false)
    case FromMethod(params, body) => WfParams(params) && WfBody(body)
    case FromBlock(names, body, outer, _) => |outer| > 0 && WfBlock(BlockLit(names, body), |outer| - 1)
  }

  /** h has g's units, and the others are well formed. */
  ghost predicate AddsWf(g: Gen, h: Gen) {
    && g.origins <= h.origins
    && forall u {:trigger h.origins[u]} :: |g.origins| <= u < |h.origins| ==> OriginWf(h.origins[u])
  }

  lemma EmitAdds(g: Gen, k: nat, op: int, os: seq<Operand>)
    ensures AddsWf(g, Emit(g, k, op, os))
  {
  }

  lemma EmitToAdds(g: Gen, k: nat, op: int, a: nat)
    ensures AddsWf(g, EmitTo(g, k, op, a))
  {
  }

  lemma {:induction false} StoresAdd(g: Gen, k: nat, vars: seq<Name>, n: nat, sc: Scope)
    requires n <= |vars|
    ensures AddsWf(g, EmitStores(g, k, vars, n, sc))
    decreases n
  {
    hide Emit, Resolve, Declare, DeclareAll;
    if n > 0 {
      var b := EmitStores(g, k, vars, n - 1, sc);
      var a := Resolve(Declare(DeclareAll(sc, vars, n - 1), vars[n - 1]), vars[n - 1]);
      StoresAdd(g, k, vars, n - 1, sc);
      var t := b;
      if vars[n - 1] != BLANK && a.Some? {
        t := Emit(b, k, SET_LOCAL, [Num(a.value.depth), Num(a.value.index)]);
        EmitAdds(b, k, SET_LOCAL, [Num(a.value.depth), Num(a.value.index)]);
      }
      EmitAdds(t, k, POP, []);
    }
  }

  lemma ExprAdds(g: Gen, k: nat, e: Expr, sc: Scope, loop: Option<Anchors>, jumps: bool)
    requires WfExpr(e, |sc.outer|, jumps)
    ensures AddsWf(g, EmitExpr(g, k, e, sc, loop))
    decreases e, 1
  {
    hide Emit, EmitTo, EmitAll, EmitArms, EmitStmts, EmitStores, EmitBlock, After, AfterAll, AfterArms, WfAll, WfStmts;
    hide WfArm, WfBlock, Resolve, ArgSetOf;
    match e
    case ArrayLit(es) =>
      AllAdds(g, k, es, |es|, sc, loop);
      EmitAdds(EmitAll(g, k, es, |es|, sc, loop), k, NEW_ARRAY, [Num(|es|)]);
    case Assign(vars, v) => AssignAdds(g, k, e, sc, loop, jumps);
    case Logic(_, _, _) => LogicAdds(g, k, e, sc, loop, jumps);
    case Infix(_, _, _) => InfixAdds(g, k, e, sc, loop, jumps);
    case Not(a) =>
      ExprAdds(g, k, a, sc, loop, false);
      EmitAdds(EmitExpr(g, k, a, sc, loop), k, SEND, [Item(NameConst(BANG)), Num(0), Item(NilConst), Item(NilConst)]);
    case Minus(a) =>
      var g1 := Emit(g, k, PUT_INT, [Num(0)]);
      EmitAdds(g, k, PUT_INT, [Num(0)]);
      ExprAdds(g1, k, a, sc, loop, false);
      EmitAdds(EmitExpr(g1, k, a, sc, loop), k, SEND,
               [Item(NameConst(MINUS_NAME)), Num(1), Item(NilConst), Item(NilConst)]);
    case Plus(a) => ExprAdds(g, k, a, sc, loop, false);
    case If(_, _, _) => IfAdds(g, k, e, sc, loop, jumps);
    case Yield(args) =>
      var g1 := Emit(g, k, PUT_SELF, []);
      EmitAdds(g, k, PUT_SELF, []);
      AllAdds(g1, k, args, |args|, sc, loop);
      EmitAdds(EmitAll(g1, k, args, |args|, sc, loop), k, INVOKE_BLOCK, [Num(|args|)]);
    case Pair(_, v) => ExprAdds(g, k, v, sc, loop, false);
    case Call(_, _, _, _) => CallAdds(g, k, e, sc, loop, jumps);
    case _ => LeafAdds(g, k, e, sc, loop);
  }

  lemma LeafAdds(g: Gen, k: nat, e: Expr, sc: Scope, loop: Option<Anchors>)
    requires IsLeaf(e) || e.Ident?
    ensures AddsWf(g, EmitExpr(g, k, e, sc, loop))
  {
    hide Resolve, Defined;
  }

  lemma AssignAdds(g: Gen, k: nat, e: Expr, sc: Scope, loop: Option<Anchors>, jumps: bool)
    requires e.Assign? && WfExpr(e, |sc.outer|, jumps)
    ensures AddsWf(g, EmitExpr(g, k, e, sc, loop))
    decreases e, 0
  {
    hide Emit, EmitStores, After;
    ExprAdds(g, k, e.value, sc, loop, false);
    var g1 := EmitExpr(g, k, e.value, sc, loop);
    EmitAdds(g1, k, EXPAND_ARRAY, [Num(|e.vars|)]);
    StoresAdd(if |e.vars| > 1 then Emit(g1, k, EXPAND_ARRAY, [Num(|e.vars|)]) else g1, k, e.vars, |e.vars|,
              After(e.value, sc));
  }

  lemma InfixAdds(g: Gen, k: nat, e: Expr, sc: Scope, loop: Option<Anchors>, jumps: bool)
    requires e.Infix? && WfExpr(e, |sc.outer|, jumps)
    ensures AddsWf(g, EmitExpr(g, k, e, sc, loop))
    decreases e, 0
  {
    hide Emit, After;
    AfterGrows(e.left, sc);
    var g1 := EmitExpr(g, k, e.left, sc, loop);
    var g2 := EmitExpr(g1, k, e.right, After(e.left, sc), loop);
    var i := OperatorInstr(e.op);
    ExprAdds(g, k, e.left, sc, loop, false);
    ExprAdds(g1, k, e.right, After(e.left, sc), loop, false);
    EmitAdds(g2, k, if i.IArith? then i.op else BINARY_OPERATOR, [Item(NameConst(e.op))]);
  }

  lemma LogicAdds(g: Gen, k: nat, e: Expr, sc: Scope, loop: Option<Anchors>, jumps: bool)
    requires e.Logic? && WfExpr(e, |sc.outer|, jumps)
    ensures AddsWf(g, EmitExpr(g, k, e, sc, loop))
    decreases e, 0
  {
    hide Emit, EmitTo, After, EmitExpr;
    AfterGrows(e.left, sc);
    var g0 := NewAnchor(g, None);
    var g1 := EmitExpr(g0, k, e.left, sc, loop);
    var g2 := EmitTest(g1, k, BranchOp(e.conj), |g.lines|);
    ExprAdds(g0, k, e.left, sc, loop, false);
    EmitAdds(g1, k, DUP, []);
    EmitToAdds(Emit(g1, k, DUP, []), k, BranchOp(e.conj), |g.lines|);
    EmitAdds(EmitTo(Emit(g1, k, DUP, []), k, BranchOp(e.conj), |g.lines|), k, POP, []);
    ExprAdds(g2, k, e.right, After(e.left, sc), loop, false);
    LogicForm(g, k, e, sc, loop);
  }

  lemma IfAdds(g: Gen, k: nat, e: Expr, sc: Scope, loop: Option<Anchors>, jumps: bool)
    requires e.If? && WfExpr(e, |sc.outer|, jumps)
    ensures AddsWf(g, EmitExpr(g, k, e, sc, loop))
    decreases e, 0
  {
    hide Emit, EmitArms, EmitStmts, AfterArms, EmitExpr, WfStmts;
    var n, sc1, g0 := |e.arms|, AfterArms(e.arms, |e.arms|, sc), NewAnchor(g, None);
    var g1 := EmitArms(g0, k, e.arms, n, sc, loop, |g.lines|);
    AfterArmsGrows(e.arms, n, sc);
    ArmsAdd(g0, k, e, n, sc, loop, jumps, |g.lines|);
    if e.hasElse { StmtsAdd(g1, k, e.alt, |e.alt|, sc1, loop, jumps); } else { EmitAdds(g1, k, PUT_NULL, []); }
    IfForm(g, k, e, sc, loop);
  }

  lemma ArmsAdd(g: Gen, k: nat, e: Expr, n: nat, sc: Scope, loop: Option<Anchors>, jumps: bool, last: nat)
    requires e.If? && n <= |e.arms| && WfExpr(e, |sc.outer|, jumps)
    ensures AddsWf(g, EmitArms(g, k, e.arms, n, sc, loop, last))
    decreases e.arms, n
  {
    hide EmitArm, AfterArms, WfArm, WfStmts;
    if n > 0 {
      var g1, arm, sc1 := EmitArms(g, k, e.arms, n - 1, sc, loop, last), e.arms[n - 1], AfterArms(e.arms, n - 1, sc);
      ArmsAdd(g, k, e, n - 1, sc, loop, jumps, last);
      AfterArmsGrows(e.arms, n - 1, sc);
      ArmAdds(g1, k, arm, sc1, loop, jumps, last);
    }
  }

  lemma ArmAdds(g: Gen, k: nat, arm: Arm, sc: Scope, loop: Option<Anchors>, jumps: bool, last: nat)
    requires WfArm(arm, |sc.outer|, jumps)
    ensures AddsWf(g, EmitArm(g, k, arm, sc, loop, last))
    decreases arm, 0
  {
    hide Emit, EmitTo, EmitStmts, After, EmitExpr, WfStmts, WfExpr;
    var g0 := NewAnchor(g, None);
    var g1 := EmitExpr(g0, k, arm.cond, sc, loop);
    var g2 := EmitTo(g1, k, BRANCH_UNLESS, |g.lines|);
    var g3 := EmitBody(g2, k, arm, After(arm.cond, sc), loop);
    AfterGrows(arm.cond, sc);
    ExprAdds(g0, k, arm.cond, sc, loop, false);
    EmitToAdds(g1, k, BRANCH_UNLESS, |g.lines|);
    if arm.body == [] {
      EmitAdds(g2, k, PUT_NULL, []);
    } else {
      StmtsAdd(g2, k, arm.body, |arm.body|, After(arm.cond, sc), loop, jumps);
    }
    EmitToAdds(g3, k, JUMP, last);
  }

  lemma AllAdds(g: Gen, k: nat, es: seq<Expr>, n: nat, sc: Scope, loop: Option<Anchors>)
    requires n <= |es| && WfAll(es, |sc.outer|)
    ensures AddsWf(g, EmitAll(g, k, es, n, sc, loop))
    decreases es, n
  {
    hide EmitExpr, AfterAll, WfExpr;
    if n > 0 {
      AllAdds(g, k, es, n - 1, sc, loop);
      AfterAllGrows(es, n - 1, sc);
      ExprAdds(EmitAll(g, k, es, n - 1, sc, loop), k, es[n - 1], AfterAll(es, n - 1, sc), loop, false);
    }
  }

  lemma CallAdds(g: Gen, k: nat, e: Expr, sc: Scope, loop: Option<Anchors>, jumps: bool)
    requires e.Call? && WfExpr(e, |sc.outer|, jumps)
    ensures AddsWf(g, EmitExpr(g, k, e, sc, loop))
    decreases e, 0
  {
    hide Emit, EmitAll, AfterAll, After, EmitExpr, EmitBlock, WfBlock, WfAll, ArgSetOf;
    var sc1 := After(e.recv, sc);
    var after := AfterAll(e.args, |e.args|, sc1);
    AfterGrows(e.recv, sc);
    AfterAllGrows(e.args, |e.args|, sc1);
    var g0 := g.(argSets := g.argSets + 1);
    var g1 := EmitExpr(g0, k, e.recv, sc, loop);
    var g2 := EmitAll(g1, k, e.args, |e.args|, sc1, loop);
    var g3 := EmitBlockOf(g2, e, after, loop);
    ExprAdds(g0, k, e.recv, sc, loop, false);
    AllAdds(g1, k, e.args, |e.args|, sc1, loop);
    if e.block.Some? { BlockAdds(g2, e.block.value, [after.cur] + after.outer, loop); }
    EmitAdds(g3, k, SEND,
             [Item(NameConst(e.name)), Num(|e.args|), Item(SetItem(UnitOf(g2, e))),
              Item(ArgsConst(g.argSets, ArgSetOf(e.args)))]);
    CallForm(g, k, e, sc, loop);
  }

  lemma BlockAdds(g: Gen, b: BlockLit, outer: seq<seq<Name>>, loop: Option<Anchors>)
    requires |outer| > 0 && WfBlock(b, |outer| - 1)
    ensures AddsWf(g, EmitBlock(g, b, outer, loop))
    decreases b, 0
  {
    hide Emit, EmitStmts, WfStmts, ValueBlock, Distinct;
    var u := |g.sets|;
    var g1 := NewSet(g, FromBlock(b.params, b.body, outer, loop), ArgSet([], []));
    var g2 := EmitStmts(g1, u, b.body, |b.body|, BlockScope(b.params, outer), loop);
    StmtsAdd(g1, u, b.body, |b.body|, BlockScope(b.params, outer), loop, false);
    EmitAdds(g2, u, LEAVE, []);
  }

  lemma StmtsAdd(g: Gen, k: nat, ss: seq<Stmt>, n: nat, sc: Scope, loop: Option<Anchors>, jumps: bool)
    requires n <= |ss| && WfStmts(ss, |sc.outer|, jumps)
    ensures AddsWf(g, EmitStmts(g, k, ss, n, sc, loop))
    decreases ss, n
  {
    hide EmitStmt, AfterStmts, WfStmt;
    if n > 0 {
      StmtsAdd(g, k, ss, n - 1, sc, loop, jumps);
      AfterStmtsGrows(ss, n - 1, sc);
      StmtAdds(EmitStmts(g, k, ss, n - 1, sc, loop), k, ss[n - 1], AfterStmts(ss, n - 1, sc), loop, jumps);
    }
  }

  lemma StmtAdds(g: Gen, k: nat, x: Stmt, sc: Scope, loop: Option<Anchors>, jumps: bool)
    requires WfStmt(x, |sc.outer|, jumps)
    ensures AddsWf(g, EmitStmt(g, k, x, sc, loop))
    decreases x, 1
  {
    hide Emit, EmitTo, EmitExpr, EmitStmts, EmitMethod, WfExpr, WfStmts, WfParams, WfBody, AfterStmts;
    match x
    case ExprStmt(e, _) =>
      ExprAdds(g, k, e, sc, loop, jumps);
      EmitAdds(EmitExpr(g, k, e, sc, loop), k, POP, []);
    case Return(e) =>
      ExprAdds(g, k, e, sc, loop, false);
      EmitAdds(EmitExpr(g, k, e, sc, loop), k, LEAVE, []);
    case While(_, _) => WhileAdds(g, k, x, sc, loop, jumps);
    case Def(name, params, body) =>
      var g1 := EmitMethod(g, x);
      MethodAdds(g, x);
      EmitAdds(g1, k, PUT_SELF, []);
      EmitAdds(Emit(g1, k, PUT_SELF, []), k, DEF_METHOD,
               [Num(|params|), Item(NameConst(name)), Item(SetConst(|g.sets|))]);
    case _ => JumpOutAdds(g, k, x, sc, loop);
  }

  lemma JumpOutAdds(g: Gen, k: nat, x: Stmt, sc: Scope, loop: Option<Anchors>)
    requires x.Break? || x.Continue?
    ensures AddsWf(g, EmitStmt(g, k, x, sc, loop))
  {
    hide Defined;
  }

  lemma WhileAdds(g: Gen, k: nat, x: Stmt, sc: Scope, loop: Option<Anchors>, jumps: bool)
    requires x.While? && WfStmt(x, |sc.outer|, jumps)
    ensures AddsWf(g, EmitStmt(g, k, x, sc, loop))
    decreases x, 0
  {
    hide EmitTo, EmitExpr, EmitStmts, WfExpr, WfStmts, AfterStmts, EmitStmt;
    var next, n := |g.lines|, |x.body|;
    var g0 := NewAnchor(NewAnchor(g, None), None);
    var g1 := EmitTo(g0, k, JUMP, next);
    var gs := NewAnchor(g1, Some(Here(g1, k)));
    var inner := Some(Anchors(next + 1, next));
    var g3 := EmitHead(g, k, x, sc);
    EmitToAdds(g0, k, JUMP, next);
    StmtsAdd(gs, k, x.body, n, sc, inner, |sc.outer| == 0);
    AfterStmtsGrows(x.body, n, sc);
    ExprAdds(g3, k, x.cond, AfterStmts(x.body, n, sc), loop, false);
    EmitToAdds(EmitExpr(g3, k, x.cond, AfterStmts(x.body, n, sc), loop), k, BRANCH_IF, next + 2);
    WhileForm(g, k, x, sc, loop);
  }

  lemma ParamAdds(g: Gen, k: nat, q: Param, sc: Scope)
    requires WfParam(q) && sc.outer == []
    ensures AddsWf(g, EmitParam(g, k, q, sc))
    decreases q, 1
  {
    hide EmitExpr, WfExpr, Resolve, Defined, After;
    match q
    case DefaultParam(_, d) => ExprAdds(g, k, d, sc, None, false);
    case KeyDefaultParam(x, d) => ExprAdds(g, k, d, Declare(sc, x), None, false);
    case _ =>
  }

  lemma ParamsAdd(g: Gen, k: nat, ps: seq<Param>, n: nat)
    requires n <= |ps| && WfParams(ps)
    ensures AddsWf(g, EmitParams(g, k, ps, n))
    decreases ps, n
  {
    hide EmitParam, WfParam, AfterParams, PlainDefaults;
    if n > 0 {
      ParamsAdd(g, k, ps, n - 1);
      AfterParamsGrows(ps, 0, n - 1, EMPTY);
      assert AfterParams(ps, n - 1, EMPTY).outer == [] by { NoOuter(ps); }
      ParamAdds(EmitParams(g, k, ps, n - 1), k, ps[n - 1], AfterParams(ps, n - 1, EMPTY));
    }
  }

  lemma NoOuter(ps: seq<Param>)
    ensures AfterParams(ps, 0, EMPTY) == EMPTY
  {
  }

  lemma MethodAdds(g: Gen, x: Stmt)
    requires x.Def? && WfParams(x.params) && WfBody(x.body)
    ensures AddsWf(g, EmitMethod(g, x))
    decreases x, 0
  {
    hide Emit, EmitParams, EmitStmts, WfParams, WfStmts, AfterParams;
    var u, n := |g.sets|, |x.params|;
    var g1 := NewSet(g, FromMethod(x.params, x.body), BlankArgs(n));
    var g2 := EmitParams(g1, u, x.params, n);
    var g3 := EmitMethodBody(g2, u, x);
    var sc := AfterParams(x.params, n, EMPTY);
    ParamsAdd(g1, u, x.params, n);
    AfterParamsGrows(x.params, 0, n, EMPTY);
    NoOuter(x.params);
    if x.body == [] { EmitAdds(g2, u, PUT_NULL, []); } else { StmtsAdd(g2, u, x.body, |x.body|, sc, None, false); }
    EmitAdds(g3, u, LEAVE, []);
  }

  /** Generated from a well-formed program, the result is what the compiler theorem asks for. */
  lemma GeneratedSound(body: seq<Stmt>)
    requires body != [] && WfUnit(MainSource(body))
    ensures
      var p := FinalOf(EmitProgram(NOTHING, body)).p;
      Sound(p) && |p.units| > 0 && p.units[0] == MainSource(body)
  {
    hide UnitAt, EmitStmts, Patched, Compiled, WfStmts, StmtBlock, Emit;
    var g := EmitProgram(NOTHING, body);
    var g1 := NewSet(NOTHING, FromMain(body), ArgSet([], []));
    var g2 := EmitStmts(g1, 0, body, |body|, EMPTY, None);
    var p := FinalOf(g).p;
    GeneratedCompiled(body);
    StmtsAdd(g1, 0, body, |body|, EMPTY, None, false);
    EmitAdds(g2, 0, LEAVE, []);
    assert AddsWf(NOTHING, g);
    forall u | 0 <= u < |p.units| ensures UnitWf(p, u) {
      assert OriginWf(g.origins[u]);
    }
  }
}
