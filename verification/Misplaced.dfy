/**
 A program whose assignment is lost: a local is declared by an assignment that
 is not executed, a block assigns it, and after the call it is still unset.
 `insertLocal` has created the slot in the block's own frame.
 */
module Misplaced {
  import opened Wrappers
  import opened Ast
  import opened Bytecode
  import opened Binding
  import opened Machine
  import opened Layout
  import opened WellFormed
  import opened Correctness
  import opened Executions
  import Relation
  import Patching
  import Pipeline
  import Ev = Evaluator

  /** def f; yield; end */
  function YieldingMethod(f: Name): Stmt {
    Def(f, [], [ExprStmt(Yield([]), false)])
  }

  function DeclaringArm(x: Name): Arm {
    Arm(BoolLit(false), [ExprStmt(Assign([x], IntLit(1)), false)])
  }

  /** if false; x = 1; end */
  function Declaration(x: Name): Stmt {
    ExprStmt(If([DeclaringArm(x)], false, []), true)
  }

  function BlockOf(x: Name): BlockLit {
    BlockLit([], [ExprStmt(Assign([x], IntLit(2)), false)])
  }

  /** f do; x = 2; end */
  function CallWithBlock(f: Name, x: Name): Stmt {
    ExprStmt(Call(SelfRef, f, [], Some(BlockOf(x))), true)
  }

  /** The three statements, then x. */
  function AssignsInBlock(f: Name, x: Name): seq<Stmt> {
    [YieldingMethod(f), Declaration(x), CallWithBlock(f, x), ExprStmt(Ident(x), false)]
  }

  lemma ProgramWf(f: Name, x: Name)
    requires x != BLANK && f != DEFER_NAME
    ensures WfUnit(MainSource(AssignsInBlock(f, x)))
  {
    var body := AssignsInBlock(f, x);
    AssignWf(x, 1, 0);
    AssignWf(x, 2, 1);
    assert Distinct([], 0) == [];
    assert WfArm(DeclaringArm(x), 0, false);
    assert WfBody([ExprStmt(Yield([]), false)]) && PlainDefaults([], 0);
    forall i | 0 <= i < 4 ensures WfStmt(body[i], 0, false) {
    }
  }

  lemma AssignWf(x: Name, n: int, nest: nat)
    ensures WfStmts([ExprStmt(Assign([x], IntLit(n)), false)], nest, false)
    ensures ValueBlock([ExprStmt(Assign([x], IntLit(n)), false)])
  {
    var s := ExprStmt(Assign([x], IntLit(n)), false);
    assert WfExpr(IntLit(n), nest, false);
    assert WfExpr(s.e, nest, false);
    assert WfStmt(s, nest, false);
  }

  // ------------------------------------------- how the statements are laid out

  lemma OneStatement(s: Stmt, sc: Scope, site: Site)
    ensures SizeStmts([s], 1, sc, site) == SizeStmt(s, sc, site) && AfterStmts([s], 1, sc) == AfterStmt(s, sc)
  {
    hide SizeStmt, AfterStmt;
    assert SizeStmts([s], 0, sc, site) == 0 && AfterStmts([s], 0, sc) == sc;
  }

  lemma OneStatementCode(p: Program, k: nat, pc: nat, s: Stmt, sc: Scope, loop: Option<Loop>)
    requires CodeStmts(p, k, pc, [s], 1, sc, loop)
    ensures CodeStmt(p, k, pc, s, sc, loop)
  {
    hide CodeStmt;
    assert SizeStmts([s], 0, sc, SiteOf(p, k, loop)) == 0 && AfterStmts([s], 0, sc) == sc;
  }

  lemma AssignLayout(x: Name, n: int, sc: Scope, site: Site)
    requires x != BLANK
    ensures Size(Assign([x], IntLit(n)), sc, site) == 5 && After(Assign([x], IntLit(n)), sc) == Declare(sc, x)
  {
    hide Resolve, Declare;
    assert SizeStores([x], 0) == 0 && SizeStores([x], 1) == 3;
    assert Size(IntLit(n), sc, site) == 2 && After(IntLit(n), sc) == sc;
    assert DeclareAll(sc, [x], 0) == sc;
  }

  lemma AssignCode(p: Program, k: nat, pc: nat, x: Name, n: int, sc: Scope, loop: Option<Loop>)
    requires CodeAt(p, k, pc, Assign([x], IntLit(n)), sc, loop) && x != BLANK
    ensures At(p, k, pc, IPutInt(n))
    ensures var a := Resolve(Declare(sc, x), x); a.Some? && At(p, k, pc + 2, ISetLocal(a.value.depth, a.value.index))
  {
    hide At, Resolve, Declare;
    assert Size(IntLit(n), sc, SiteOf(p, k, loop)) == 2 && After(IntLit(n), sc) == sc;
    assert StoresAt(p, k, pc + 2, [x], 1, sc);
    assert SizeStores([x], 0) == 0 && DeclareAll(sc, [x], 0) == sc;
    assert StoreAt(p, k, pc + 2, [x], 0, sc);
  }

  lemma YieldLayout(p: Program, k: nat, sc: Scope)
    ensures Size(Yield([]), sc, SiteOf(p, k, None)) == 3
    ensures CodeAt(p, k, 0, Yield([]), sc, None) ==> At(p, k, 0, IPutSelf) && At(p, k, 1, IInvokeBlock(0))
  {
    hide At;
    assert SizeAll([], 0, sc, SiteOf(p, k, None)) == 0;
  }

  const HERE := Site(false, false)

  lemma ArmLayout(x: Name)
    requires x != BLANK
    ensures SizeArm(DeclaringArm(x), EMPTY, HERE) == 10
    ensures AfterStmts(DeclaringArm(x).body, 1, After(BoolLit(false), EMPTY)) == Scope([x], [])
  {
    hide SizeStmts, AfterStmts, Size, After, Resolve;
    var s := ExprStmt(Assign([x], IntLit(1)), false);
    AssignLayout(x, 1, EMPTY, HERE);
    OneStatement(s, EMPTY, HERE);
    DeclaredFirst(x);
    TruthLayout(EMPTY, HERE);
    assert DeclaringArm(x).body == [s];
  }

  lemma DeclaredFirst(x: Name)
    ensures Declare(EMPTY, x) == Scope([x], [])
  {
  }

  lemma TruthLayout(sc: Scope, site: Site)
    ensures Size(BoolLit(false), sc, site) == 1 && After(BoolLit(false), sc) == sc
  {
  }

  lemma DeclarationLayout(x: Name)
    requires x != BLANK
    ensures SizeStmt(Declaration(x), EMPTY, HERE) == 12 && AfterStmt(Declaration(x), EMPTY) == Scope([x], [])
    ensures SizeArms([DeclaringArm(x)], 0, EMPTY, HERE) == 0 && SizeArms([DeclaringArm(x)], 1, EMPTY, HERE) == 10
    ensures AfterArms([DeclaringArm(x)], 0, EMPTY) == EMPTY
  {
    hide SizeArm, DeclaringArm, SizeStmts, AfterStmts;
    ArmLayout(x);
    ArmParts(x);
    var arm := DeclaringArm(x);
    assert AfterArms([arm], 0, EMPTY) == EMPTY && SizeArms([arm], 0, EMPTY, HERE) == 0;
    assert AfterArms([arm], 1, EMPTY) == Scope([x], []);
    assert SizeArms([arm], 1, EMPTY, HERE) == 10;
    var e := If([arm], false, []);
    assert Size(e, EMPTY, HERE) == 11 && After(e, EMPTY) == Scope([x], []);
  }

  lemma ArmParts(x: Name)
    ensures DeclaringArm(x).cond == BoolLit(false) && |DeclaringArm(x).body| == 1
  {
  }

  lemma DeclarationCode(p: Program, x: Name)
    requires CodeStmt(p, 0, 5, Declaration(x), EMPTY, None) && !InBlock(p, 0) && x != BLANK
    ensures At(p, 0, 5, IPutBool(false)) && At(p, 0, 6, IBranchUnless(15)) && At(p, 0, 15, IPutNull)
    ensures At(p, 0, 16, IPop)
  {
    hide At, SizeArm, SizeStmts, AfterStmts, CodeStmts, InBlock, DeclaringArm, CodeArm, Size, SizeArms;
    DeclarationLayout(x);
    var arm := DeclaringArm(x);
    var e := If([arm], false, []);
    assert Declaration(x) == ExprStmt(e, true);
    assert SiteOf(p, 0, None) == HERE;
    assert SizeStmt(ExprStmt(e, true), EMPTY, HERE) == Size(e, EMPTY, HERE) + 1;
    assert CodeAt(p, 0, 5, e, EMPTY, None);
    assert CodeArms(p, 0, 5, [arm], 1, EMPTY, None, 16);
    assert CodeArm(p, 0, 5, arm, EMPTY, None, 16);
    ArmCode(p, x);
  }

  lemma ArmCode(p: Program, x: Name)
    requires CodeArm(p, 0, 5, DeclaringArm(x), EMPTY, None, 16) && !InBlock(p, 0) && x != BLANK
    ensures At(p, 0, 5, IPutBool(false)) && At(p, 0, 6, IBranchUnless(15))
  {
    hide At, SizeArm, CodeStmts, InBlock, DeclaringArm, Size, After;
    ArmLayout(x);
    ArmParts(x);
    TruthLayout(EMPTY, HERE);
    assert SiteOf(p, 0, None) == HERE;
  }

  lemma CallLayout(f: Name, x: Name, sc: Scope, site: Site)
    requires f != DEFER_NAME
    ensures SizeStmt(CallWithBlock(f, x), sc, site) == 7 && AfterStmt(CallWithBlock(f, x), sc) == sc
  {
    hide BlockOf;
    var e := Call(SelfRef, f, [], Some(BlockOf(x)));
    assert AfterAll([], 0, sc) == sc && SizeAll([], 0, sc, site) == 0;
    assert e.args == [] && After(SelfRef, sc) == sc && Size(SelfRef, sc, site) == 1;
    assert Size(e, sc, site) == 6 && After(e, sc) == sc;
  }

  lemma SelfLayout(sc: Scope, site: Site)
    ensures Size(SelfRef, sc, site) == 1 && After(SelfRef, sc) == sc && SizeAll([], 0, sc, site) == 0
  {
  }

  lemma CallCode(p: Program, f: Name, x: Name) returns (b: nat)
    requires CodeStmt(p, 0, 17, CallWithBlock(f, x), Scope([x], []), None) && f != DEFER_NAME
    ensures b < |p.units| && p.units[b] == BlockSource([], BlockOf(x).body, [[x]], None)
    ensures At(p, 0, 17, IPutSelf) && At(p, 0, 18, ISend(f, 0, Some(b), Some(ArgSet([], [])))) && At(p, 0, 23, IPop)
  {
    hide At, BlockOf, Size, SizeAll;
    var here := Scope([x], []);
    SelfLayout(here, SiteOf(p, 0, None));
    CallLayout(f, x, here, SiteOf(p, 0, None));
    assert AfterAll([], 0, here) == here;
    var e := Call(SelfRef, f, [], Some(BlockOf(x)));
    assert CodeAt(p, 0, 17, e, here, None);
    assert ArgSetOf([]) == ArgSet([], []);
    var unit :| BlockOperand(p, Some(BlockOf(x)), unit, here, None)
        && At(p, 0, 18, ISend(f, 0, unit, Some(ArgSet([], []))));
    b := unit.value;
    assert BlockOf(x).params == [] by { BlockParts(x); }
  }

  lemma BlockParts(x: Name)
    ensures BlockOf(x).params == []
  {
  }

  lemma MainLayout(f: Name, x: Name)
    requires x != BLANK && f != DEFER_NAME
    ensures
      var body := AssignsInBlock(f, x);
      && AfterStmts(body, 0, EMPTY) == EMPTY && AfterStmts(body, 1, EMPTY) == EMPTY
      && AfterStmts(body, 2, EMPTY) == Scope([x], []) && AfterStmts(body, 3, EMPTY) == Scope([x], [])
      && SizeStmts(body, 0, EMPTY, HERE) == 0 && SizeStmts(body, 1, EMPTY, HERE) == 5
      && SizeStmts(body, 2, EMPTY, HERE) == 17
      && SizeStmts(body, 3, EMPTY, HERE) == 24 && SizeStmts(body, 4, EMPTY, HERE) == 27
  {
    hide Declaration, BlockOf, CallWithBlock;
    var body, here := AssignsInBlock(f, x), Scope([x], []);
    DeclarationLayout(x);
    assert AfterStmts(body, 0, EMPTY) == EMPTY && SizeStmts(body, 0, EMPTY, HERE) == 0;
    assert AfterStmt(body[0], EMPTY) == EMPTY && SizeStmt(body[0], EMPTY, HERE) == 5;
    CallLayout(f, x, here, HERE);
    assert Resolve(here, x) == Some(Address(0, 0));
    assert SizeStmt(body[3], here, HERE) == 3;
  }

  /** Where the parts of the main set begin. */
  lemma MainParts(p: Program, f: Name, x: Name)
    requires Compiled(p) && |p.units| > 0 && p.units[0] == MainSource(AssignsInBlock(f, x)) && x != BLANK
    requires f != DEFER_NAME
    ensures CodeStmt(p, 0, 0, YieldingMethod(f), EMPTY, None) && CodeStmt(p, 0, 5, Declaration(x), EMPTY, None)
    ensures CodeStmt(p, 0, 17, CallWithBlock(f, x), Scope([x], []), None)
    ensures CodeStmt(p, 0, 24, ExprStmt(Ident(x), false), Scope([x], []), None)
    ensures At(p, 0, 27, ILeave) && |p.sets[0].code| == 28
  {
    hide At, CodeStmt, SizeStmt, AfterStmt, Declaration, CallWithBlock, YieldingMethod;
    assert UnitAt(p, 0);
    MainLayout(f, x);
    var body := AssignsInBlock(f, x);
    assert SiteOf(p, 0, None) == HERE && StartScope(p.units[0]) == EMPTY;
    assert CodeStmts(p, 0, 0, body, 4, EMPTY, None);
    assert CodeStmts(p, 0, 0, body, 3, EMPTY, None);
    assert CodeStmts(p, 0, 0, body, 2, EMPTY, None);
    assert CodeStmts(p, 0, 0, body, 1, EMPTY, None);
  }

  lemma MethodCode(p: Program, m: nat)
    requires Compiled(p) && m < |p.units| && p.units[m] == MethodSource([], [ExprStmt(Yield([]), false)])
    ensures At(p, m, 0, IPutSelf) && At(p, m, 1, IInvokeBlock(0)) && At(p, m, 3, ILeave) && |p.sets[m].code| == 4
    ensures p.sets[m].params == ArgSet([], [])
  {
    hide At, CodeStmts, SizeStmts, CodeAt, Size;
    assert UnitAt(p, m);
    assert AfterParams([], 0, EMPTY) == EMPTY && SizeParams([], 0, EMPTY, SiteOf(p, m, None)) == 0
        && ParamSetOf([]) == ArgSet([], []);
    OneStatement(ExprStmt(Yield([]), false), EMPTY, SiteOf(p, m, None));
    OneStatementCode(p, m, 0, ExprStmt(Yield([]), false), EMPTY, None);
    YieldLayout(p, m, EMPTY);
  }

  lemma BlockCode(p: Program, b: nat, x: Name)
    requires Compiled(p) && b < |p.units| && p.units[b] == BlockSource([], BlockOf(x).body, [[x]], None) && x != BLANK
    ensures At(p, b, 0, IPutInt(2)) && At(p, b, 2, ISetLocal(1, 0)) && At(p, b, 5, ILeave) && |p.sets[b].code| == 6
  {
    hide At, CodeStmts, SizeStmts, CodeAt, Size;
    assert UnitAt(p, b);
    var s, sc := BlockOf(x).body[0], Scope([], [[x]]);
    assert Distinct([], 0) == [] && BlockScope([], [[x]]) == sc;
    assert ResolveOuter([[x]], x) == Some(Address(0, 0)) && Resolve(sc, x) == Some(Address(1, 0));
    OneStatement(s, sc, SiteOf(p, b, None));
    OneStatementCode(p, b, 0, s, sc, None);
    AssignLayout(x, 2, sc, SiteOf(p, b, None));
    AssignCode(p, b, 0, x, 2, sc, None);
  }

  /** An instruction, the set it stands in and where. */
  datatype Line = Line(unit: nat, pc: nat, instr: Instr)

  ghost predicate Listed(p: Program, lines: seq<Line>) {
    forall j {:trigger lines[j]} :: 0 <= j < |lines| ==> At(p, lines[j].unit, lines[j].pc, lines[j].instr)
  }

  /** The code of the three sets, in the order in which it is run; m is the method's set, b the block's. */
  function Listing(f: Name, m: nat, b: nat): seq<Line> {
    [Line(0, 0, IPutSelf), Line(0, 1, IDefMethod(0, f, Some(m))),
     Line(0, 5, IPutBool(false)), Line(0, 6, IBranchUnless(15)), Line(0, 15, IPutNull), Line(0, 16, IPop),
     Line(0, 17, IPutSelf), Line(0, 18, ISend(f, 0, Some(b), Some(ArgSet([], [])))),
     Line(m, 0, IPutSelf), Line(m, 1, IInvokeBlock(0)),
     Line(b, 0, IPutInt(2)), Line(b, 2, ISetLocal(1, 0)), Line(b, 5, ILeave),
     Line(m, 3, ILeave), Line(0, 23, IPop), Line(0, 24, IGetLocal(0, 0)), Line(0, 27, ILeave)]
  }

  ghost predicate Laid(p: Program, f: Name, m: nat, b: nat) {
    && m < |p.sets| && b < |p.sets| && Listed(p, Listing(f, m, b))
    && |p.sets[0].code| == 28 && |p.sets[m].code| == 4 && |p.sets[b].code| == 6 && p.sets[m].params == ArgSet([], [])
  }

  lemma CodeFound(p: Program, f: Name, x: Name) returns (m: nat, b: nat)
    requires Compiled(p) && |p.units| > 0 && p.units[0] == MainSource(AssignsInBlock(f, x)) && x != BLANK
    requires f != DEFER_NAME
    ensures Laid(p, f, m, b)
  {
    hide At, UnitAt, CodeStmts, AssignsInBlock, BlockOf;
    assert |p.sets| == |p.units|;
    MainParts(p, f, x);
    m :| At(p, 0, 1, IDefMethod(0, f, Some(m))) && m < |p.units|
      && p.units[m] == MethodSource([], [ExprStmt(Yield([]), false)]);
    DeclarationCode(p, x);
    b := CallCode(p, f, x);
    MethodCode(p, m);
    BlockCode(p, b, x);
    assert Resolve(Scope([x], []), x) == Some(Address(0, 0));
  }

  // ---------------------------------------------------------------- the run

  function MainFrameOf(self: Value): Frame {
    Frame(0, [], self, None, None, 0, 0)
  }

  function MethodFrame(self: Value, m: nat, b: nat): Frame {
    Frame(m, [], self, None, Some(BlockRef(b, 0)), 0, 23)
  }

  function BlockFrame(self: Value, b: nat, locals: Slots<Value>): Frame {
    Frame(b, locals, self, Some(0), Some(BlockRef(b, 0)), 1, 3)
  }

  /** A running state of the three frames' sets. */
  function Here(pc: nat, stack: seq<Value>, frames: seq<Frame>, defs: map<MethodKey, nat>, world: World): State {
    State(pc, stack, frames, defs, world, Running)
  }

  lemma Lines(p: Program, f: Name, m: nat, b: nat)
    requires Laid(p, f, m, b)
    ensures m < |p.sets| && b < |p.sets|
    ensures |p.sets[0].code| == 28 && |p.sets[m].code| == 4 && |p.sets[b].code| == 6
    ensures p.sets[m].params == ArgSet([], [])
    ensures At(p, 0, 0, IPutSelf) && At(p, 0, 1, IDefMethod(0, f, Some(m))) && At(p, 0, 5, IPutBool(false))
    ensures At(p, 0, 6, IBranchUnless(15))
    ensures At(p, 0, 15, IPutNull) && At(p, 0, 16, IPop) && At(p, 0, 17, IPutSelf)
    ensures At(p, 0, 18, ISend(f, 0, Some(b), Some(ArgSet([], []))))
    ensures At(p, m, 0, IPutSelf) && At(p, m, 1, IInvokeBlock(0)) && At(p, b, 0, IPutInt(2))
    ensures At(p, b, 2, ISetLocal(1, 0))
    ensures At(p, b, 5, ILeave) && At(p, m, 3, ILeave) && At(p, 0, 23, IPop) && At(p, 0, 24, IGetLocal(0, 0))
    ensures At(p, 0, 27, ILeave)
  {
    hide At;
    var lines := Listing(f, m, b);
    assert lines[0] == Line(0, 0, IPutSelf);
    assert lines[1] == Line(0, 1, IDefMethod(0, f, Some(m)));
    assert lines[2] == Line(0, 5, IPutBool(false));
    assert lines[3] == Line(0, 6, IBranchUnless(15));
    assert lines[4] == Line(0, 15, IPutNull);
    assert lines[5] == Line(0, 16, IPop);
    assert lines[6] == Line(0, 17, IPutSelf);
    assert lines[7] == Line(0, 18, ISend(f, 0, Some(b), Some(ArgSet([], []))));
    assert lines[8] == Line(m, 0, IPutSelf);
    assert lines[9] == Line(m, 1, IInvokeBlock(0));
    assert lines[10] == Line(b, 0, IPutInt(2));
    assert lines[11] == Line(b, 2, ISetLocal(1, 0));
    assert lines[12] == Line(b, 5, ILeave);
    assert lines[13] == Line(m, 3, ILeave);
    assert lines[14] == Line(0, 23, IPop);
    assert lines[15] == Line(0, 24, IGetLocal(0, 0));
    assert lines[16] == Line(0, 27, ILeave);
  }

  lemma Moves(p: Program, h: Host, l: Line, s: State, n: nat, u: State, t: State) returns (m: nat)
    requires Run(p.sets, h, s, n) == u && u.status == Running && |u.frames| > 0
    requires At(p, l.unit, l.pc, l.instr) && u.frames[|u.frames| - 1].unit == l.unit < |p.sets| && u.pc == l.pc
    requires Exec(p.sets, h, u, l.instr) == t
    ensures m == n + 1 && Run(p.sets, h, s, m) == t
  {
    hide Exec, Decode, Run, Iterate;
    RunSplit(p.sets, h, s, n, 1);
    RunOnce(p.sets, h, u);
    m := n + 1;
  }

  lemma Leaves(p: Program, h: Host, s: State, n: nat, u: State, t: State) returns (m: nat)
    requires Run(p.sets, h, s, n) == u && u.status == Running && |u.frames| > 1 && AtEnd(p.sets, u) && Leaving(u) == t
    ensures m == n + 1 && Run(p.sets, h, s, m) == t
  {
    hide Exec, Decode, Run, Iterate;
    RunSplit(p.sets, h, s, n, 1);
    RunOnce(p.sets, h, u);
    m := n + 1;
  }

  /** The instructions of the listing that call, store or read, in the states they are met in. */
  lemma ExecSend(p: Program, h: Host, f: Name, m: nat, b: nat, self: Value, defs: map<MethodKey, nat>, world: World)
    requires 0 < |p.sets| && m < |p.sets| && p.sets[m].params == ArgSet([], [])
    requires h.find(defs.Keys, self, f) == Defined(h.classOf(self)) && defs == map[(h.classOf(self), f) := m]
    ensures Exec(p.sets, h, Here(18, [self], [MainFrameOf(self)], defs, world),
                 ISend(f, 0, Some(b), Some(ArgSet([], []))))
            == Here(0, [self], [MainFrameOf(self), MethodFrame(self, m, b)], defs, world)
  {
    hide BindValues;
    BindNothing();
    assert [self][1..] == [];
    assert [MainFrameOf(self)] + [MethodFrame(self, m, b)] == [MainFrameOf(self), MethodFrame(self, m, b)];
  }

  lemma BindNothing()
    ensures BindValues(ArgSet([], []), Some(ArgSet([], [])), []) == Ok([])
  {
  }

  lemma ExecYield(p: Program, h: Host, m: nat, b: nat, self: Value, defs: map<MethodKey, nat>, world: World)
    requires m < |p.sets|
    ensures Exec(p.sets, h, Here(1, [self, self], [MainFrameOf(self), MethodFrame(self, m, b)], defs, world),
                 IInvokeBlock(0))
            == Here(0, [self, self], [MainFrameOf(self), MethodFrame(self, m, b), BlockFrame(self, b, [])], defs, world)
  {
    assert [self, self][2..] == [];
    var frames := [MainFrameOf(self), MethodFrame(self, m, b)];
    var u := Here(1, [self, self], frames, defs, world);
    assert u.frames[1].block == Some(BlockRef(b, 0)) && u.frames[1].ep.None?;
    var args := u.stack[2..];
    assert args == [] && seq(|args|, i requires 0 <= i < |args| => Some(args[i])) == [];
    assert YieldTo(u, 3, 0) == Enter(u, BlockFrame(self, b, []));
    assert frames + [BlockFrame(self, b, [])] == [MainFrameOf(self), MethodFrame(self, m, b), BlockFrame(self, b, [])];
  }

  lemma ExecAssign(p: Program, h: Host, m: nat, b: nat, self: Value, stack: seq<Value>, defs: map<MethodKey, nat>,
                   world: World)
    requires b < |p.sets|
    ensures
      var frames := [MainFrameOf(self), MethodFrame(self, m, b), BlockFrame(self, b, [])];
      && Climb(frames, 2, 1) == Some(0)
      && Exec(p.sets, h, Here(2, stack + [IntV(2)], frames, defs, world), ISetLocal(1, 0))
         == Here(5, stack + [IntV(2)],
                 [MainFrameOf(self), MethodFrame(self, m, b), BlockFrame(self, b, [Some(IntV(2))])], defs, world)
  {
    var frames := [MainFrameOf(self), MethodFrame(self, m, b), BlockFrame(self, b, [])];
    assert Climb(frames, 0, 0) == Some(0);
    assert Climb(frames, 2, 1) == Some(0);
    assert Fill([], 0, IntV(2)) == [Some(IntV(2))];
  }

  lemma ExecRead(p: Program, h: Host, self: Value, defs: map<MethodKey, nat>, world: World)
    requires |p.sets| > 0
    ensures Exec(p.sets, h, Here(24, [], [MainFrameOf(self)], defs, world), IGetLocal(0, 0))
      == Here(27, [NilV], [MainFrameOf(self)], defs, world)
  {
    assert Climb([MainFrameOf(self)], 0, 0) == Some(0);
  }

  /** The method is defined, the declaration is passed over. */
  lemma RunsToBranch(p: Program, h: Host, f: Name, m: nat, b: nat, self: Value, world: World) returns (n: nat)
    requires Laid(p, f, m, b)
    ensures Run(p.sets, h, Initial(0, self, world), n)
            == Here(6, [BoolV(false)], [MainFrameOf(self)], map[(h.classOf(self), f) := m], world)
  {
    hide Decode, Run, Exec, At, Laid;
    Lines(p, f, m, b);
    var s, main, defs := Initial(0, self, world), [MainFrameOf(self)], map[(h.classOf(self), f) := m];
    RunNothing(p.sets, h, s);
    ExecPush(p.sets, h, s, IPutSelf, self);
    n := Moves(p, h, Line(0, 0, IPutSelf), s, 0, s, Here(1, [self], main, map[], world));
    ExecPop(p.sets, h, Here(1, [self], main, map[], world), [], self);
    n := Moves(p, h, Line(0, 1, IDefMethod(0, f, Some(m))), s, n,
               Here(1, [self], main, map[], world), Here(5, [], main, defs, world));
    ExecPush(p.sets, h, Here(5, [], main, defs, world), IPutBool(false), BoolV(false));
    n := Moves(p, h, Line(0, 5, IPutBool(false)), s, n,
               Here(5, [], main, defs, world), Here(6, [BoolV(false)], main, defs, world));
  }

  lemma RunsToCall(p: Program, h: Host, f: Name, m: nat, b: nat, self: Value, world: World) returns (n: nat)
    requires Laid(p, f, m, b)
    ensures Run(p.sets, h, Initial(0, self, world), n)
            == Here(18, [self], [MainFrameOf(self)], map[(h.classOf(self), f) := m], world)
  {
    hide Decode, Run, Exec, At, Laid;
    Lines(p, f, m, b);
    var s, main, defs := Initial(0, self, world), [MainFrameOf(self)], map[(h.classOf(self), f) := m];
    n := RunsToBranch(p, h, f, m, b, self, world);
    ExecPop(p.sets, h, Here(6, [BoolV(false)], main, defs, world), [], BoolV(false));
    n := Moves(p, h, Line(0, 6, IBranchUnless(15)), s, n,
               Here(6, [BoolV(false)], main, defs, world), Here(15, [], main, defs, world));
    ExecPush(p.sets, h, Here(15, [], main, defs, world), IPutNull, NilV);
    n := Moves(p, h, Line(0, 15, IPutNull), s, n, Here(15, [], main, defs, world), Here(16, [NilV], main, defs, world));
    ExecPop(p.sets, h, Here(16, [NilV], main, defs, world), [], NilV);
    n := Moves(p, h, Line(0, 16, IPop), s, n, Here(16, [NilV], main, defs, world), Here(17, [], main, defs, world));
    ExecPush(p.sets, h, Here(17, [], main, defs, world), IPutSelf, self);
    n := Moves(p, h, Line(0, 17, IPutSelf), s, n, Here(17, [], main, defs, world), Here(18, [self], main, defs, world));
  }

  lemma RunsToMethod(p: Program, h: Host, f: Name, m: nat, b: nat, self: Value, world: World) returns (n: nat)
    requires Laid(p, f, m, b) && h.find({(h.classOf(self), f)}, self, f) == Defined(h.classOf(self))
    ensures Run(p.sets, h, Initial(0, self, world), n)
            == Here(1, [self, self], [MainFrameOf(self), MethodFrame(self, m, b)], map[(h.classOf(self), f) := m],
                    world)
  {
    hide Decode, Run, Exec, At, Laid;
    Lines(p, f, m, b);
    var s, defs := Initial(0, self, world), map[(h.classOf(self), f) := m];
    assert defs.Keys == {(h.classOf(self), f)};
    var called := [MainFrameOf(self), MethodFrame(self, m, b)];
    n := RunsToCall(p, h, f, m, b, self, world);
    ExecSend(p, h, f, m, b, self, defs, world);
    n := Moves(p, h, Line(0, 18, ISend(f, 0, Some(b), Some(ArgSet([], [])))), s, n,
               Here(18, [self], [MainFrameOf(self)], defs, world), Here(0, [self], called, defs, world));
    ExecPush(p.sets, h, Here(0, [self], called, defs, world), IPutSelf, self);
    n := Moves(p, h, Line(m, 0, IPutSelf), s, n,
               Here(0, [self], called, defs, world), Here(1, [self, self], called, defs, world));
  }

  /** Into the method, and from it into the block, up to the assignment. */
  lemma RunsToBlock(p: Program, h: Host, f: Name, m: nat, b: nat, self: Value, world: World) returns (n: nat)
    requires Laid(p, f, m, b) && h.find({(h.classOf(self), f)}, self, f) == Defined(h.classOf(self))
    ensures
      Run(p.sets, h, Initial(0, self, world), n)
      == Here(2, [self, self] + [IntV(2)], [MainFrameOf(self), MethodFrame(self, m, b), BlockFrame(self, b, [])],
              map[(h.classOf(self), f) := m], world)
  {
    hide Decode, Run, Exec, At, Laid;
    Lines(p, f, m, b);
    var s, defs := Initial(0, self, world), map[(h.classOf(self), f) := m];
    var called := [MainFrameOf(self), MethodFrame(self, m, b)];
    var entered := [MainFrameOf(self), MethodFrame(self, m, b), BlockFrame(self, b, [])];
    n := RunsToMethod(p, h, f, m, b, self, world);
    ExecYield(p, h, m, b, self, defs, world);
    n := Moves(p, h, Line(m, 1, IInvokeBlock(0)), s, n,
               Here(1, [self, self], called, defs, world), Here(0, [self, self], entered, defs, world));
    ExecPush(p.sets, h, Here(0, [self, self], entered, defs, world), IPutInt(2), IntV(2));
    n := Moves(p, h, Line(b, 0, IPutInt(2)), s, n,
               Here(0, [self, self], entered, defs, world), Here(2, [self, self] + [IntV(2)], entered, defs, world));
  }

  /** The assignment goes into the block's frame. */
  lemma RunsOut(p: Program, h: Host, f: Name, m: nat, b: nat, self: Value, world: World) returns (n: nat)
    requires Laid(p, f, m, b) && h.find({(h.classOf(self), f)}, self, f) == Defined(h.classOf(self))
    ensures Run(p.sets, h, Initial(0, self, world), n)
            == Here(6, [self, self] + [IntV(2)],
                    [MainFrameOf(self), MethodFrame(self, m, b), BlockFrame(self, b, [Some(IntV(2))])],
                      map[(h.classOf(self), f) := m], world)
  {
    hide Decode, Run, Exec, At, Laid;
    Lines(p, f, m, b);
    var s, defs := Initial(0, self, world), map[(h.classOf(self), f) := m];
    var before := [MainFrameOf(self), MethodFrame(self, m, b), BlockFrame(self, b, [])];
    var stored := [MainFrameOf(self), MethodFrame(self, m, b), BlockFrame(self, b, [Some(IntV(2))])];
    var high := [self, self] + [IntV(2)];
    n := RunsToBlock(p, h, f, m, b, self, world);
    ExecAssign(p, h, m, b, self, [self, self], defs, world);
    n := Moves(p, h, Line(b, 2, ISetLocal(1, 0)), s, n, Here(2, high, before, defs, world),
               Here(5, high, stored, defs, world));
    ExecStay(p.sets, h, Here(5, high, stored, defs, world));
    n := Moves(p, h, Line(b, 5, ILeave), s, n, Here(5, high, stored, defs, world), Here(6, high, stored, defs, world));
  }

  /** And is gone with it. */
  lemma RunsBack(p: Program, h: Host, f: Name, m: nat, b: nat, self: Value, world: World) returns (n: nat)
    requires Laid(p, f, m, b) && h.find({(h.classOf(self), f)}, self, f) == Defined(h.classOf(self))
    ensures Run(p.sets, h, Initial(0, self, world), n)
      == Here(23, [IntV(2)], [MainFrameOf(self)], map[(h.classOf(self), f) := m], world)
  {
    hide Decode, Run, Exec, At, Laid;
    Lines(p, f, m, b);
    var s, defs := Initial(0, self, world), map[(h.classOf(self), f) := m];
    var called := [MainFrameOf(self), MethodFrame(self, m, b)];
    var stored := [MainFrameOf(self), MethodFrame(self, m, b), BlockFrame(self, b, [Some(IntV(2))])];
    var high := [self, self] + [IntV(2)];
    n := RunsOut(p, h, f, m, b, self, world);
    assert high[..1] + [IntV(2)] == [self, IntV(2)] && stored[..2] == called;
    n := Leaves(p, h, s, n, Here(6, high, stored, defs, world), Here(3, [self, IntV(2)], called, defs, world));
    ExecStay(p.sets, h, Here(3, [self, IntV(2)], called, defs, world));
    n := Moves(p, h, Line(m, 3, ILeave), s, n,
               Here(3, [self, IntV(2)], called, defs, world), Here(4, [self, IntV(2)], called, defs, world));
    assert [self, IntV(2)][..0] + [IntV(2)] == [IntV(2)] && called[..1] == [MainFrameOf(self)];
    n := Leaves(p, h, s, n, Here(4, [self, IntV(2)], called, defs, world),
                Here(23, [IntV(2)], [MainFrameOf(self)], defs, world));
  }

  /** After the call the variable is nil. */
  lemma RunsToEnd(p: Program, h: Host, f: Name, m: nat, b: nat, self: Value, world: World) returns (n: nat)
    requires Laid(p, f, m, b) && h.find({(h.classOf(self), f)}, self, f) == Defined(h.classOf(self))
    ensures Run(p.sets, h, Initial(0, self, world), n)
      == Here(28, [NilV], [MainFrameOf(self)], map[(h.classOf(self), f) := m], world)
  {
    hide Decode, Run, Exec, At, Laid;
    Lines(p, f, m, b);
    var s, main, defs := Initial(0, self, world), [MainFrameOf(self)], map[(h.classOf(self), f) := m];
    n := RunsBack(p, h, f, m, b, self, world);
    ExecPop(p.sets, h, Here(23, [IntV(2)], main, defs, world), [], IntV(2));
    n := Moves(p, h, Line(0, 23, IPop), s, n, Here(23, [IntV(2)], main, defs, world), Here(24, [], main, defs, world));
    ExecRead(p, h, self, defs, world);
    n := Moves(p, h, Line(0, 24, IGetLocal(0, 0)), s, n, Here(24, [], main, defs, world),
               Here(27, [NilV], main, defs, world));
    ExecStay(p.sets, h, Here(27, [NilV], main, defs, world));
    n := Moves(p, h, Line(0, 27, ILeave), s, n, Here(27, [NilV], main, defs, world),
               Here(28, [NilV], main, defs, world));
  }

  // ------------------------------------------------------------ the witness

  /** The method's body is evaluated in its own activation, the block's in another one inside. */
  lemma YieldedBlock(h: Host, fuel: nat, x: Name, st: Ev.EState)
    requires fuel >= 1 && x != BLANK && |st.envs| == 2 && st.envs[0] == Ev.InitialEnv(st.envs[0].self)
    requires st.envs[1] == Ev.Env(map[], st.envs[0].self, None, Some(Ev.BlockVal([], BlockOf(x).body, [[x]], 0)))
    ensures Ev.YieldCall(h, fuel, st, []) == Ev.Undefined
  {
    hide Ev.EvalStmts;
    var env := Ev.Env(map[], st.envs[0].self, Some(0), Some(Ev.BlockVal([], BlockOf(x).body, [[x]], 0)));
    assert Ev.Home(st.envs, 1) == Some(1);
    assert Ev.Bound([], Ev.SomeAll([]), 0) == map[];
    assert Distinct([], 0) == [];
    BlockAssigns(h, fuel - 1, x, Ev.PushEnv(st, env));
  }

  lemma BlockAssigns(h: Host, fuel: nat, x: Name, st: Ev.EState)
    requires x != BLANK && |st.envs| == 3 && st.envs[2].ep == Some(0) && x !in st.envs[0].vars
    ensures Ev.EvalStmts(h, fuel, st, BlockOf(x).body, 1, Scope([], [[x]])) == Ev.Undefined
  {
    var s, sc := BlockOf(x).body[0], Scope([], [[x]]);
    assert Ev.EvalStmts(h, fuel, st, [s], 0, sc) == Ev.Done(st) && AfterStmts([s], 0, sc) == sc;
    assert ResolveOuter([[x]], x) == Some(Address(0, 0)) && Resolve(sc, x) == Some(Address(1, 0));
    assert Ev.Outward(st.envs, 0, 0) == Some(0) && Ev.Outward(st.envs, 2, 1) == Some(0);
    assert Ev.Store(st, sc, x, IntV(2)) == Ev.Undefined;
    assert DeclareAll(sc, [x], 0) == sc && DeclareAll(sc, [x], 1) == sc;
    assert Ev.StoreAll(st, sc, [x], 0, IntV(2)) == Ev.Done(st);
    assert Ev.StoreAll(st, sc, [x], 1, IntV(2)) == Ev.Undefined;
    assert Ev.Eval(h, fuel, st, s.e, sc) == Ev.Undefined;
  }

  lemma MethodYields(h: Host, fuel: nat, x: Name, st: Ev.EState)
    requires fuel >= 1 && x != BLANK && |st.envs| == 2 && st.envs[0] == Ev.InitialEnv(st.envs[0].self)
    requires st.envs[1] == Ev.Env(map[], st.envs[0].self, None, Some(Ev.BlockVal([], BlockOf(x).body, [[x]], 0)))
    ensures Ev.RunMethod(h, fuel, st, Ev.MethodDef([], [ExprStmt(Yield([]), false)])) == Ev.Undefined
  {
    hide Ev.YieldCall, BlockOf;
    var s := ExprStmt(Yield([]), false);
    assert Ev.Defaults(h, fuel, st, [], 0) == Ev.Done(st) && AfterParams([], 0, EMPTY) == EMPTY;
    assert Ev.EvalAll(h, fuel, st, [], 0, EMPTY) == Ev.Outs([], st);
    YieldedBlock(h, fuel, x, st);
    assert Ev.Eval(h, fuel, st, Yield([]), EMPTY) == Ev.Undefined;
    assert Ev.EvalStmt(h, fuel, st, s, EMPTY) == Ev.Undefined;
    assert Ev.EvalStmts(h, fuel, st, [s], 0, EMPTY) == Ev.Done(st) && AfterStmts([s], 0, EMPTY) == EMPTY;
    assert Ev.EvalStmts(h, fuel, st, [s], 1, EMPTY) == Ev.Undefined;
  }

  lemma CallUndefined(h: Host, fuel: nat, f: Name, x: Name, st: Ev.EState)
    requires fuel >= 2 && x != BLANK && |st.envs| == 1 && st.envs[0] == Ev.InitialEnv(st.envs[0].self)
    requires
      var self := st.envs[0].self;
      var key := (h.classOf(self), f);
      st.defs == map[key := Ev.MethodDef([], [ExprStmt(Yield([]), false)])]
        && h.find({key}, self, f) == Defined(h.classOf(self))
    ensures Ev.EvalStmt(h, fuel, st, CallWithBlock(f, x), Scope([x], [])) == Ev.Undefined
  {
    hide Ev.RunMethod, BlockOf, BindValues;
    var self, sc := st.envs[0].self, Scope([x], []);
    var b := Some(Ev.BlockVal([], BlockOf(x).body, [[x]], 0));
    assert st.defs.Keys == {(h.classOf(self), f)};
    BindNothing();
    assert ParamSetOf([]) == ArgSet([], []) && ArgSetOf([]) == ArgSet([], []);
    assert Ev.Bound([], [], 0) == map[];
    MethodYields(h, fuel - 1, x, Ev.PushEnv(st, Ev.Env(map[], self, None, b)));
    assert Ev.Call(h, fuel, st, self, f, [], Some(ArgSet([], [])), b) == Ev.Undefined;
    assert Ev.Eval(h, fuel, st, SelfRef, sc) == Ev.Val(self, st)
        && Ev.EvalAll(h, fuel, st, [], 0, sc) == Ev.Outs([], st);
    BlockParts(x);
    assert AfterAll([], 0, sc) == sc && [sc.cur] + sc.outer == [[x]];
  }

  lemma DeclarationPassed(h: Host, fuel: nat, x: Name, st: Ev.EState)
    requires |st.envs| > 0
    ensures Ev.EvalStmt(h, fuel, st, Declaration(x), EMPTY) == Ev.Done(st)
  {
    var e := If([DeclaringArm(x)], false, []);
    assert AfterArms(e.arms, 0, EMPTY) == EMPTY;
    assert Ev.Eval(h, fuel, st, BoolLit(false), EMPTY) == Ev.Val(BoolV(false), st);
    assert Ev.EvalArms(h, fuel, st, e, 1, EMPTY) == Ev.Val(NilV, st);
    assert Ev.EvalArms(h, fuel, st, e, 0, EMPTY) == Ev.Val(NilV, st);
  }

  /** The evaluator gives the program no meaning. */
  lemma NoMeaning(h: Host, fuel: nat, f: Name, x: Name, self: Value, world: World)
    requires x != BLANK && f != DEFER_NAME && fuel >= 2
    requires h.find({(h.classOf(self), f)}, self, f) == Defined(h.classOf(self))
    ensures Ev.EvalProgram(h, fuel, self, world, AssignsInBlock(f, x)) == Ev.Undefined
  {
    hide Ev.EvalStmt, Declaration, CallWithBlock;
    var body := AssignsInBlock(f, x);
    var st := Ev.EState([Ev.InitialEnv(self)], map[], world);
    var defined := st.(defs := map[(h.classOf(self), f) := Ev.MethodDef([], [ExprStmt(Yield([]), false)])]);
    MainLayout(f, x);
    assert Ev.EvalStmts(h, fuel, st, body, 0, EMPTY) == Ev.Done(st);
    Defines(h, fuel, f, st);
    assert Ev.EvalStmts(h, fuel, st, body, 1, EMPTY) == Ev.Done(defined);
    DeclarationPassed(h, fuel, x, defined);
    assert Ev.EvalStmts(h, fuel, st, body, 2, EMPTY) == Ev.Done(defined);
    CallUndefined(h, fuel, f, x, defined);
    assert Ev.EvalStmts(h, fuel, st, body, 3, EMPTY) == Ev.Undefined;
    assert Ev.EvalStmts(h, fuel, st, body, 4, EMPTY) == Ev.Undefined;
  }

  lemma Defines(h: Host, fuel: nat, f: Name, st: Ev.EState)
    requires |st.envs| > 0
    ensures Ev.EvalStmt(h, fuel, st, YieldingMethod(f), EMPTY)
            == Ev.Done(st.(defs :=
                           st.defs[(h.classOf(Ev.Current(st).self), f) :=
                                   Ev.MethodDef([], [ExprStmt(Yield([]), false)])]))
  {
  }

  /** Well formed, compiled and run: the program ends, and the value of x is nil, although
      the block has assigned 2 to it.  On the way the machine comes to the assignment
      through depth 1 with the slot of x unset in the main frame. */
  lemma AssignmentIsLost(h: Host, f: Name, x: Name, self: Value, world: World) returns (n: nat, end: nat)
    requires x != BLANK && f != DEFER_NAME && h.find({(h.classOf(self), f)}, self, f) == Defined(h.classOf(self))
    ensures WfUnit(MainSource(AssignsInBlock(f, x)))
    ensures forall fuel: nat {:trigger Ev.EvalProgram(h, fuel, self, world, AssignsInBlock(f, x))} ::
              fuel >= 2 ==> Ev.EvalProgram(h, fuel, self, world, AssignsInBlock(f, x)) == Ev.Undefined
    ensures
      var p := Pipeline.Generated(AssignsInBlock(f, x));
      var u := Run(p.sets, h, Initial(0, self, world), n);
      && |u.frames| == 3 && At(p, u.frames[2].unit, u.pc, ISetLocal(1, 0))
      && Climb(u.frames, 2, 1) == Some(0) && Slot(u.frames[0].locals, 0) == None
    ensures
      var p := Pipeline.Generated(AssignsInBlock(f, x));
      var t := Run(p.sets, h, Initial(0, self, world), end);
      Halted(p.sets, t) && t.status == Running && t.stack == [NilV]
  {
    hide Run, At, AssignsInBlock, Compiled, Relation.Sound, Patching.FinalOf, WfUnit, Laid, Ev.EvalProgram;
    ProgramWf(f, x);
    var p := Pipeline.Generated(AssignsInBlock(f, x));
    assert AssignsInBlock(f, x) != [] by { FourStatements(f, x); }
    Patching.GeneratedSound(AssignsInBlock(f, x));
    assert Compiled(p) by { SoundCompiled(p); }
    var m, b := CodeFound(p, f, x);
    Lines(p, f, m, b);
    n := RunsToBlock(p, h, f, m, b, self, world);
    ExecAssign(p, h, m, b, self, [self, self], map[(h.classOf(self), f) := m], world);
    end := RunsToEnd(p, h, f, m, b, self, world);
    forall fuel: nat | fuel >= 2 ensures Ev.EvalProgram(h, fuel, self, world, AssignsInBlock(f, x)) == Ev.Undefined {
      NoMeaning(h, fuel, f, x, self, world);
    }
  }

  lemma FourStatements(f: Name, x: Name)
    ensures |AssignsInBlock(f, x)| == 4
  {
  }

  lemma SoundCompiled(p: Program)
    requires Relation.Sound(p)
    ensures Compiled(p)
  {
  }
}
