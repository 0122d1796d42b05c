/**
 Code generation as a function: what each method of the generator appends to
 which instruction set, which anchors it makes and where they are used
 (compiler/bytecode/expression_generation.go, statement_generation.go).
 Instruction sets and anchors, pointers in the original, are numbers here.
 */
module Emission {
  import opened Wrappers
  import opened Ast
  import opened Layout
  import opened Bytecode

  /** What `define` is given behind the opcode: a number, something for the
      constant pool, or an anchor. */
  datatype Operand = Num(n: int) | Item(c: Const) | Line(anchor: nat)

  /** A slot to be filled with the anchor's line. */
  datatype AnchorRef = AnchorRef(anchor: nat, unit: nat, index: nat)

  /** The anchors of the innermost loop of a scope. */
  datatype Anchors = Anchors(exit: nat, next: nat)

  /** What a set is compiled from, while lines are not known. */
  datatype Origin =
    | FromMain(body: seq<Stmt>)
    | FromMethod(params: seq<Param>, body: seq<Stmt>)
    | FromBlock(names: seq<Name>, body: seq<Stmt>, outer: seq<seq<Name>>, loop: Option<Anchors>)

  datatype Gen = Gen(
    sets: seq<InstructionSet>,     // every set made so far
    origins: seq<Origin>,
    lines: seq<Option<nat>>,       // the anchors; None: not yet defined
    refs: seq<AnchorRef>,          // instructionsWithAnchor
    finished: seq<nat>,            // instructionSets: the sets that are complete, in order
    argSets: nat)                  // how many argument sets were made: each is a new pointer

  // ------------------------------------------------------------------ define

  /** The position of c in the pool, where there is one. */
  function PoolIndex(consts: seq<Const>, c: Const): (i: nat)
    requires c in consts
    ensures i < |consts| && consts[i] == c && c !in consts[..i]
  {
    if consts[0] == c then 0
    else
      var i := PoolIndex(consts[1..], c) + 1;
      assert consts[..i] == [consts[0]] + consts[1..][..i - 1];
      i
  }

  /** SetConstant: an equal constant is used again. */
  function Interned(ins: InstructionSet, c: Const): (r: InstructionSet)
    ensures c in r.consts && ins.consts <= r.consts && r.code == ins.code && r.params == ins.params
  {
    if c in ins.consts then ins else ins.(consts := ins.consts + [c])
  }

  function WithOperand(ins: InstructionSet, o: Operand): InstructionSet {
    match o
    case Num(n) => ins.(code := ins.code + [n])
    case Item(c) => var r := Interned(ins, c); r.(code := r.code + [PoolIndex(r.consts, c)])
    case Line(_) => ins.(code := ins.code + [0])
  }

  function WithOperands(ins: InstructionSet, os: seq<Operand>, n: nat): InstructionSet
    requires n <= |os|
  {
    if n == 0 then ins else WithOperand(WithOperands(ins, os, n - 1), os[n - 1])
  }

  /** An instruction set with one more instruction. */
  function Defined(ins: InstructionSet, op: int, os: seq<Operand>): InstructionSet {
    WithOperands(ins.(code := ins.code + [op]), os, |os|)
  }

  function Emit(g: Gen, k: nat, op: int, os: seq<Operand>): Gen {
    if k < |g.sets| then g.(sets := g.sets[k := Defined(g.sets[k], op, os)]) else g
  }

  /** A jump or branch to an anchor. */
  function EmitTo(g: Gen, k: nat, op: int, anchor: nat): Gen {
    Emit(g, k, op, [Line(anchor)]).(refs := g.refs + [AnchorRef(anchor, k, Here(g, k) + 1)])
  }

  /** is.Count. */
  function Here(g: Gen, k: nat): nat {
    if k < |g.sets| then |g.sets[k].code| else 0
  }

  /** A new anchor, with no line yet or with the given one. */
  function NewAnchor(g: Gen, line: Option<nat>): Gen {
    g.(lines := g.lines + [line])
  }

  function DefineAnchor(g: Gen, a: nat, line: nat): Gen {
    if a < |g.lines| then g.(lines := g.lines[a := Some(line)]) else g
  }

  function NewSet(g: Gen, origin: Origin, params: ArgSet): Gen {
    g.(sets := g.sets + [InstructionSet([], [], params)], origins := g.origins + [origin])
  }

  /** endInstructions, and the set joins the list of complete sets. */
  function Finish(g: Gen, k: nat): Gen {
    var h := Emit(g, k, LEAVE, []);
    h.(finished := h.finished + [k])
  }

  // ------------------------------------------------------------ expressions

  function SetItem(unit: Option<nat>): Const {
    if unit.Some? then SetConst(unit.value) else NilSetConst
  }

  function BranchOp(conj: bool): int {
    if conj then BRANCH_UNLESS else BRANCH_IF
  }

  function EmitOperator(g: Gen, k: nat, op: Name): Gen {
    var i := OperatorInstr(op);
    Emit(g, k, if i.IArith? then i.op else BINARY_OPERATOR, [Item(NameConst(op))])
  }

  /** One variable of an assignment; sc is the scope before it. */
  function EmitStore(g: Gen, k: nat, vars: seq<Name>, i: nat, sc: Scope): Gen
    requires i < |vars|
  {
    var a := Resolve(Declare(sc, vars[i]), vars[i]);
    var stored := if vars[i] == BLANK || a.None? then g
      else Emit(g, k, SET_LOCAL, [Num(a.value.depth), Num(a.value.index)]);
    if i != |vars| - 1 then Emit(stored, k, POP, []) else stored
  }

  function EmitStores(g: Gen, k: nat, vars: seq<Name>, n: nat, sc: Scope): Gen
    requires n <= |vars|
  {
    if n == 0 then g else EmitStore(EmitStores(g, k, vars, n - 1, sc), k, vars, n - 1, DeclareAll(sc, vars, n - 1))
  }

  function EmitExpr(g: Gen, k: nat, e: Expr, sc: Scope, loop: Option<Anchors>): Gen
    decreases e, 0
  {
    match e
    case IntLit(n) => Emit(g, k, PUT_INT, [Num(n)])
    case StrLit(s) => Emit(g, k, PUT_STRING, [Item(StrConst(s))])
    case BoolLit(b) => Emit(g, k, if b then PUT_TRUE else PUT_FALSE, [])
    case NilLit => Emit(g, k, PUT_NULL, [])
    case SelfRef => Emit(g, k, PUT_SELF, [])
    case BlockGiven => Emit(g, k, HAS_BLOCK, [])
    case ArrayLit(elems) => Emit(EmitAll(g, k, elems, |elems|, sc, loop), k, NEW_ARRAY, [Num(|elems|)])
    case Ident(x) =>
      (match Resolve(sc, x)
       case Some(a) => Emit(g, k, GET_LOCAL, [Num(a.depth), Num(a.index)])
       case None => Emit(Emit(g, k, PUT_SELF, []), k, SEND,
                         [Item(NameConst(x)), Num(0), Item(NilConst), Item(NilConst)]))
    case Assign(vars, value) =>
      var g1 := EmitExpr(g, k, value, sc, loop);
      var g2 := if |vars| > 1 then Emit(g1, k, EXPAND_ARRAY, [Num(|vars|)]) else g1;
      EmitStores(g2, k, vars, |vars|, After(value, sc))
    case Logic(conj, l, r) =>
      var end := |g.lines|;
      var g1 := EmitExpr(NewAnchor(g, None), k, l, sc, loop);
      var g2 := EmitTo(Emit(g1, k, DUP, []), k, BranchOp(conj), end);
      var g3 := EmitExpr(Emit(g2, k, POP, []), k, r, After(l, sc), loop);
      DefineAnchor(g3, end, Here(g3, k))
    case Infix(op, l, r) =>
      EmitOperator(EmitExpr(EmitExpr(g, k, l, sc, loop), k, r, After(l, sc), loop), k, op)
    case Not(a) =>
      Emit(EmitExpr(g, k, a, sc, loop), k, SEND, [Item(NameConst(BANG)), Num(0), Item(NilConst), Item(NilConst)])
    case Minus(a) =>
      Emit(EmitExpr(Emit(g, k, PUT_INT, [Num(0)]), k, a, sc, loop), k, SEND,
           [Item(NameConst(MINUS_NAME)), Num(1), Item(NilConst), Item(NilConst)])
    case Plus(a) => EmitExpr(g, k, a, sc, loop)
    case If(arms, hasElse, alt) =>
      var last := |g.lines|;
      var g1 := EmitArms(NewAnchor(g, None), k, arms, |arms|, sc, loop, last);
      var sc' := AfterArms(arms, |arms|, sc);
      var g2 := if hasElse then EmitStmts(g1, k, alt, |alt|, sc', loop) else Emit(g1, k, PUT_NULL, []);
      DefineAnchor(g2, last, Here(g2, k))
    case Yield(args) =>
      Emit(EmitAll(Emit(g, k, PUT_SELF, []), k, args, |args|, sc, loop), k, INVOKE_BLOCK, [Num(|args|)])
    case Pair(_, v) => EmitExpr(g, k, v, sc, loop)
    case Call(recv, name, args, block) =>
      var g0 := g.(argSets := g.argSets + 1);
      var sc' := After(recv, sc);
      var g2 := EmitAll(EmitExpr(g0, k, recv, sc, loop), k, args, |args|, sc', loop);
      var after := AfterAll(args, |args|, sc');
      var unit := if block.Some? then Some(|g2.sets|) else None;
      var g3 := if block.Some? then EmitBlock(g2, block.value, [after.cur] + after.outer, loop) else g2;
      if name == DEFER_NAME then Emit(g3, k, DEFER, [Num(|args|), Item(SetItem(unit))])
      else Emit(g3, k, SEND,
                [Item(NameConst(name)), Num(|args|), Item(SetItem(unit)), Item(ArgsConst(g.argSets, ArgSetOf(args)))])
  }

  /** compileBlockArgExpression: a set of its own, with a table one level deeper. */
  function EmitBlock(g: Gen, b: BlockLit, outer: seq<seq<Name>>, loop: Option<Anchors>): Gen
    decreases b, 0
  {
    var u := |g.sets|;
    var g1 := NewSet(g, FromBlock(b.params, b.body, outer, loop), ArgSet([], []));
    Finish(EmitStmts(g1, u, b.body, |b.body|, BlockScope(b.params, outer), loop), u)
  }

  function EmitAll(g: Gen, k: nat, es: seq<Expr>, n: nat, sc: Scope, loop: Option<Anchors>): Gen
    requires n <= |es|
    decreases es, n
  {
    if n == 0 then g else EmitExpr(EmitAll(g, k, es, n - 1, sc, loop), k, es[n - 1], AfterAll(es, n - 1, sc), loop)
  }

  /** One condition and consequence, and the jump behind it. */
  function EmitArm(g: Gen, k: nat, arm: Arm, sc: Scope, loop: Option<Anchors>, last: nat): Gen
    decreases arm, 0
  {
    var over := |g.lines|;
    var g1 := EmitTo(EmitExpr(NewAnchor(g, None), k, arm.cond, sc, loop), k, BRANCH_UNLESS, over);
    var g2 := if arm.body == [] then Emit(g1, k, PUT_NULL, [])
              else EmitStmts(g1, k, arm.body, |arm.body|, After(arm.cond, sc), loop);
    var g3 := EmitTo(g2, k, JUMP, last);
    DefineAnchor(g3, over, Here(g3, k))
  }

  function EmitArms(g: Gen, k: nat, arms: seq<Arm>, n: nat, sc: Scope, loop: Option<Anchors>, last: nat): Gen
    requires n <= |arms|
    decreases arms, n
  {
    if n == 0 then g
    else EmitArm(EmitArms(g, k, arms, n - 1, sc, loop, last), k, arms[n - 1], AfterArms(arms, n - 1, sc), loop, last)
  }

  // ------------------------------------------------------------- statements

  predicate IsBlockSet(g: Gen, k: nat) {
    k < |g.origins| && g.origins[k].FromBlock?
  }

  /** break and continue: in a loop a jump to its anchor, behind `out` in a block. */
  function EmitJumpOut(g: Gen, k: nat, out: int, target: Option<nat>): Gen {
    match target
    case None => Emit(g, k, out, [])
    case Some(a) => EmitTo(if IsBlockSet(g, k) then Emit(g, k, out, []) else g, k, JUMP, a)
  }

  function EmitStmt(g: Gen, k: nat, s: Stmt, sc: Scope, loop: Option<Anchors>): Gen
    decreases s, 1
  {
    match s
    case ExprStmt(e, isStmt) =>
      var g1 := EmitExpr(g, k, e, sc, loop);
      if isStmt then Emit(g1, k, POP, []) else g1
    case Return(e) => Emit(EmitExpr(g, k, e, sc, loop), k, LEAVE, [])
    case While(cond, body) =>
      var next, exit, start := |g.lines|, |g.lines| + 1, |g.lines| + 2;
      var g1 := EmitTo(NewAnchor(NewAnchor(g, None), None), k, JUMP, next);
      var g2 := EmitStmts(NewAnchor(g1, Some(Here(g1, k))), k, body, |body|, sc, Some(Anchors(exit, next)));
      var g3 := EmitExpr(DefineAnchor(g2, next, Here(g2, k)), k, cond, AfterStmts(body, |body|, sc), loop);
      var g4 := EmitTo(g3, k, BRANCH_IF, start);
      DefineAnchor(g4, exit, Here(g4, k))
    case Continue => EmitJumpOut(g, k, LEAVE, if loop.Some? then Some(loop.value.next) else None)
    case Break => EmitJumpOut(g, k, BREAK, if loop.Some? then Some(loop.value.exit) else None)
    case Def(name, params, body) =>
      var u := |g.sets|;
      var g1 := EmitMethod(g, s);
      Emit(Emit(g1, k, PUT_SELF, []), k, DEF_METHOD, [Num(|params|), Item(NameConst(name)), Item(SetConst(u))])
  }

  function EmitStmts(g: Gen, k: nat, ss: seq<Stmt>, n: nat, sc: Scope, loop: Option<Anchors>): Gen
    requires n <= |ss|
    decreases ss, n
  {
    if n == 0 then g
    else EmitStmt(EmitStmts(g, k, ss, n - 1, sc, loop), k, ss[n - 1], AfterStmts(ss, n - 1, sc), loop)
  }

  /** The ArgTypes of a method before its parameters are looked at. */
  function BlankArgs(n: nat): ArgSet {
    ArgSet(seq(n, i => BLANK), seq(n, i => NormalArg))
  }

  /** setArg. */
  function SetArg(g: Gen, k: nat, i: nat, p: Param): Gen {
    if k < |g.sets| && i < |g.sets[k].params.names| && i < |g.sets[k].params.types| then
      var a := g.sets[k].params;
      g.(sets := g.sets[k := g.sets[k].(params := ArgSet(a.names[i := p.name], a.types[i := ParamKindOf(p)]))])
    else g
  }

  function EmitOptional(g: Gen, k: nat, x: Name, sc: Scope): Gen {
    match Resolve(sc, x)
    case Some(a) => Emit(g, k, SET_OPTIONAL, [Num(a.depth), Num(a.index)])
    case None => g
  }

  /** What parameter q compiles to; sc is the scope before it. */
  function EmitParam(g: Gen, k: nat, q: Param, sc: Scope): Gen
    decreases q, 0
  {
    match q
    case DefaultParam(x, d) =>
      var g1 := EmitExpr(g, k, d, sc, None);
      if x == BLANK then g1 else EmitOptional(g1, k, x, AfterParam(q, sc))
    case KeyDefaultParam(x, d) => EmitOptional(EmitExpr(g, k, d, Declare(sc, x), None), k, x, Declare(sc, x))
    case RestParam(x) => EmitOptional(Emit(g, k, NEW_ARRAY, [Num(0)]), k, x, Declare(sc, x))
    case _ => g
  }

  function EmitParams(g: Gen, k: nat, ps: seq<Param>, n: nat): Gen
    requires n <= |ps|
    decreases ps, n
  {
    if n == 0 then g
    else SetArg(EmitParam(EmitParams(g, k, ps, n - 1), k, ps[n - 1], AfterParams(ps, n - 1, EMPTY)), k, n - 1,
                ps[n - 1])
  }

  /** compileDefStmt's own set: parameter defaults, then the body. */
  function EmitMethod(g: Gen, s: Stmt): Gen
    requires s.Def?
    decreases s, 0
  {
    var u := |g.sets|;
    var n := |s.params|;
    var g1 := EmitParams(NewSet(g, FromMethod(s.params, s.body), BlankArgs(n)), u, s.params, n);
    var g2 := if s.body == [] then Emit(g1, u, PUT_NULL, [])
              else EmitStmts(g1, u, s.body, |s.body|, AfterParams(s.params, n, EMPTY), None);
    Finish(g2, u)
  }

  const NOTHING := Gen([], [], [], [], [], 0)

  /** compileStatements; a program with no statements makes no set. */
  function EmitProgram(g: Gen, body: seq<Stmt>): Gen {
    if body == [] then g
    else
      var u := |g.sets|;
      Finish(EmitStmts(NewSet(g, FromMain(body), ArgSet([], [])), u, body, |body|, EMPTY, None), u)
  }
}
