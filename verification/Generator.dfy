/**
 The code generator (compiler/bytecode/generator.go and the two generation
 files beside it): one recursive pass over the tree that appends to instruction
 sets, makes anchors and notes where they are used; then the patching loop and
 the jump-threading pass.
 */
module Generators {
  import opened Wrappers
  import opened Ast
  import opened Layout
  import opened Bytecode
  import opened WellFormed
  import opened Relation
  import opened Boundaries
  import opened Elide
  import opened Optimised
  import opened Alignment
  import opened Emission
  import opened Generation
  import opened Patching
  import opened LocalTables

  /** The anchors `break` and `continue` go to in the scope being compiled. */
  class LoopScope {
    var anchors: Option<Anchors>

    constructor ()
      ensures anchors == None
    {
      anchors := None;
    }
  }

  datatype SetType = ProgramSet | MethodSet | BlockSet

  class Generator {
    var sets: seq<InstructionSet>
    var types: seq<SetType>              // is.Type
    ghost var origins: seq<Origin>       // what each set is compiled from
    var lines: seq<Option<nat>>
    var refs: seq<AnchorRef>
    var finished: seq<nat>
    var argSets: nat

    ghost function State(): Gen
      reads this
    {
      Gen(sets, origins, lines, refs, finished, argSets)
    }

    ghost predicate Typed()
      reads this
    {
      && |types| == |origins|
      && forall k {:trigger types[k]} {:trigger origins[k]} :: 0 <= k < |types| ==>
        (types[k] == BlockSet <==> origins[k].FromBlock?)
    }

    constructor ()
      ensures State() == NOTHING && Typed()
    {
      sets, types, lines, refs, finished, argSets := [], [], [], [], [], 0;
      origins := [];
    }

    // ---------------------------------------------------------------- define

    method AddConstant(k: nat, c: Const) returns (i: nat)
      requires k < |sets|
      modifies `sets
      ensures sets == old(sets)[k := Interned(old(sets[k]), c)] && i == PoolIndex(sets[k].consts, c)
    {
      var consts := sets[k].consts;
      i := 0;
      while i < |consts|
        invariant i <= |consts| && sets == old(sets) && c !in consts[..i]
      {
        if consts[i] == c {
          FirstIndex(consts, c, i);
          assert sets == sets[k := sets[k]];
          return;
        }
        i := i + 1;
      }
      assert consts[..i] == consts;
      FirstIndex(consts + [c], c, i);
      sets := sets[k := sets[k].(consts := consts + [c])];
    }

    method Define(k: nat, op: int, os: seq<Operand>) returns (ref: Option<AnchorRef>)
      requires k < |sets|
      modifies `sets
      ensures sets == old(sets)[k := Defined(old(sets[k]), op, os)]
      ensures |os| == 1 && os[0].Line? ==> ref == Some(AnchorRef(os[0].anchor, k, |old(sets[k].code)| + 1))
    {
      ref := None;
      sets := sets[k := sets[k].(code := sets[k].code + [op])];
      ghost var start := sets[k];
      var i := 0;
      while i < |os|
        invariant i <= |os| && |sets| == |old(sets)|
        invariant sets == old(sets)[k := WithOperands(start, os, i)]
        invariant i == 0 ==> sets[k] == start
        invariant |os| == 1 && os[0].Line? && i == 1 ==>
          ref == Some(AnchorRef(os[0].anchor, k, |old(sets[k].code)| + 1))
      {
        match os[i] {
          case Num(n) => sets := sets[k := sets[k].(code := sets[k].code + [n])];
          case Line(a) =>
            ref := Some(AnchorRef(a, k, |sets[k].code|));
            sets := sets[k := sets[k].(code := sets[k].code + [0])];
          case Item(c) =>
            var at := AddConstant(k, c);
            sets := sets[k := sets[k].(code := sets[k].code + [at])];
        }
        i := i + 1;
      }
    }

    method Put(k: nat, op: int, os: seq<Operand>)
      requires k < |sets|
      modifies `sets
      ensures State() == Emit(old(State()), k, op, os) && |sets| == |old(sets)|
    {
      var _ := Define(k, op, os);
    }

    /** define with an anchor, and the reference is remembered. */
    method PutTo(k: nat, op: int, anchor: nat)
      requires k < |sets|
      modifies `sets, `refs
      ensures State() == EmitTo(old(State()), k, op, anchor) && |sets| == |old(sets)|
    {
      var ref := Define(k, op, [Line(anchor)]);
      if ref.Some? { refs := refs + [ref.value]; }
    }

    method MakeAnchor(line: Option<nat>) returns (a: nat)
      modifies `lines
      ensures State() == NewAnchor(old(State()), line) && a == |old(lines)|
    {
      a := |lines|;
      lines := lines + [line];
    }

    method SetLine(a: nat, line: nat)
      modifies `lines
      ensures State() == DefineAnchor(old(State()), a, line)
    {
      if a < |lines| { lines := lines[a := Some(line)]; }
    }

    method MakeSet(kind: SetType, ghost origin: Origin, params: ArgSet) returns (u: nat)
      requires Typed() && (kind == BlockSet <==> origin.FromBlock?)
      modifies `sets, `types, `origins
      ensures State() == NewSet(old(State()), origin, params) && u == |old(sets)| && Typed()
    {
      u := |sets|;
      sets := sets + [InstructionSet([], [], params)];
      types, origins := types + [kind], origins + [origin];
    }

    method EndInstructions(k: nat)
      requires Typed() && k < |sets|
      modifies this
      ensures Typed()
      ensures State() == Finish(old(State()), k) && |sets| == |old(sets)|
    {
      Put(k, LEAVE, []);
      finished := finished + [k];
    }

    // ----------------------------------------------------------- expressions

    method CompileExpression(k: nat, e: Expr, scope: LoopScope, table: LocalTable)
      requires Typed() && k < |sets| && table.Valid()
      modifies this, scope, table
      ensures Typed()
      ensures table.Valid() && table.View() == After(e, old(table.View())) && scope.anchors == old(scope.anchors)
      ensures State() == EmitExpr(old(State()), k, e, old(table.View()), old(scope.anchors)) && |sets| >= |old(sets)|
      decreases e, 2
    {
      hide LocalTable.Valid, LocalTable.View, LocalTable.Tables, Emit, Resolve, Declare, EmitAll, AfterAll;
      match e {
        case ArrayLit(elems) =>
          CompileAll(k, elems, scope, table);
          Put(k, NEW_ARRAY, [Num(|elems|)]);
        case Ident(x) => CompileIdentifier(k, e, table);
        case Assign(_, _) => CompileAssign(k, e, scope, table);
        case Logic(_, _, _) => CompileLogic(k, e, scope, table);
        case Infix(_, _, _) => CompileInfix(k, e, scope, table);
        case Not(_) => CompilePrefix(k, e, scope, table);
        case Minus(_) => CompilePrefix(k, e, scope, table);
        case Plus(_) => CompilePrefix(k, e, scope, table);
        case If(_, _, _) => CompileIf(k, e, scope, table);
        case Yield(args) =>
          Put(k, PUT_SELF, []);
          CompileAll(k, args, scope, table);
          Put(k, INVOKE_BLOCK, [Num(|args|)]);
        case Pair(_, v) => CompileExpression(k, v, scope, table);
        case Call(_, _, _, _) => CompileCall(k, e, scope, table);
        case _ => CompileLiteral(k, e);
      }
    }

    /** Literals, self and `block?`. */
    method CompileLiteral(k: nat, e: Expr)
      requires Typed() && k < |sets| && IsLeaf(e)
      modifies `sets
      ensures Typed() && |sets| == |old(sets)|
      ensures forall sc, loop {:trigger EmitExpr(old(State()), k, e, sc, loop)} ::
        State() == EmitExpr(old(State()), k, e, sc, loop)
    {
      hide Emit;
      match e {
        case IntLit(n) => Put(k, PUT_INT, [Num(n)]);
        case StrLit(t) => Put(k, PUT_STRING, [Item(StrConst(t))]);
        case BoolLit(b) => Put(k, if b then PUT_TRUE else PUT_FALSE, []);
        case NilLit => Put(k, PUT_NULL, []);
        case SelfRef => Put(k, PUT_SELF, []);
        case BlockGiven => Put(k, HAS_BLOCK, []);
      }
    }

    method CompileInfix(k: nat, e: Expr, scope: LoopScope, table: LocalTable)
      requires Typed() && k < |sets| && table.Valid() && e.Infix?
      modifies this, scope, table
      ensures Typed()
      ensures table.Valid() && table.View() == After(e, old(table.View())) && scope.anchors == old(scope.anchors)
      ensures State() == EmitExpr(old(State()), k, e, old(table.View()), old(scope.anchors)) && |sets| >= |old(sets)|
      decreases e, 1
    {
      hide LocalTable.Valid, LocalTable.View, LocalTable.Tables, Emit, Resolve, Declare;
      CompileExpression(k, e.left, scope, table);
      CompileExpression(k, e.right, scope, table);
      var i := OperatorInstr(e.op);
      Put(k, if i.IArith? then i.op else BINARY_OPERATOR, [Item(NameConst(e.op))]);
    }

    method CompilePrefix(k: nat, e: Expr, scope: LoopScope, table: LocalTable)
      requires Typed() && k < |sets| && table.Valid() && (e.Not? || e.Minus? || e.Plus?)
      modifies this, scope, table
      ensures Typed()
      ensures table.Valid() && table.View() == After(e, old(table.View())) && scope.anchors == old(scope.anchors)
      ensures State() == EmitExpr(old(State()), k, e, old(table.View()), old(scope.anchors)) && |sets| >= |old(sets)|
      decreases e, 1
    {
      hide LocalTable.Valid, LocalTable.View, LocalTable.Tables, Emit, Resolve, Declare;
      if e.Not? {
        CompileExpression(k, e.arg, scope, table);
        Put(k, SEND, [Item(NameConst(BANG)), Num(0), Item(NilConst), Item(NilConst)]);
      } else if e.Minus? {
        Put(k, PUT_INT, [Num(0)]);
        CompileExpression(k, e.arg, scope, table);
        Put(k, SEND, [Item(NameConst(MINUS_NAME)), Num(1), Item(NilConst), Item(NilConst)]);
      } else {
        CompileExpression(k, e.arg, scope, table);
      }
    }

    method CompileIdentifier(k: nat, e: Expr, table: LocalTable)
      requires k < |sets| && table.Valid() && e.Ident?
      modifies `sets
      ensures |sets| == |old(sets)|
      ensures forall loop {:trigger EmitExpr(old(State()), k, e, table.View(), loop)} ::
        EmitExpr(old(State()), k, e, table.View(), loop) == State()
    {
      hide Emit;
      ResolveTables(table.Tables(), e.name);
      var index, depth, ok := table.GetLocal(e.name, table.depth);
      if ok {
        Put(k, GET_LOCAL, [Num(depth), Num(index)]);
      } else {
        Put(k, PUT_SELF, []);
        Put(k, SEND, [Item(NameConst(e.name)), Num(0), Item(NilConst), Item(NilConst)]);
      }
    }

    method CompileAll(k: nat, es: seq<Expr>, scope: LoopScope, table: LocalTable)
      requires Typed() && k < |sets| && table.Valid()
      modifies this, scope, table
      ensures Typed()
      ensures table.Valid() && table.View() == AfterAll(es, |es|, old(table.View()))
      ensures scope.anchors == old(scope.anchors)
      ensures State() == EmitAll(old(State()), k, es, |es|, old(table.View()), old(scope.anchors))
      ensures |sets| >= |old(sets)|
      decreases es, 0
    {
      hide LocalTable.Valid, LocalTable.View, LocalTable.Tables, EmitExpr, After;
      for i := 0 to |es|
        invariant table.Valid() && table.View() == AfterAll(es, i, old(table.View()))
        invariant scope.anchors == old(scope.anchors)
        invariant Typed() && State() == EmitAll(old(State()), k, es, i, old(table.View()), old(scope.anchors))
        invariant |sets| >= |old(sets)|
      {
        CompileExpression(k, es[i], scope, table);
      }
    }

    method CompileAssign(k: nat, e: Expr, scope: LoopScope, table: LocalTable)
      requires Typed() && k < |sets| && table.Valid() && e.Assign?
      modifies this, scope, table
      ensures Typed()
      ensures table.Valid() && table.View() == After(e, old(table.View())) && scope.anchors == old(scope.anchors)
      ensures State() == EmitExpr(old(State()), k, e, old(table.View()), old(scope.anchors)) && |sets| >= |old(sets)|
      decreases e, 0
    {
      hide LocalTable.Valid, LocalTable.View, LocalTable.Tables, Emit, Resolve, Declare;
      CompileExpression(k, e.value, scope, table);
      if |e.vars| > 1 {
        Put(k, EXPAND_ARRAY, [Num(|e.vars|)]);
      }
      ghost var g, sc, n := State(), table.View(), |sets|;
      for i := 0 to |e.vars|
        invariant table.Valid() && table.View() == DeclareAll(sc, e.vars, i) && scope.anchors == old(scope.anchors)
        invariant Typed() && State() == EmitStores(g, k, e.vars, i, sc) && |sets| == n
      {
        if e.vars[i] != BLANK {
          var index, depth := table.SetLocal(e.vars[i], table.depth);
          Put(k, SET_LOCAL, [Num(depth), Num(index)]);
        }
        if i != |e.vars| - 1 {
          Put(k, POP, []);
        }
      }
    }

    method CompileLogic(k: nat, e: Expr, scope: LoopScope, table: LocalTable)
      requires Typed() && k < |sets| && table.Valid() && e.Logic?
      modifies this, scope, table
      ensures Typed()
      ensures table.Valid() && table.View() == After(e, old(table.View())) && scope.anchors == old(scope.anchors)
      ensures State() == EmitExpr(old(State()), k, e, old(table.View()), old(scope.anchors)) && |sets| >= |old(sets)|
      decreases e, 0
    {
      hide LocalTable.Valid, LocalTable.View, LocalTable.Tables, Emit, EmitTo, EmitExpr;
      LogicForm(State(), k, e, table.View(), scope.anchors);
      var end := MakeAnchor(None);
      CompileExpression(k, e.left, scope, table);
      Put(k, DUP, []);
      PutTo(k, if e.conj then BRANCH_UNLESS else BRANCH_IF, end);
      Put(k, POP, []);
      CompileExpression(k, e.right, scope, table);
      SetLine(end, |sets[k].code|);
    }

    method CompileIf(k: nat, e: Expr, scope: LoopScope, table: LocalTable)
      requires Typed() && k < |sets| && table.Valid() && e.If?
      modifies this, scope, table
      ensures Typed()
      ensures table.Valid() && table.View() == After(e, old(table.View())) && scope.anchors == old(scope.anchors)
      ensures State() == EmitExpr(old(State()), k, e, old(table.View()), old(scope.anchors)) && |sets| >= |old(sets)|
      decreases e, 0
    {
      hide LocalTable.Valid, LocalTable.View, LocalTable.Tables, Emit, EmitTo, EmitArm, EmitStmts, EmitExpr, AfterStmts;
      IfForm(State(), k, e, table.View(), scope.anchors);
      var last := MakeAnchor(None);
      ghost var g := State();
      for i := 0 to |e.arms|
        invariant table.Valid() && table.View() == AfterArms(e.arms, i, old(table.View()))
        invariant scope.anchors == old(scope.anchors)
        invariant Typed() && State() == EmitArms(g, k, e.arms, i, old(table.View()), old(scope.anchors), last)
        invariant |sets| >= |old(sets)|
      {
        CompileConditional(k, e.arms[i], last, scope, table);
      }
      if e.hasElse {
        CompileCodeBlock(k, e.alt, scope, table);
      } else {
        Put(k, PUT_NULL, []);
      }
      SetLine(last, |sets[k].code|);
    }

    /** The body of compileIfExpression's loop. */
    method CompileConditional(k: nat, arm: Arm, last: nat, scope: LoopScope, table: LocalTable)
      requires Typed() && k < |sets| && table.Valid()
      modifies this, scope, table
      ensures Typed()
      ensures table.Valid() && scope.anchors == old(scope.anchors)
      ensures table.View() == AfterStmts(arm.body, |arm.body|, After(arm.cond, old(table.View())))
      ensures State() == EmitArm(old(State()), k, arm, old(table.View()), old(scope.anchors), last)
      ensures |sets| >= |old(sets)|
      decreases arm, 0
    {
      hide LocalTable.Valid, LocalTable.View, LocalTable.Tables, Emit, EmitTo, EmitExpr, EmitStmts, After;
      var over := MakeAnchor(None);
      CompileExpression(k, arm.cond, scope, table);
      PutTo(k, BRANCH_UNLESS, over);
      if arm.body == [] {
        Put(k, PUT_NULL, []);
      } else {
        CompileCodeBlock(k, arm.body, scope, table);
      }
      PutTo(k, JUMP, last);
      SetLine(over, |sets[k].code|);
    }

    method CompileCall(k: nat, e: Expr, scope: LoopScope, table: LocalTable)
      requires Typed() && k < |sets| && table.Valid() && e.Call?
      modifies this, scope, table
      ensures Typed()
      ensures table.Valid() && table.View() == After(e, old(table.View())) && scope.anchors == old(scope.anchors)
      ensures State() == EmitExpr(old(State()), k, e, old(table.View()), old(scope.anchors)) && |sets| >= |old(sets)|
      decreases e, 1
    {
      hide LocalTable.Valid, LocalTable.View, LocalTable.Tables, Emit, EmitAll, EmitBlockOf, EmitExpr, After, AfterAll;
      hide ArgSetOf;
      CallForm(State(), k, e, table.View(), scope.anchors);
      AfterCall(e, table.View());
      var argSet := argSets;
      argSets := argSets + 1;
      CompileExpression(k, e.recv, scope, table);
      CompileAll(k, e.args, scope, table);
      var unit := CompileBlockOf(e, scope, table);
      if e.name == DEFER_NAME {
        Put(k, DEFER, [Num(|e.args|), Item(SetItem(unit))]);
      } else {
        Put(k, SEND,
            [Item(NameConst(e.name)), Num(|e.args|), Item(SetItem(unit)), Item(ArgsConst(argSet, ArgSetOf(e.args)))]);
      }
    }

    /** The set of the call's block, whose table is one level deeper. */
    method CompileBlockOf(e: Expr, scope: LoopScope, table: LocalTable) returns (unit: Option<nat>)
      requires Typed() && table.Valid() && e.Call?
      modifies this, scope
      ensures Typed()
      ensures table.Valid() && table.View() == old(table.View()) && scope.anchors == old(scope.anchors)
      ensures State() == EmitBlockOf(old(State()), e, old(table.View()), old(scope.anchors)) && |sets| >= |old(sets)|
      ensures unit == UnitOf(old(State()), e)
      decreases e, 0
    {
      hide EmitBlock;
      unit := None;
      if e.block.Some? {
        unit := Some(|sets|);
        var inner := new LocalTable(table.depth + 1, table);
        assert table.Tables() == [table.names] + table.Tables()[1..];
        CompileBlockArg(e.block.value, scope, inner);
      }
    }

    method CompileBlockArg(b: BlockLit, scope: LoopScope, table: LocalTable)
      requires Typed() && table.Valid() && table.names == []
      modifies this, scope, table
      ensures Typed()
      ensures scope.anchors == old(scope.anchors) && |sets| >= |old(sets)|
      ensures State() == EmitBlock(old(State()), b, old(table.Tables()[1..]), old(scope.anchors))
      decreases b, 0
    {
      hide Emit, EmitStmts;
      var u := MakeSet(BlockSet, FromBlock(b.params, b.body, table.Tables()[1..], scope.anchors), ArgSet([], []));
      DeclareParams(b.params, table);
      CompileCodeBlock(u, b.body, scope, table);
      EndInstructions(u);
    }

    /** The loop over a block's parameters: each is set in the block's own table. */
    static method DeclareParams(params: seq<Name>, table: LocalTable)
      requires table.Valid() && table.names == []
      modifies table
      ensures table.Valid() && table.View() == BlockScope(params, old(table.Tables()[1..]))
    {
      for i := 0 to |params|
        invariant table.Valid() && table.View() == Scope(Distinct(params, i), old(table.Tables()[1..]))
      {
        var _ := table.Set(params[i]);
      }
    }

    // ------------------------------------------------------------ statements

    method CompileCodeBlock(k: nat, ss: seq<Stmt>, scope: LoopScope, table: LocalTable)
      requires Typed() && k < |sets| && table.Valid()
      modifies this, scope, table
      ensures Typed()
      ensures table.Valid() && table.View() == AfterStmts(ss, |ss|, old(table.View()))
      ensures scope.anchors == old(scope.anchors)
      ensures State() == EmitStmts(old(State()), k, ss, |ss|, old(table.View()), old(scope.anchors))
      ensures |sets| >= |old(sets)|
      decreases ss, 0
    {
      hide LocalTable.Valid, LocalTable.View, LocalTable.Tables, EmitStmt, AfterStmt;
      for i := 0 to |ss|
        invariant table.Valid() && table.View() == AfterStmts(ss, i, old(table.View()))
        invariant scope.anchors == old(scope.anchors)
        invariant Typed() && State() == EmitStmts(old(State()), k, ss, i, old(table.View()), old(scope.anchors))
        invariant |sets| >= |old(sets)|
      {
        CompileStatement(k, ss[i], scope, table);
      }
    }

    method CompileStatement(k: nat, s: Stmt, scope: LoopScope, table: LocalTable)
      requires Typed() && k < |sets| && table.Valid()
      modifies this, scope, table
      ensures Typed()
      ensures table.Valid() && table.View() == AfterStmt(s, old(table.View())) && scope.anchors == old(scope.anchors)
      ensures State() == EmitStmt(old(State()), k, s, old(table.View()), old(scope.anchors)) && |sets| >= |old(sets)|
      decreases s, 2
    {
      hide LocalTable.Valid, LocalTable.View, LocalTable.Tables, Emit, EmitTo, EmitExpr, EmitMethod, After;
      match s {
        case ExprStmt(e, isStmt) =>
          CompileExpression(k, e, scope, table);
          if isStmt { Put(k, POP, []); }
        case Return(e) =>
          CompileExpression(k, e, scope, table);
          Put(k, LEAVE, []);
        case While(_, _) => CompileWhile(k, s, scope, table);
        case Continue => CompileJumpOut(k, LEAVE, if scope.anchors.Some? then Some(scope.anchors.value.next) else None);
        case Break => CompileJumpOut(k, BREAK, if scope.anchors.Some? then Some(scope.anchors.value.exit) else None);
        case Def(_, _, _) => CompileDef(k, s);
      }
    }

    method CompileJumpOut(k: nat, out: int, target: Option<nat>)
      requires Typed() && k < |sets|
      modifies this
      ensures Typed()
      ensures State() == EmitJumpOut(old(State()), k, out, target) && |sets| == |old(sets)|
    {
      hide LocalTable.Valid, LocalTable.View, LocalTable.Tables, Emit, EmitTo;
      if target.Some? {
        if k < |types| && types[k] == BlockSet {
          Put(k, out, []);
        }
        PutTo(k, JUMP, target.value);
      } else {
        Put(k, out, []);
      }
    }

    method CompileWhile(k: nat, s: Stmt, scope: LoopScope, table: LocalTable)
      requires Typed() && k < |sets| && table.Valid() && s.While?
      modifies this, scope, table
      ensures Typed()
      ensures table.Valid() && table.View() == AfterStmt(s, old(table.View())) && scope.anchors == old(scope.anchors)
      ensures State() == EmitStmt(old(State()), k, s, old(table.View()), old(scope.anchors)) && |sets| >= |old(sets)|
      decreases s, 1
    {
      hide LocalTable.Valid, LocalTable.View, LocalTable.Tables, EmitTo, EmitExpr, EmitHead, EmitStmt, After;
      hide AfterStmts;
      WhileForm(State(), k, s, table.View(), scope.anchors);
      var exit, start := CompileLoopBody(k, s, scope, table);
      CompileExpression(k, s.cond, scope, table);
      PutTo(k, BRANCH_IF, start);
      SetLine(exit, |sets[k].code|);
    }

    /** The first half of compileWhileStmt: up to the anchor of the condition. */
    method CompileLoopBody(k: nat, s: Stmt, scope: LoopScope, table: LocalTable) returns (exit: nat, start: nat)
      requires Typed() && k < |sets| && table.Valid() && s.While?
      modifies this, scope, table
      ensures Typed()
      ensures table.Valid() && table.View() == AfterStmts(s.body, |s.body|, old(table.View()))
      ensures scope.anchors == old(scope.anchors)
      ensures State() == EmitHead(old(State()), k, s, old(table.View())) && |sets| >= |old(sets)|
      ensures exit == |old(lines)| + 1 && start == |old(lines)| + 2
      decreases s, 0
    {
      hide LocalTable.Valid, LocalTable.View, LocalTable.Tables, EmitTo, EmitStmts, AfterStmts;
      var next := MakeAnchor(None);
      exit := MakeAnchor(None);
      PutTo(k, JUMP, next);
      start := MakeAnchor(Some(|sets[k].code|));
      var outer := scope.anchors;
      scope.anchors := Some(Anchors(exit, next));
      CompileCodeBlock(k, s.body, scope, table);
      scope.anchors := outer;
      SetLine(next, |sets[k].code|);
    }


    method CompileDef(k: nat, s: Stmt)
      requires Typed() && k < |sets| && s.Def?
      modifies this
      ensures Typed()
      ensures |sets| >= |old(sets)|
      ensures forall sc, loop {:trigger EmitStmt(old(State()), k, s, sc, loop)} ::
        EmitStmt(old(State()), k, s, sc, loop) == State()
      decreases s, 0
    {
      hide LocalTable.Valid, LocalTable.View, LocalTable.Tables, Emit, EmitParams, EmitStmts, AfterParams;
      var scope := new LoopScope();
      var table := new LocalTable(0, null);
      var n := |s.params|;
      var u := MakeSet(MethodSet, FromMethod(s.params, s.body), BlankArgs(n));
      CompileParams(u, s.params, scope, table);
      if s.body == [] {
        Put(u, PUT_NULL, []);
      } else {
        CompileCodeBlock(u, s.body, scope, table);
      }
      EndInstructions(u);
      Put(k, PUT_SELF, []);
      Put(k, DEF_METHOD, [Num(n), Item(NameConst(s.name)), Item(SetConst(u))]);
    }

    /** The loop over the parameters. */
    method CompileParams(u: nat, ps: seq<Param>, scope: LoopScope, table: LocalTable)
      requires Typed() && u < |sets| && table.Valid() && table.View() == EMPTY && scope.anchors == None
      modifies this, scope, table
      ensures Typed()
      ensures table.Valid() && table.View() == AfterParams(ps, |ps|, EMPTY) && scope.anchors == None
      ensures State() == EmitParams(old(State()), u, ps, |ps|) && |sets| >= |old(sets)|
      decreases ps, 0
    {
      hide LocalTable.Valid, LocalTable.View, LocalTable.Tables, EmitParam, AfterParam;
      for i := 0 to |ps|
        invariant table.Valid() && table.View() == AfterParams(ps, i, EMPTY) && scope.anchors == None
        invariant Typed() && State() == EmitParams(old(State()), u, ps, i) && |sets| >= |old(sets)|
      {
        CompileParam(u, ps[i], scope, table);
        var a := sets[u].params;
        if i < |a.names| && i < |a.types| {
          sets := sets[u := sets[u].(params := ArgSet(a.names[i := ps[i].name], a.types[i := ParamKindOf(ps[i])]))];
        }
      }
    }

    method CompileParam(u: nat, p: Param, scope: LoopScope, table: LocalTable)
      requires Typed() && u < |sets| && table.Valid() && scope.anchors == None
      modifies this, scope, table
      ensures Typed()
      ensures table.Valid() && table.View() == AfterParam(p, old(table.View())) && scope.anchors == None
      ensures State() == EmitParam(old(State()), u, p, old(table.View())) && |sets| >= |old(sets)|
      decreases p, 0
    {
      hide LocalTable.Valid, LocalTable.View, LocalTable.Tables, Emit, EmitExpr, After, Resolve, Declare;
      match p {
        case NormalParam(x) => var _, _ := table.SetLocal(x, table.depth);
        case KeyParam(x) => var _, _ := table.SetLocal(x, table.depth);
        case DefaultParam(x, d) =>
          CompileExpression(u, d, scope, table);
          if x != BLANK {
            var index, depth := table.SetLocal(x, table.depth);
            Put(u, SET_OPTIONAL, [Num(depth), Num(index)]);
          }
        case RestParam(x) =>
          var index, depth := table.SetLocal(x, table.depth);
          Put(u, NEW_ARRAY, [Num(0)]);
          Put(u, SET_OPTIONAL, [Num(depth), Num(index)]);
        case KeyDefaultParam(x, d) =>
          var index, depth := table.SetLocal(x, table.depth);
          CompileExpression(u, d, scope, table);
          Put(u, SET_OPTIONAL, [Num(depth), Num(index)]);
      }
    }

    // ------------------------------------------------------------------ output

    /** The first loop of GenerateInstructions. */
    method Patch()
      modifies `sets, `refs
      ensures sets == Patched(old(sets), old(refs), LinesOf(lines), |old(refs)|) && refs == []
    {
      for i := 0 to |refs|
        invariant refs == old(refs) && sets == Patched(old(sets), refs, LinesOf(lines), i)
      {
        var r := refs[i];
        if r.unit < |sets| && r.index < |sets[r.unit].code| {
          var line := if r.anchor < |lines| && lines[r.anchor].Some? then lines[r.anchor].value else 0;
          sets := sets[r.unit := sets[r.unit].(code := sets[r.unit].code[r.index := line])];
        }
      }
      refs := [];
    }

    method ElideSet(k: nat)
      requires k < |sets| && Aligned(sets[k])
      modifies `sets
      ensures sets == SetElided(old(sets), k)
    {
      hide Aligned;
      var code := sets[k].code;
      var a := new int[|code|](i requires 0 <= i < |code| => code[i]);
      assert a[..] == code;
      AlignedReadable(sets[k]);
      ElideInPlace(a);
      sets := sets[k := sets[k].(code := a[..])];
    }

    /** The second loop. */
    method ElideAll()
      requires AllAligned(sets)
      modifies `sets
      ensures sets == SetsElided(old(sets), finished)
    {
      hide Aligned, SetElided;
      assert finished[..0] == [];
      for i := 0 to |finished|
        invariant sets == SetsElided(old(sets), finished[..i])
      {
        assert finished[..i + 1][..i] == finished[..i];
        StaysAligned(old(sets), finished[..i]);
        if finished[i] < |sets| {
          assert Aligned(sets[finished[i]]);
          ElideSet(finished[i]);
        } else {
          NoSuchSet(sets, finished[i]);
        }
      }
      assert finished[..|finished|] == finished;
    }

    method CompileStatements(stmts: seq<Stmt>)
      requires Typed()
      modifies this
      ensures Typed() && State() == EmitProgram(old(State()), stmts)
    {
      hide Emit, EmitStmts, LocalTable.Valid, LocalTable.View, LocalTable.Tables;
      if stmts == [] { return; }
      var scope := new LoopScope();
      var table := new LocalTable(0, null);
      var u := MakeSet(ProgramSet, FromMain(stmts), ArgSet([], []));
      CompileCodeBlock(u, stmts, scope, table);
      EndInstructions(u);
    }

    /** A new generator's output for a well-formed program: sound compiled code, elided. */
    method GenerateInstructions(stmts: seq<Stmt>)
      requires State() == NOTHING && Typed() && WfUnit(MainSource(stmts))
      modifies this
      ensures stmts == [] ==> sets == []
      ensures stmts != [] ==>
                var p := FinalOf(EmitProgram(NOTHING, stmts)).p;
                Sound(p) && |p.units| > 0 && p.units[0] == MainSource(stmts) && sets == SetsElided(p.sets, finished)
    {
      hide WfUnit, Sound, EmitProgram, Patched, SetsElided;
      CompileStatements(stmts);
      if stmts == [] {
        EmptyProgram();
        return;
      }
      GeneratedSound(stmts);
      Patch();
      assert sets == FinalOf(EmitProgram(NOTHING, stmts)).p.sets;
      CompiledAligned(FinalOf(EmitProgram(NOTHING, stmts)).p);
      ElideAll();
    }
  }

  lemma EmptyProgram()
    ensures EmitProgram(NOTHING, []) == NOTHING
  {
  }

  lemma AfterCall(e: Expr, sc: Scope)
    requires e.Call?
    ensures After(e, sc) == AfterAll(e.args, |e.args|, After(e.recv, sc))
  {
    hide AfterAll;
  }

  lemma FirstIndex(consts: seq<Const>, c: Const, i: nat)
    requires i < |consts| && consts[i] == c && c !in consts[..i]
    ensures PoolIndex(consts, c) == i
  {
    var j := PoolIndex(consts, c);
    assert forall x :: 0 <= x < i ==> consts[..i][x] != c;
    assert forall x :: 0 <= x < j ==> consts[..j][x] != c;
  }
}
