/**
 Laws of evaluation: what operators compute, which values count as true, what is
 assigned and read, and what a call does, said of the expressions and the values
 themselves.  By the compiler theorem they are laws of the compiled code.
 */
module Meanings {
  import opened Wrappers
  import opened Ast
  import opened Binding
  import opened Layout
  import opened WellFormed
  import opened Machine
  import Correctness
  import Optimised
  import Pipeline
  import AE = ArgumentErrors
  import Ev = Evaluator

  // --------------------------------------------------------------- operators

  /** The 64-bit integer that is congruent to the exact result. */
  predicate WrapsTo(v: Value, exact: int) {
    && v.IntV? && -0x8000_0000_0000_0000 <= v.n < 0x8000_0000_0000_0000
    && (v.n - exact) % 0x1_0000_0000_0000_0000 == 0
  }

  /** What the six operators on integers give. */
  predicate Gives(op: Name, l: int, r: int, v: Value) {
    && (op == ADD_NAME ==> WrapsTo(v, l + r))
    && (op == MINUS_NAME ==> WrapsTo(v, l - r))
    && (op == LESS_NAME ==> v == BoolV(l < r))
    && (op == LESS_EQUAL_NAME ==> v == BoolV(l <= r))
    && (op == GREATER_NAME ==> v == BoolV(l > r))
    && (op == GREATER_EQUAL_NAME ==> v == BoolV(l >= r))
  }

  predicate IsIntegerOperator(op: Name) {
    op in {ADD_NAME, MINUS_NAME, LESS_NAME, LESS_EQUAL_NAME, GREATER_NAME, GREATER_EQUAL_NAME}
  }

  lemma Wraps(n: int)
    ensures WrapsTo(IntV(Wrap64(n)), n)
  {
    var m := n + 0x8000_0000_0000_0000;
    assert m == m / 0x1_0000_0000_0000_0000 * 0x1_0000_0000_0000_0000 + m % 0x1_0000_0000_0000_0000;
    assert Wrap64(n) - n == -(m / 0x1_0000_0000_0000_0000) * 0x1_0000_0000_0000_0000;
  }

  /** What fits is not wrapped. */
  lemma WrapsExactly(v: Value, exact: int)
    requires WrapsTo(v, exact) && -0x8000_0000_0000_0000 <= exact < 0x8000_0000_0000_0000
    ensures v == IntV(exact)
  {
  }

  lemma ComputesOperator(op: Name, l: int, r: int)
    requires IsIntegerOperator(op)
    ensures OperatorInstr(op).IArith? && Gives(op, l, r, Arithmetic(OperatorInstr(op).op, l, r))
  {
    hide Wrap64, WrapsTo;
    Wraps(l + r);
    Wraps(l - r);
  }

  /** An integer operator between two expressions that are integers: both are evaluated, the left one first, and the
      result is that of the operator; nothing is called. */
  lemma OperatorEvaluates(h: Host, fuel: nat, st: Ev.EState, sc: Scope, op: Name, left: Expr, right: Expr,
                          l: int, st1: Ev.EState, r: int, st2: Ev.EState)
    requires |st.envs| > 0 && IsIntegerOperator(op)
    requires Ev.Eval(h, fuel, st, left, sc) == Ev.Val(IntV(l), st1)
    requires Ev.Eval(h, fuel, st1, right, After(left, sc)) == Ev.Val(IntV(r), st2)
    ensures
      var out := Ev.Eval(h, fuel, st, Infix(op, left, right), sc);
      out.Val? && out.st == st2 && Gives(op, l, r, out.v)
  {
    hide OperatorInstr, Arithmetic, Gives;
    ComputesOperator(op, l, r);
  }

  /** Any other operator, or one of these with an operand that is no integer, is a call. */
  lemma OperatorCalls(h: Host, fuel: nat, st: Ev.EState, sc: Scope, op: Name, left: Expr, right: Expr,
                      l: Value, st1: Ev.EState, r: Value, st2: Ev.EState)
    requires |st.envs| > 0 && !(IsIntegerOperator(op) && l.IntV? && r.IntV?)
    requires Ev.Eval(h, fuel, st, left, sc) == Ev.Val(l, st1)
    requires Ev.Eval(h, fuel, st1, right, After(left, sc)) == Ev.Val(r, st2)
    ensures Ev.Eval(h, fuel, st, Infix(op, left, right), sc) == Ev.Call(h, fuel, st2, l, op, [r], None, None)
  {
    hide Ev.Call, Arithmetic;
  }

  /** A program that is one operator between two numbers, generated, elided and run: it leaves the result. */
  lemma OperatorRuns(h: Host, order: seq<nat>, op: Name, l: int, r: int, self: Value, world: World)
    returns (n: nat, v: Value)
    requires IsIntegerOperator(op)
    ensures
      var p := Pipeline.Generated([ExprStmt(Infix(op, IntLit(l), IntLit(r)), false)]);
      var code := Optimised.SetsElided(p.sets, order);
      var t := Run(code, h, Correctness.Initial(0, self, world), n);
      Halted(code, t) && t.status == Running && t.stack == [v] && Gives(op, l, r, v)
  {
    hide Run, Halted, Optimised.SetsElided, Gives, Pipeline.Generated, OperatorInstr;
    var e := Infix(op, IntLit(l), IntLit(r));
    var s := ExprStmt(e, false);
    var st := Ev.EState([Ev.InitialEnv(self)], map[], world);
    assert Ev.Eval(h, 0, st, IntLit(l), EMPTY) == Ev.Val(IntV(l), st) && After(IntLit(l), EMPTY) == EMPTY;
    OperatorEvaluates(h, 0, st, EMPTY, op, IntLit(l), IntLit(r), l, st, r, st);
    v := Ev.Eval(h, 0, st, e, EMPTY).v;
    OneStatement(h, 0, st, e, v);
    OneWellFormed(e);
    n := Pipeline.CompilerCorrect([s], h, order, 0, self, world);
  }

  lemma OneStatement(h: Host, fuel: nat, st: Ev.EState, e: Expr, v: Value)
    requires Ev.Eval(h, fuel, st, e, EMPTY) == Ev.Val(v, st)
    ensures Ev.EvalStmts(h, fuel, st, [ExprStmt(e, false)], 1, EMPTY) == Ev.Val(v, st)
  {
    hide Ev.Eval;
    var s := ExprStmt(e, false);
    assert Ev.EvalStmts(h, fuel, st, [s], 0, EMPTY) == Ev.Done(st) && AfterStmts([s], 0, EMPTY) == EMPTY;
  }

  lemma OneWellFormed(e: Expr)
    requires e.Infix? && e.left.IntLit? && e.right.IntLit?
    ensures WfUnit(MainSource([ExprStmt(e, false)]))
  {
    assert WfExpr(e.left, 0, false) && WfExpr(e.right, 0, false);
    assert WfStmt(ExprStmt(e, false), 0, false);
  }

  // ------------------------------------------------------------------- truth

  /** Of all values only false and nil count as untrue: the arm of an `if` is taken for every other one. */
  lemma IfChooses(h: Host, fuel: nat, st: Ev.EState, sc: Scope, cond: Expr, body: seq<Stmt>, alt: seq<Stmt>,
                  v: Value, st1: Ev.EState)
    requires |st.envs| > 0 && body != [] && Ev.Eval(h, fuel, st, cond, sc) == Ev.Val(v, st1)
    ensures
      var inside := After(cond, sc);
      Ev.Eval(h, fuel, st, If([Arm(cond, body)], true, alt), sc) ==
        if v == BoolV(false) || v == NilV then Ev.EvalStmts(h, fuel, st1, alt, |alt|, AfterStmts(body, |body|, inside))
        else Ev.EvalStmts(h, fuel, st1, body, |body|, inside)
    ensures v == BoolV(false) || v == NilV ==>
      Ev.Eval(h, fuel, st, If([Arm(cond, body)], false, alt), sc) == Ev.Val(NilV, st1)
  {
    hide Ev.EvalStmts, AfterStmts;
    var arms := [Arm(cond, body)];
    assert AfterArms(arms, 0, sc) == sc && AfterArms(arms, 1, sc) == AfterStmts(body, |body|, After(cond, sc));
    var e, e' := If(arms, true, alt), If(arms, false, alt);
    assert Ev.EvalArms(h, fuel, st1, e, 1, sc) == Ev.EvalStmts(h, fuel, st1, alt, |alt|, AfterArms(arms, 1, sc));
    assert Ev.EvalArms(h, fuel, st1, e', 1, sc) == Ev.Val(NilV, st1);
    assert Ev.Eval(h, fuel, st, e, sc) == Ev.EvalArms(h, fuel, st, e, 0, sc);
    assert Ev.Eval(h, fuel, st, e', sc) == Ev.EvalArms(h, fuel, st, e', 0, sc);
  }

  /** `&&` stops at an untrue left operand, `||` at any other; what it stops at is its value. */
  lemma LogicChooses(h: Host, fuel: nat, st: Ev.EState, sc: Scope, left: Expr, right: Expr, v: Value, st1: Ev.EState)
    requires |st.envs| > 0 && Ev.Eval(h, fuel, st, left, sc) == Ev.Val(v, st1)
    ensures Ev.Eval(h, fuel, st, Logic(true, left, right), sc) ==
              if v == BoolV(false) || v == NilV then Ev.Val(v, st1) else Ev.Eval(h, fuel, st1, right, After(left, sc))
    ensures Ev.Eval(h, fuel, st, Logic(false, left, right), sc) ==
              if v == BoolV(false) || v == NilV then Ev.Eval(h, fuel, st1, right, After(left, sc)) else Ev.Val(v, st1)
  {
  }

  /** A loop ends with an untrue condition; with any other the body is run, and the loop again. */
  lemma WhileRepeats(h: Host, fuel: nat, st: Ev.EState, sc: Scope, cond: Expr, body: seq<Stmt>, v: Value,
                     st1: Ev.EState)
    requires Ev.Eval(h, fuel, st, cond, AfterStmts(body, |body|, sc)) == Ev.Val(v, st1)
    ensures
      var loop := While(cond, body);
      && (v == BoolV(false) || v == NilV ==> Ev.EvalStmt(h, fuel, st, loop, sc) == Ev.Done(st1))
      && (v != BoolV(false) && v != NilV && fuel > 0 ==>
            var r := Ev.EvalStmts(h, fuel - 1, st1, body, |body|, sc);
            && (r.Done? || r.Continued? ==>
                  Ev.EvalStmt(h, fuel, st, loop, sc) == Ev.EvalStmt(h, fuel - 1, r.st, loop, sc))
            && (r.Broke? ==> Ev.EvalStmt(h, fuel, st, loop, sc) == Ev.Done(r.st))
            && (r.Returned? || r.Error? ==> Ev.EvalStmt(h, fuel, st, loop, sc) == r))
  {
    hide Ev.EvalStmts, Ev.Eval;
    var loop := While(cond, body);
    assert Ev.EvalStmt(h, fuel, st, loop, sc) == Ev.EvalLoop(h, fuel, st, loop, sc);
    if v != BoolV(false) && v != NilV && fuel > 0 {
      var r := Ev.EvalStmts(h, fuel - 1, st1, body, |body|, sc);
      assert Ev.EvalLoop(h, fuel, st, loop, sc) == Ev.EvalRound(h, fuel - 1, st1, loop, sc);
      if r.Done? || r.Continued? {
        assert Ev.EvalRound(h, fuel - 1, st1, loop, sc) == Ev.EvalLoop(h, fuel - 1, r.st, loop, sc);
        assert Ev.EvalStmt(h, fuel - 1, r.st, loop, sc) == Ev.EvalLoop(h, fuel - 1, r.st, loop, sc);
      }
    }
  }

  // --------------------------------------------------------------- variables

  /** What variable i of count is assigned: the value itself, if there is only one; otherwise element i of the array,
      and nil if it has none. */
  function Item(v: Value, count: nat, i: nat): Value
    requires count == 1 || v.ArrV?
  {
    if count == 1 then v else if i < |v.elems| then v.elems[i] else NilV
  }

  /** Variables of the running method or program, with the values they have. */
  function Own(st: Ev.EState): map<Name, Value>
    requires |st.envs| > 0
  {
    st.envs[|st.envs| - 1].vars
  }

  lemma OwnRead(h: Host, fuel: nat, st: Ev.EState, sc: Scope, x: Name)
    requires |st.envs| > 0 && x in sc.cur
    ensures Ev.Eval(h, fuel, st, Ident(x), sc) == Ev.Val(if x in Own(st) then Own(st)[x] else NilV, st)
  {
    assert Resolve(sc, x).Some? && Resolve(sc, x).value.depth == 0;
  }

  lemma OwnStored(st: Ev.EState, sc: Scope, x: Name, v: Value)
    requires |st.envs| > 0 && sc.outer == []
    ensures
      var r, sc' := Ev.Store(st, Declare(sc, x), x, v), Declare(sc, x);
      && r.Done? && |r.st.envs| == |st.envs| && Own(r.st) == Own(st)[x := v] && sc'.outer == [] && x in sc'.cur
      && forall y :: y in sc.cur ==> y in sc'.cur
  {
    assert Resolve(Declare(sc, x), x).Some? && Resolve(Declare(sc, x), x).value.depth == 0;
  }

  /** The stores of an assignment, up to the first n. */
  ghost predicate StoredSome(st: Ev.EState, sc: Scope, vars: seq<Name>, n: nat, v: Value, r: Ev.Out, sc': Scope)
    requires |st.envs| > 0 && n <= |vars| && (|vars| == 1 || v.ArrV?)
  {
    && r.Done? && |r.st.envs| == |st.envs| && sc'.outer == [] && (forall y :: y in sc.cur ==> y in sc'.cur)
    && (forall i :: 0 <= i < n && vars[i] != BLANK ==>
          vars[i] in sc'.cur && vars[i] in Own(r.st) && Own(r.st)[vars[i]] == Item(v, |vars|, i))
    && (forall y :: y !in vars ==> Ev.Look(Own(r.st), y) == Ev.Look(Own(st), y))
  }

  /** The variables of an assignment are different, but for those that are left blank. */
  predicate VarsDiffer(vars: seq<Name>) {
    forall i, j :: 0 <= i < j < |vars| && vars[i] != BLANK ==> vars[i] != vars[j]
  }

  lemma {:induction false} StoresSome(st: Ev.EState, sc: Scope, vars: seq<Name>, n: nat, v: Value)
    requires |st.envs| > 0 && n <= |vars| && sc.outer == [] && VarsDiffer(vars) && vars != []
    requires |vars| == 1 || v.ArrV?
    ensures StoredSome(st, sc, vars, n, v, Ev.StoreAll(st, sc, vars, n, v), DeclareAll(sc, vars, n))
    decreases n
  {
    hide Ev.Store, Declare;
    if n > 0 {
      StoresSome(st, sc, vars, n - 1, v);
      var before, sc1 := Ev.StoreAll(st, sc, vars, n - 1, v), DeclareAll(sc, vars, n - 1);
      OwnStored(before.st, sc1, vars[n - 1], Item(v, |vars|, n - 1));
    }
  }

  /** What is assigned to variables of the method is what is read from them, each of several its element, and no other
      variable changes.  The value of the assignment is that of its last variable.  Anything but an array cannot be
      assigned to several. */
  lemma AssignedIsRead(h: Host, fuel: nat, st: Ev.EState, sc: Scope, vars: seq<Name>, value: Expr, v: Value,
                       st1: Ev.EState)
    requires |st.envs| > 0 && |st1.envs| > 0 && vars != [] && VarsDiffer(vars) && After(value, sc).outer == []
    requires Ev.Eval(h, fuel, st, value, sc) == Ev.Val(v, st1)
    ensures
      var e := Assign(vars, value);
      var out, inside := Ev.Eval(h, fuel, st, e, sc), After(value, sc);
      if |vars| > 1 && !v.ArrV? then out == Ev.Error(TypeError, st1) else
      && out.Val? && out.v == Item(v, |vars|, |vars| - 1)
      && (forall i :: 0 <= i < |vars| && vars[i] != BLANK ==>
            Ev.Eval(h, fuel, out.st, Ident(vars[i]), After(e, sc)) == Ev.Val(Item(v, |vars|, i), out.st))
      && (forall y :: y !in vars && y in inside.cur ==>
            exists was :: Ev.Eval(h, fuel, st1, Ident(y), inside) == Ev.Val(was, st1)
                          && Ev.Eval(h, fuel, out.st, Ident(y), After(e, sc)) == Ev.Val(was, out.st))
  {
    var e, sc1, sc2 := Assign(vars, value), After(value, sc), DeclareAll(After(value, sc), vars, |vars|);
    if |vars| > 1 && !v.ArrV? { return; }
    StoresSome(st1, sc1, vars, |vars|, v);
    var r := Ev.StoreAll(st1, sc1, vars, |vars|, v);
    assert After(e, sc) == sc2 && Ev.Eval(h, fuel, st, e, sc) == Ev.Val(Item(v, |vars|, |vars| - 1), r.st);
    hide Ev.Eval, Ev.StoreAll, DeclareAll, After;
    forall i | 0 <= i < |vars| && vars[i] != BLANK
      ensures Ev.Eval(h, fuel, r.st, Ident(vars[i]), sc2) == Ev.Val(Item(v, |vars|, i), r.st)
    {
      OwnRead(h, fuel, r.st, sc2, vars[i]);
    }
    forall y | y !in vars && y in sc1.cur
      ensures exists was :: Ev.Eval(h, fuel, st1, Ident(y), sc1) == Ev.Val(was, st1)
                            && Ev.Eval(h, fuel, r.st, Ident(y), sc2) == Ev.Val(was, r.st)
    {
      OwnRead(h, fuel, st1, sc1, y);
      OwnRead(h, fuel, r.st, sc2, y);
      assert Ev.Look(Own(r.st), y) == Ev.Look(Own(st1), y);
    }
  }

  // ------------------------------------------------------------------- calls

  /** A call of a defined method: with arguments it does not take an argument error, and its body is not run; otherwise
      the body is run with the receiver as self, the arguments bound, and the block passed. */
  lemma MethodCalled(h: Host, fuel: nat, st: Ev.EState, recv: Value, name: Name, args: seq<Expr>, vs: seq<Value>,
                     block: Option<Ev.BlockVal>, c: Name)
    requires |vs| == |args| && h.find(st.defs.Keys, recv, name) == Defined(c) && (c, name) in st.defs
    ensures
      var m := st.defs[(c, name)];
      var out := Ev.Call(h, fuel, st, recv, name, vs, Some(ArgSetOf(args)), block);
      if || (|args| > |m.params| && forall i :: 0 <= i < |m.params| ==> !m.params[i].RestParam?)
         || |args| < AE.Normals(m.params, |m.params|)
         || (exists i: nat :: i < |m.params| && AE.MissingAt(m.params, args, i))
         || (exists a: nat :: a < |args| && AE.UnknownAt(m.params, args, a))
      then out == Ev.Error(ArgumentError, st)
      else
        var slots := BindValues(ParamSetOf(m.params), Some(ArgSetOf(args)), vs);
        && slots.Ok?
        && (fuel > 0 ==>
              var env := Ev.Env(Ev.Bound(ParamSetOf(m.params).names, slots.value, |m.params|), recv, None, block);
              out == Ev.Finish(Ev.RunMethod(h, fuel - 1, Ev.PushEnv(st, env), m)))
  {
    hide Ev.RunMethod, Ev.Bound, AE.Normals, AE.MissingAt, AE.UnknownAt, Bind;
    AE.CallFails(st.defs[(c, name)].params, args, vs);
  }
}
