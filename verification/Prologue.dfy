/**
 The prologue of a method: the defaults behind the bound parameters.  When the
 defaults are pure (each has a value, and evaluating it changes nothing), it
 sets exactly the parameters the call left unset and changes nothing else.
 Literals, variables and the operators on them are pure; arithmetic and
 comparison where their operands are integers, as elsewhere they are calls.
 */
module Prologue {
  import opened Wrappers
  import opened Ast
  import opened Bytecode
  import opened Layout
  import opened Binding
  import opened BindingLaws
  import opened WellFormed
  import opened Machine
  import Ev = Evaluator

  /** Literals, variables of the method, and arrays, integer operators and short-circuit operators over them. */
  predicate Quiet(e: Expr, sc: Scope)
    decreases e, 0
  {
    match e
    case IntLit(_) => true
    case StrLit(_) => true
    case BoolLit(_) => true
    case NilLit => true
    case SelfRef => true
    case BlockGiven => true
    case Ident(x) => x in sc.cur
    case ArrayLit(elems) => QuietAll(elems, sc)
    case Logic(_, l, r) => Quiet(l, sc) && Quiet(r, sc)
    case Infix(op, l, r) => OperatorInstr(op).IArith? && Quiet(l, sc) && Quiet(r, sc)
    case Plus(a) => Quiet(a, sc)
    case _ => false
  }

  predicate QuietAll(es: seq<Expr>, sc: Scope)
    decreases es, 0
  {
    forall i :: 0 <= i < |es| ==> Quiet(es[i], sc)
  }

  /** What a quiet expression is worth in an activation; None where an integer operator has
      an operand that is no integer. */
  function Worth(e: Expr, env: Ev.Env): Option<Value>
    decreases e, 0
  {
    match e
    case IntLit(n) => Some(IntV(n))
    case StrLit(t) => Some(StrV(t))
    case BoolLit(b) => Some(BoolV(b))
    case NilLit => Some(NilV)
    case SelfRef => Some(env.self)
    case BlockGiven => Some(BoolV(env.block.Some?))
    case Ident(x) => Some(if x in env.vars then env.vars[x] else NilV)
    case ArrayLit(elems) => (match Worths(elems, |elems|, env) case None => None case Some(vs) => Some(ArrV(vs)))
    case Logic(conj, l, r) =>
      var a := Worth(l, env);
      if a.None? || Truthy(a.value) != conj then a else Worth(r, env)
    case Infix(op, l, r) =>
      var a, b := Worth(l, env), Worth(r, env);
      if OperatorInstr(op).IArith? && a.Some? && b.Some? && a.value.IntV? && b.value.IntV?
      then Some(Arithmetic(OperatorInstr(op).op, a.value.n, b.value.n)) else None
    case Plus(a) => Worth(a, env)
    case _ => None
  }

  function Worths(es: seq<Expr>, n: nat, env: Ev.Env): Option<seq<Value>>
    requires n <= |es|
    decreases es, n
  {
    if n == 0 then Some([])
    else
      var before, v := Worths(es, n - 1, env), Worth(es[n - 1], env);
      if before.None? || v.None? then None else Some(before.value + [v.value])
  }

  lemma {:induction false} QuietScope(e: Expr, sc: Scope)
    requires Quiet(e, sc)
    ensures After(e, sc) == sc
    decreases e, 0
  {
    match e
    case ArrayLit(elems) => QuietScopes(elems, |elems|, sc);
    case Logic(_, l, r) => QuietScope(l, sc); QuietScope(r, sc);
    case Infix(_, l, r) => QuietScope(l, sc); QuietScope(r, sc);
    case Plus(a) => QuietScope(a, sc);
    case _ =>
  }

  lemma {:induction false} QuietScopes(es: seq<Expr>, n: nat, sc: Scope)
    requires n <= |es| && QuietAll(es, sc)
    ensures AfterAll(es, n, sc) == sc
    decreases es, n
  {
    if n > 0 {
      QuietScopes(es, n - 1, sc);
      QuietScope(es[n - 1], sc);
    }
  }

  /** A quiet expression has its worth and no effect. */
  lemma {:induction false} QuietEval(h: Host, fuel: nat, st: Ev.EState, e: Expr, sc: Scope)
    requires Quiet(e, sc) && |st.envs| > 0 && sc.outer == [] && Worth(e, Ev.Current(st)).Some?
    ensures Ev.Eval(h, fuel, st, e, sc) == Ev.Val(Worth(e, Ev.Current(st)).value, st)
    decreases e, 0
  {
    hide Ev.Call, Ev.YieldCall, Ev.EvalArms, Ev.StoreAll, OperatorInstr, Arithmetic;
    match e
    case ArrayLit(elems) => QuietEvals(h, fuel, st, elems, |elems|, sc);
    case Logic(conj, l, r) =>
      QuietEval(h, fuel, st, l, sc);
      QuietScope(l, sc);
      if Truthy(Worth(l, Ev.Current(st)).value) == conj { QuietEval(h, fuel, st, r, sc); }
    case Infix(_, l, r) =>
      QuietEval(h, fuel, st, l, sc);
      QuietScope(l, sc);
      QuietEval(h, fuel, st, r, sc);
    case Plus(a) => QuietEval(h, fuel, st, a, sc);
    case _ =>
  }

  lemma {:induction false} QuietEvals(h: Host, fuel: nat, st: Ev.EState, es: seq<Expr>, n: nat, sc: Scope)
    requires n <= |es| && QuietAll(es, sc) && |st.envs| > 0 && sc.outer == [] && Worths(es, n, Ev.Current(st)).Some?
    ensures Ev.EvalAll(h, fuel, st, es, n, sc) == Ev.Outs(Worths(es, n, Ev.Current(st)).value, st)
    decreases es, n
  {
    hide Ev.Eval;
    if n > 0 {
      QuietEvals(h, fuel, st, es, n - 1, sc);
      QuietScopes(es, n - 1, sc);
      QuietEval(h, fuel, st, es[n - 1], sc);
    }
  }

  // ------------------------------------------------------------ the prologue

  function DefaultScope(ps: seq<Param>, i: nat): Scope
    requires i < |ps|
  {
    var sc := AfterParams(ps, i, EMPTY);
    if ps[i].KeyDefaultParam? then Declare(sc, ps[i].name) else sc
  }

  predicate HasDefault(p: Param) {
    p.DefaultParam? || p.KeyDefaultParam?
  }

  /** What the default of parameter i evaluates to in this activation. */
  function DefaultOut(h: Host, fuel: nat, st: Ev.EState, ps: seq<Param>, i: nat, env: Ev.Env): Ev.Out
    requires i < |ps| && HasDefault(ps[i])
  {
    Ev.Eval(h, fuel, Ev.PushEnv(st, env), ps[i].default, DefaultScope(ps, i))
  }

  /** The value a parameter gets when the call gives it none. */
  function Fallback(h: Host, fuel: nat, st: Ev.EState, ps: seq<Param>, i: nat, env: Ev.Env): Option<Value>
    requires i < |ps|
  {
    match ps[i]
    case RestParam(_) => Some(ArrV([]))
    case _ =>
      if !HasDefault(ps[i]) then None
      else match DefaultOut(h, fuel, st, ps, i, env)
        case Val(v, _) => Some(v)
        case _ => None
  }

  /** The activation when the first n parameters have been looked at. */
  function Filled(h: Host, fuel: nat, st: Ev.EState, ps: seq<Param>, n: nat, env: Ev.Env): Ev.Env
    requires n <= |ps|
  {
    if n == 0 then env
    else
      var e := Filled(h, fuel, st, ps, n - 1, env);
      var v := Fallback(h, fuel, st, ps, n - 1, e);
      if ps[n - 1].name in e.vars || v.None? then e else e.(vars := e.vars[ps[n - 1].name := v.value])
  }

  /** Every default, when its turn comes, has a value, and evaluating it changes nothing.  (It is evaluated,
      whether used or not.) */
  predicate PureDefaults(h: Host, fuel: nat, st: Ev.EState, ps: seq<Param>, n: nat, env: Ev.Env)
    requires n <= |ps|
  {
    n == 0
    || (&& PureDefaults(h, fuel, st, ps, n - 1, env)
        && var e := Filled(h, fuel, st, ps, n - 1, env);
           HasDefault(ps[n - 1]) ==>
             var r := DefaultOut(h, fuel, st, ps, n - 1, e);
             r.Val? && r.st == Ev.PushEnv(st, e))
  }

  /** The prologue fills the running activation and touches nothing else: no other
      activation, no method, no host state. */
  lemma {:induction false} PrologueFills(h: Host, fuel: nat, st: Ev.EState, env: Ev.Env, ps: seq<Param>, n: nat)
    requires n <= |ps| && PureDefaults(h, fuel, st, ps, n, env)
    ensures Ev.Defaults(h, fuel, Ev.PushEnv(st, env), ps, n) == Ev.Done(Ev.PushEnv(st, Filled(h, fuel, st, ps, n, env)))
    decreases n
  {
    hide Ev.Eval, AfterParams, Declare;
    if n > 0 {
      PrologueFills(h, fuel, st, env, ps, n - 1);
      var e := Filled(h, fuel, st, ps, n - 1, env);
      var v := Fallback(h, fuel, st, ps, n - 1, e);
      assert Ev.Current(Ev.PushEnv(st, e)) == e;
      if v.Some? { SetVarOnTop(st, e, ps[n - 1].name, v.value); }
    }
  }

  // ------------------------------------------- defaults that are seen to be pure

  /** Every default is quiet in the scope of the parameters before it. */
  predicate QuietDefaults(ps: seq<Param>, n: nat)
    requires n <= |ps|
  {
    forall i {:trigger ps[i]} :: 0 <= i < n && HasDefault(ps[i]) ==> Quiet(ps[i].default, DefaultScope(ps, i))
  }

  /** Every quiet default is worth something when its turn comes. */
  predicate AllWorth(h: Host, fuel: nat, st: Ev.EState, ps: seq<Param>, n: nat, env: Ev.Env)
    requires n <= |ps|
  {
    forall i {:trigger ps[i]} :: 0 <= i < n && HasDefault(ps[i]) ==>
      Worth(ps[i].default, Filled(h, fuel, st, ps, i, env)).Some?
  }

  /** Quiet defaults that are worth something are pure, and worth what they evaluate to. */
  lemma {:induction false} QuietPure(h: Host, fuel: nat, st: Ev.EState, ps: seq<Param>, n: nat, env: Ev.Env)
    requires n <= |ps| && QuietDefaults(ps, n) && AllWorth(h, fuel, st, ps, n, env)
    ensures PureDefaults(h, fuel, st, ps, n, env)
    ensures forall i {:trigger ps[i]} :: 0 <= i < n && HasDefault(ps[i]) ==>
      var e := Filled(h, fuel, st, ps, i, env);
      Fallback(h, fuel, st, ps, i, e) == Worth(ps[i].default, e)
    decreases n
  {
    hide Ev.Eval, Quiet, Worth, After, Filled, Declare;
    if n > 0 {
      QuietPure(h, fuel, st, ps, n - 1, env);
      var e, sc := Filled(h, fuel, st, ps, n - 1, env), AfterParams(ps, n - 1, EMPTY);
      assert sc.outer == [] by { AfterParamsGrows(ps, 0, n - 1, EMPTY); }
      assert Declare(sc, ps[n - 1].name).outer == [] by { DeclareGrows(sc, ps[n - 1].name); }
      assert Ev.Current(Ev.PushEnv(st, e)) == e;
      if HasDefault(ps[n - 1]) { QuietEval(h, fuel, Ev.PushEnv(st, e), ps[n - 1].default, DefaultScope(ps, n - 1)); }
    }
  }

  /** Without integer operators nothing can be worth nothing. */
  predicate Plain(e: Expr)
    decreases e, 0
  {
    match e
    case ArrayLit(elems) => PlainAll(elems)
    case Logic(_, l, r) => Plain(l) && Plain(r)
    case Plus(a) => Plain(a)
    case Infix(_, _, _) => false
    case _ => true
  }

  predicate PlainAll(es: seq<Expr>)
    decreases es, 0
  {
    forall i :: 0 <= i < |es| ==> Plain(es[i])
  }

  lemma {:induction false} PlainWorth(e: Expr, sc: Scope, env: Ev.Env)
    requires Quiet(e, sc) && Plain(e)
    ensures Worth(e, env).Some?
    decreases e, 0
  {
    match e
    case ArrayLit(elems) => PlainWorths(elems, |elems|, sc, env);
    case Logic(_, l, r) => PlainWorth(l, sc, env); PlainWorth(r, sc, env);
    case Plus(a) => PlainWorth(a, sc, env);
    case _ =>
  }

  lemma {:induction false} PlainWorths(es: seq<Expr>, n: nat, sc: Scope, env: Ev.Env)
    requires n <= |es| && QuietAll(es, sc) && PlainAll(es)
    ensures Worths(es, n, env).Some?
    decreases es, n
  {
    if n > 0 {
      PlainWorths(es, n - 1, sc, env);
      PlainWorth(es[n - 1], sc, env);
    }
  }

  /** Quiet defaults without integer operators are pure whatever the call was, in any state, with any fuel. */
  lemma AlwaysPure(h: Host, fuel: nat, st: Ev.EState, ps: seq<Param>, n: nat, env: Ev.Env)
    requires n <= |ps| && QuietDefaults(ps, n)
    requires forall i {:trigger ps[i]} :: 0 <= i < n && HasDefault(ps[i]) ==> Plain(ps[i].default)
    ensures PureDefaults(h, fuel, st, ps, n, env)
  {
    hide Quiet, Worth, Plain, DefaultScope, Filled, PureDefaults;
    forall i | 0 <= i < n && HasDefault(ps[i]) ensures Worth(ps[i].default, Filled(h, fuel, st, ps, i, env)).Some? {
      PlainWorth(ps[i].default, DefaultScope(ps, i), Filled(h, fuel, st, ps, i, env));
    }
    QuietPure(h, fuel, st, ps, n, env);
  }

  lemma SetVarOnTop(st: Ev.EState, e: Ev.Env, x: Name, v: Value)
    ensures Ev.SetVar(Ev.PushEnv(st, e), |st.envs|, x, v) == Ev.PushEnv(st, e.(vars := e.vars[x := v]))
  {
  }

  predicate DistinctNames(ps: seq<Param>) {
    forall i, j :: 0 <= i < j < |ps| ==> ps[i].name != ps[j].name
  }

  /** A parameter the call gave a value keeps it; any other gets its default, if it has one. */
  lemma {:induction false} FilledSlot(h: Host, fuel: nat, st: Ev.EState, ps: seq<Param>, n: nat, env: Ev.Env, i: nat)
    requires i < n <= |ps| && DistinctNames(ps)
    ensures
      var x, e := ps[i].name, Filled(h, fuel, st, ps, n, env);
      Ev.Look(e.vars, x) ==
        if x in env.vars then Some(env.vars[x]) else Fallback(h, fuel, st, ps, i, Filled(h, fuel, st, ps, i, env))
    decreases n
  {
    hide Fallback;
    if i < n - 1 { FilledSlot(h, fuel, st, ps, n - 1, env, i); } else { NotYet(h, fuel, st, ps, i, env, i); }
  }

  lemma {:induction false} NotYet(h: Host, fuel: nat, st: Ev.EState, ps: seq<Param>, n: nat, env: Ev.Env, i: nat)
    requires n <= i < |ps| && DistinctNames(ps)
    ensures Ev.Look(Filled(h, fuel, st, ps, n, env).vars, ps[i].name) == Ev.Look(env.vars, ps[i].name)
    decreases n
  {
    hide Fallback;
    if n > 0 { NotYet(h, fuel, st, ps, n - 1, env, i); }
  }

  lemma {:induction false} PlainNames(ps: seq<Param>, n: nat)
    requires n <= |ps| && PlainDefaults(ps, n)
    ensures
      var sc := AfterParams(ps, n, EMPTY);
      |sc.cur| == n && (forall i :: 0 <= i < n ==> sc.cur[i] == ps[i].name)
      && forall i, j :: 0 <= i < j < n ==> ps[i].name != ps[j].name
    decreases n
  {
    hide AfterParam;
    if n > 0 {
      PlainNames(ps, n - 1);
      var sc := AfterParams(ps, n - 1, EMPTY);
      forall i | 0 <= i < n - 1 ensures ps[i].name != ps[n - 1].name {
        assert sc.cur[i] == ps[i].name;
      }
    }
  }

  lemma {:induction false} BoundSlot(names: seq<Name>, slots: Slots<Value>, n: nat, i: nat)
    requires i < n <= |names| && n <= |slots| && forall j, k :: 0 <= j < k < |names| ==> names[j] != names[k]
    ensures Ev.Look(Ev.Bound(names, slots, n), names[i]) == slots[i]
    decreases n
  {
    if i < n - 1 { BoundSlot(names, slots, n - 1, i); } else { BoundLater(names, slots, i, i); }
  }

  lemma {:induction false} BoundLater(names: seq<Name>, slots: Slots<Value>, n: nat, i: nat)
    requires n <= i < |names| && n <= |slots| && forall j, k :: 0 <= j < k < |names| ==> names[j] != names[k]
    ensures names[i] !in Ev.Bound(names, slots, n)
    decreases n
  {
    if n > 0 { BoundLater(names, slots, n - 1, i); }
  }

  /** The activation of a method whose parameters are bound to these slots. */
  function BoundEnv(ps: seq<Param>, slots: Slots<Value>, self: Value, block: Option<Ev.BlockVal>): Ev.Env
    requires |slots| == |ps|
  {
    Ev.Env(Ev.Bound(ParamSetOf(ps).names, slots, |ps|), self, None, block)
  }

  /** Binding and prologue together: a bound parameter keeps its slot, any other has its default. */
  lemma BoundThenFilled(h: Host, fuel: nat, st: Ev.EState, ps: seq<Param>, slots: Slots<Value>, self: Value,
                        block: Option<Ev.BlockVal>)
    requires PlainDefaults(ps, |ps|) && |slots| == |ps|
    requires PureDefaults(h, fuel, st, ps, |ps|, BoundEnv(ps, slots, self, block))
    ensures
      var start := BoundEnv(ps, slots, self, block);
      var env := Filled(h, fuel, st, ps, |ps|, start);
      && Ev.Defaults(h, fuel, Ev.PushEnv(st, start), ps, |ps|) == Ev.Done(Ev.PushEnv(st, env))
      && env.self == self && env.ep == None && env.block == block
      && forall j {:trigger ps[j]} :: 0 <= j < |ps| ==>
           Ev.Look(env.vars, ps[j].name) ==
             if slots[j].Some? then slots[j] else Fallback(h, fuel, st, ps, j, Filled(h, fuel, st, ps, j, start))
  {
    hide Ev.Defaults, Fallback, PureDefaults;
    var start := BoundEnv(ps, slots, self, block);
    var names := ParamSetOf(ps).names;
    PlainNames(ps, |ps|);
    PrologueFills(h, fuel, st, start, ps, |ps|);
    FilledKeeps(h, fuel, st, ps, |ps|, start);
    forall j | 0 <= j < |ps|
      ensures
        Ev.Look(Filled(h, fuel, st, ps, |ps|, start).vars, ps[j].name) ==
          if slots[j].Some? then slots[j] else Fallback(h, fuel, st, ps, j, Filled(h, fuel, st, ps, j, start))
    {
      BoundSlot(names, slots, |ps|, j);
      assert names[j] == ps[j].name;
      FilledSlot(h, fuel, st, ps, |ps|, start, j);
    }
  }

  /** A call with k plain arguments of a method with m parameters before a rest parameter: after
      binding and prologue the first min(k, m) parameters hold the arguments in order, the
      others their defaults, and the rest parameter exactly the remaining arguments. */
  lemma RestParameter(h: Host, fuel: nat, st: Ev.EState, ps: seq<Param>, given: ArgSet, args: seq<Value>,
                      self: Value, block: Option<Ev.BlockVal>)
    requires PlainDefaults(ps, |ps|) && RestCall(ParamSetOf(ps), given) && |given.types| == |args|
    requires
      var r := BindValues(ParamSetOf(ps), Some(given), args);
      r.Ok? ==> PureDefaults(h, fuel, st, ps, |ps|, BoundEnv(ps, r.value, self, block))
    ensures
      var r := BindValues(ParamSetOf(ps), Some(given), args);
      && r.Ok?
      && var start, m := BoundEnv(ps, r.value, self, block), |ps| - 1;
         var env := Filled(h, fuel, st, ps, |ps|, start);
      && Ev.Defaults(h, fuel, Ev.PushEnv(st, start), ps, |ps|) == Ev.Done(Ev.PushEnv(st, env))
      && (forall j {:trigger ps[j]} :: 0 <= j < m ==>
            Ev.Look(env.vars, ps[j].name) ==
              if j < |args| then Some(args[j]) else Fallback(h, fuel, st, ps, j, Filled(h, fuel, st, ps, j, start)))
      && Ev.Look(env.vars, ps[m].name) == Some(ArrV(if m <= |args| then args[m..] else []))
  {
    hide Ev.Defaults, Bind, Fallback, Filled, BoundEnv, PureDefaults;
    var params, m := ParamSetOf(ps), |ps| - 1;
    RestBinding(params, given, args, Pack);
    var slots := BindValues(params, Some(given), args).value;
    BoundThenFilled(h, fuel, st, ps, slots, self, block);
    assert params.types[m] == SplatArg;
    RestFallback(h, fuel, st, ps, m, Filled(h, fuel, st, ps, m, BoundEnv(ps, slots, self, block)));
    FewNormals(params);
    if m == |args| { assert args[m..] == []; }
  }

  lemma FewNormals(params: ArgSet)
    requires |params.types| > 0 && params.types[|params.types| - 1] == SplatArg
    ensures CountNormal(params.types) <= |params.types| - 1
  {
  }

  lemma RestFallback(h: Host, fuel: nat, st: Ev.EState, ps: seq<Param>, i: nat, env: Ev.Env)
    requires i < |ps| && ps[i].RestParam?
    ensures Fallback(h, fuel, st, ps, i, env) == Some(ArrV([]))
  {
  }

  lemma {:induction false} FilledKeeps(h: Host, fuel: nat, st: Ev.EState, ps: seq<Param>, n: nat, env: Ev.Env)
    requires n <= |ps|
    ensures var e := Filled(h, fuel, st, ps, n, env); e.self == env.self && e.ep == env.ep && e.block == env.block
    decreases n
  {
    hide Fallback;
    if n > 0 { FilledKeeps(h, fuel, st, ps, n - 1, env); }
  }
}
