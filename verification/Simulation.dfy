/**
 Compiled code does what the evaluator says, by induction on fuel and the tree.
 Each lemma returns the number of steps the machine takes.
 */
module Simulation {
  import opened Wrappers
  import opened Ast
  import opened Layout
  import opened Machine
  import opened Binding
  import opened Bytecode
  import opened WellFormed
  import opened Shapes
  import opened Relation
  import opened Activation
  import opened Locals
  import opened Steps
  import opened Stores
  import Ev = Evaluator

  ghost function Allowed(jumps: bool, loop: Option<Loop>): Option<Loop> {
    if jumps then loop else None
  }

  function Unit(s: State): nat
    requires |s.frames| > 0
  {
    Top(s).unit
  }

  /** The machine stands at the code of e and agrees with st. */
  ghost predicate AtExpr(c: Setting, e: Expr, sc: Scope, loop: Option<Loop>, jumps: bool, st: Ev.EState, s: State) {
    && Drives(c) && Sound(c.p) && Ready(c, st, s)
    && CodeAt(c.p, Unit(s), s.pc, e, sc, loop)
    && InScope(c.p, Unit(s), After(e, sc))
    && WfExpr(e, |sc.outer|, jumps) && (jumps ==> loop.Some? && sc.outer == [])
  }

  ghost predicate ExprEnds(c: Setting, fuel: nat, e: Expr, sc: Scope, loop: Option<Loop>, jumps: bool, st: Ev.EState,
                           s: State, n: nat)
    requires |s.frames| > 0
  {
    var out := Ev.Eval(c.h, fuel, st, e, sc);
    !out.Done? && Ends(c, fuel, s, n, out, s.pc + Size(e, sc, SiteOf(c.p, Unit(s), loop)), Allowed(jumps, loop))
  }

  // -------------------------------------------------------------- chaining

  /** The next operand starts where this one ended. */
  lemma Onward(c: Setting, fuel: nat, s: State, n: nat, out: Ev.Out, end: int, loop: Option<Loop>)
    requires |s.frames| > 0 && Ends(c, fuel, s, n, out, end, loop) && out.Val?
    ensures
      var t := Later(c, s, n);
      && Ready(c, out.st, t) && SameFrames(s.frames, t.frames) && t.pc == end && t.stack == s.stack + [out.v]
      && Unit(t) == Unit(s)
  {
    hide EnvsOk, Linked, DefsOk;
  }

  /** An operand without a value ends the expression it stands in. */
  lemma Abort(c: Setting, fuel: nat, s: State, n: nat, out: Ev.Out, end: int, end': int, loop: Option<Loop>)
    requires Ends(c, fuel, s, n, out, end, None) && !out.Val? && !out.Done?
    ensures Ends(c, fuel, s, n, out, end', loop)
  {
    hide EnvsOk, Linked, DefsOk;
  }

  lemma Widen(c: Setting, fuel: nat, s: State, n: nat, out: Ev.Out, end: int, loop: Option<Loop>)
    requires Ends(c, fuel, s, n, out, end, None)
    ensures Ends(c, fuel, s, n, out, end, loop)
  {
    hide EnvsOk, Linked, DefsOk;
  }

  // ------------------------------------------------------------------ calls

  lemma InvokeSim(c: Setting, fuel: nat, st: Ev.EState, u: State, base: seq<Value>, recv: Value, name: Name,
                  args: seq<Value>, given: Option<ArgSet>, eb: Option<Ev.BlockVal>, vb: Option<BlockRef>, next: nat)
    returns (n: nat)
    requires Drives(c) && Sound(c.p) && Ready(c, st, u) && Matches(given, args)
    requires u.stack == base + [recv] + args
    requires !Halted(c.p.sets, u) && Later(c, u, 1) == Invoke(c.p.sets, c.h, u, next, name, |args|, given, vb)
    requires BlockOk(c.p, eb, vb) && (vb.Some? ==> BlockFits(c.p, u.frames, vb.value, |u.frames|))
    ensures Lands(c, fuel, u.(stack := base), n, Later(c, u, n), Ev.Call(c.h, fuel, st, recv, name, args, given, eb),
                  next, None)
    decreases fuel, 0
  {
    hide Exec, Step, Decode, Names, Bind, CodeStmts, CodeParams, EnvOk, LinkedAt, Ev.RunMethod, Ev.Bound, EnvsOk;
    hide Linked, BlockFits, Iterate, UnitAt, Compiled;
    assert u.stack[..|base|] == base && u.stack[|base| + 1..] == args;
    n := 1;
    match c.h.find(st.defs.Keys, recv, name)
    case Missing =>
    case Builtin =>
    case Defined(cl) =>
      if (cl, name) in st.defs {
        var m := st.defs[(cl, name)];
        var unit := u.defs[(cl, name)];
        MethodParams(c.p, unit, m.params, m.body);
        var bound := BindValues(ParamSetOf(m.params), given, args);
        if bound.Ok? && fuel == 0 {
          n := 0;
          LaterZero(c, u);
        } else if bound.Ok? {
          n := MethodCallSim(c, fuel, st, u, base, recv, bound.value, m, unit, eb, vb, next);
        }
      }
  }

  lemma MethodParams(p: Program, unit: nat, params: seq<Param>, body: seq<Stmt>)
    requires Compiled(p) && unit < |p.units| && p.units[unit] == MethodSource(params, body)
    ensures unit < |p.sets| && p.sets[unit].params == ParamSetOf(params)
  {
    hide CodeStmts, CodeParams, At, SizeStmts, SizeParams, AfterParams;
    assert UnitAt(p, unit);
  }

  lemma LaterZero(c: Setting, s: State)
    ensures Later(c, s, 0) == s
  {
  }

  /** A call of a compiled method whose arguments are bound. */
  lemma MethodCallSim(c: Setting, fuel: nat, st: Ev.EState, u: State, base: seq<Value>, recv: Value,
                      slots: Slots<Value>, m: Ev.MethodDef, unit: nat, eb: Option<Ev.BlockVal>, vb: Option<BlockRef>,
                      next: nat)
    returns (n: nat)
    requires Drives(c) && Sound(c.p) && Ready(c, st, u) && fuel > 0 && base < u.stack && |slots| == |m.params|
    requires unit < |c.p.units| && c.p.units[unit] == MethodSource(m.params, m.body)
    requires Later(c, u, 1) == Enter(u, Frame(unit, slots, recv, None, vb, |base|, next))
    requires BlockOk(c.p, eb, vb) && (vb.Some? ==> BlockFits(c.p, u.frames, vb.value, |u.frames|))
    ensures
      var env := Ev.Env(Ev.Bound(ParamSetOf(m.params).names, slots, |m.params|), recv, None, eb);
      Lands(c, fuel, u.(stack := base), n, Later(c, u, n),
            Ev.Finish(Ev.RunMethod(c.h, fuel - 1, Ev.PushEnv(st, env), m)), next, None)
    decreases fuel - 1, 6
  {
    hide Exec, Step, Decode, Names, EnvsOk, Linked, DefsOk, Ev.RunMethod, Ev.Bound, Iterate, Sound;
    var env := Ev.Env(Ev.Bound(ParamSetOf(m.params).names, slots, |m.params|), recv, None, eb);
    var f := Frame(unit, slots, recv, None, vb, |base|, next);
    EnterMethod(c, st, u, env, f, m);
    var k := MethodSim(c, fuel - 1, m, unit, Ev.PushEnv(st, env), Enter(u, f));
    n := Activated(c, fuel, u, base, f, k, Ev.RunMethod(c.h, fuel - 1, Ev.PushEnv(st, env), m));
  }

  /** The new frame of a method call agrees with the new environment. */
  lemma EnterMethod(c: Setting, st: Ev.EState, u: State, env: Ev.Env, f: Frame, m: Ev.MethodDef)
    requires Sound(c.p) && Ready(c, st, u) && f.unit < |c.p.units|
    requires c.p.units[f.unit] == MethodSource(m.params, m.body)
    requires |f.locals| == |m.params| && env.vars == Ev.Bound(ParamSetOf(m.params).names, f.locals, |m.params|)
    requires f.ep == None == env.ep && f.self == env.self && BlockOk(c.p, env.block, f.block)
    requires f.block.Some? ==> BlockFits(c.p, u.frames, f.block.value, |u.frames|)
    ensures Ready(c, Ev.PushEnv(st, env), Enter(u, f))
  {
    hide CodeStmts, CodeParams, Decode;
    assert UnitWf(c.p, f.unit);
    MethodStart(c.p.units[f.unit]);
    BoundAgrees(Names(c.p.units[f.unit]), ParamSetOf(m.params).names, f.locals);
    EnterAgrees(c, st, u, env, f);
  }

  /** Defaults, body and Leave of a method. */
  lemma MethodSim(c: Setting, fuel: nat, m: Ev.MethodDef, unit: nat, st: Ev.EState, v: State) returns (n: nat)
    requires Drives(c) && Sound(c.p) && Ready(c, st, v) && v.pc == 0 && Unit(v) == unit
    requires unit < |c.p.units| && c.p.units[unit] == MethodSource(m.params, m.body)
    ensures BodyEnds(c, fuel, v, n, Ev.RunMethod(c.h, fuel, st, m))
    decreases fuel, 5
  {
    hide Exec, Step, Decode, Names, EnvsOk, Linked, DefsOk, CodeStmts, CodeParams, SizeStmts, AfterStmts;
    hide Ev.EvalStmts, Ev.Defaults, Ev.DefaultOf, WfStmts, WfParams, AfterParams, SizeParams, Iterate, At;
    assert UnitAt(c.p, unit) && UnitWf(c.p, unit);
    n := DefaultsSim(c, fuel, m, |m.params|, unit, st, v);
    var r := Ev.Defaults(c.h, fuel, st, m.params, |m.params|);
    if r.Done? {
      var t := Later(c, v, n);
      var k: nat;
      if m.body == [] {
        k := EmptyBody(c, fuel, r.st, t);
      } else {
        k := BodySim(c, fuel, c.p.units[unit], r.st, t);
      }
      LaterBody(c, fuel, v, n, t, k, Ev.RunMethod(c.h, fuel, st, m));
      n := n + k;
    }
  }

  lemma EmptyBody(c: Setting, fuel: nat, st: Ev.EState, t: State) returns (k: nat)
    requires Drives(c) && Ready(c, st, t) && At(c.p, Unit(t), t.pc, IPutNull) && At(c.p, Unit(t), t.pc + 1, ILeave)
    ensures BodyEnds(c, fuel, t, k, Ev.Val(NilV, st))
  {
    hide Exec, Step, Decode, EnvsOk, Linked, DefsOk, Iterate;
    PushSound(c, st, t, IPutNull, NilV);
    LeaveSound(c, st, Later(c, t, 1));
    IterateAdd(c.next, t, 1, 1);
    Arrived(c, st, st, t, Later(c, t, 1), Later(c, t, 2));
    k := 2;
  }

  lemma LaterBody(c: Setting, fuel: nat, v: State, n: nat, t: State, k: nat, out: Ev.Out)
    requires Later(c, v, n) == t && SameFrames(v.frames, t.frames) && v.stack == t.stack && BodyEnds(c, fuel, t, k, out)
    ensures BodyEnds(c, fuel, v, n + k, out)
  {
    hide EnvsOk, Linked, DefsOk, Iterate;
    IterateAdd(c.next, v, n, k);
  }

  /** A unit's body, from its first slot to the frame's end. */
  lemma BodySim(c: Setting, fuel: nat, u: Source, st: Ev.EState, v: State) returns (n: nat)
    requires Drives(c) && Sound(c.p) && Ready(c, st, v) && Unit(v) < |c.p.units| && c.p.units[Unit(v)] == u
    requires !u.MainSource? && u.body != [] && v.pc == BodyStart(c.p, Unit(v))
    ensures BodyEnds(c, fuel, v, n, Ev.EvalStmts(c.h, fuel, st, u.body, |u.body|, StartScope(u)))
    decreases fuel, 3, 0
  {
    hide Exec, Step, Decode, EnvsOk, Linked, DefsOk, CodeStmts, CodeParams, SizeStmts, WfStmts, ValueBlock;
    hide AfterStmts, StartScope, Ev.EvalStmts, Iterate;
    assert UnitAt(c.p, Unit(v)) && UnitWf(c.p, Unit(v));
    BodyScope(u);
    n := StmtsSim(c, fuel, u.body, |u.body|, StartScope(u), LoopOf(u), false, st, v);
    var out := Ev.EvalStmts(c.h, fuel, st, u.body, |u.body|, StartScope(u));
    if out.Val? {
      Onward(c, fuel, v, n, out, v.pc + SizeStmts(u.body, |u.body|, StartScope(u), SiteOf(c.p, Unit(v), LoopOf(u))),
             None);
      LeaveSound(c, out.st, Later(c, v, n));
      IterateAdd(c.next, v, n, 1);
      n := n + 1;
    }
  }

  /** What a block or method body needs of its scope. */
  lemma BodyScope(u: Source)
    requires !u.MainSource? && WfUnit(u) && u.body != []
    ensures
      var sc := StartScope(u);
      && AfterStmts(u.body, |u.body|, sc) == Scope(Names(u), OuterOf(u))
      && sc.outer == OuterOf(u) && WfStmts(u.body, |sc.outer|, false) && ValueBlock(u.body)
      && (u.MethodSource? ==> sc == AfterParams(u.params, |u.params|, EMPTY))
      && (u.BlockSource? ==> sc == BlockScope(u.names, u.outer))
  {
    NamesNoDup(u);
    if u.MethodSource? { MethodStart(u); }
  }

  lemma FindLast(names: seq<Name>, x: Name)
    requires x !in names
    ensures Find(names + [x], x) == |names|
  {
    var i := Find(names + [x], x);
    assert (names + [x])[i] == x;
  }

  /** The scope before parameter i holds the i parameters before it. */
  lemma ParamScope(ps: seq<Param>, i: nat)
    requires i < |ps| && PlainDefaults(ps, |ps|)
    ensures
      var sc := AfterParams(ps, i, EMPTY);
      && sc.outer == [] && |sc.cur| == i && ps[i].name !in sc.cur
      && AfterParam(ps[i], sc) == Scope(sc.cur + [ps[i].name], [])
      && forall j :: 0 <= j < i ==> sc.cur[j] == ps[j].name
  {
    hide AfterParam, AfterParams;
    PlainPrefix(ps, i + 1, |ps|);
    ParamNames(ps, i);
  }

  /** Parameter i is local i of the method. */
  lemma ParamLocal(ps: seq<Param>, i: nat, u: Source)
    requires i < |ps| && u.MethodSource? && u.params == ps && WfUnit(u)
    ensures
      var sc := AfterParams(ps, i, EMPTY);
      && ParamIndex(ps[i], sc) == i && sc.cur + [ps[i].name] <= Names(u)
      && i < |Names(u)| && Names(u)[i] == ps[i].name
  {
    hide AfterParam, AfterParams, Names, WfBody, PlainDefaults, AfterStmts, Declare, Resolve, ParamIndex;
    var sc := AfterParams(ps, i, EMPTY);
    ParamScope(ps, i);
    MethodStart(u);
    assert sc.cur + [ps[i].name] == ParamSetOf(ps).names[..i + 1];
    IndexOfParam(ps[i], sc);
  }

  lemma IndexOfParam(p: Param, sc: Scope)
    requires sc.outer == [] && p.name !in sc.cur && AfterParam(p, sc) == Scope(sc.cur + [p.name], [])
    ensures ParamIndex(p, sc) == |sc.cur|
  {
    hide Resolve, Declare, After;
    LastDeclared(sc, p.name);
  }

  lemma LastDeclared(sc: Scope, x: Name)
    requires x !in sc.cur
    ensures Resolve(Scope(sc.cur + [x], []), x) == Some(Address(0, |sc.cur|))
  {
    FindLast(sc.cur, x);
  }

  lemma {:induction false} PlainPrefix(ps: seq<Param>, m: nat, n: nat)
    requires m <= n <= |ps| && PlainDefaults(ps, n)
    ensures PlainDefaults(ps, m)
    decreases n
  {
    if m < n { PlainPrefix(ps, m, n - 1); }
  }

  /** The defaults of the first n parameters. */
  lemma DefaultsSim(c: Setting, fuel: nat, m: Ev.MethodDef, n: nat, unit: nat, st: Ev.EState, v: State) returns (k: nat)
    requires Drives(c) && Sound(c.p) && Ready(c, st, v) && v.pc == 0 && Unit(v) == unit && n <= |m.params|
    requires unit < |c.p.units| && c.p.units[unit] == MethodSource(m.params, m.body)
    requires CodeParams(c.p, unit, m.params, n)
    ensures Ends(c, fuel, v, k, Ev.Defaults(c.h, fuel, st, m.params, n),
                 SizeParams(m.params, n, EMPTY, SiteOf(c.p, unit, None)), None)
    ensures !Ev.Defaults(c.h, fuel, st, m.params, n).Val?
    decreases fuel, 4, n
  {
    hide Exec, Step, Decode, EnvsOk, Linked, DefsOk, CodeStmts, CodeParam, SizeParam, Ev.DefaultOf, AfterParam, Sound;
    hide Names;
    if n == 0 {
      k := 0;
      assert Later(c, v, 0) == v;
      ArrivesHere(c, st, v);
    } else {
      k := DefaultsSim(c, fuel, m, n - 1, unit, st, v);
      var r := Ev.Defaults(c.h, fuel, st, m.params, n - 1);
      var site := SiteOf(c.p, unit, None);
      if r.Done? {
        var t := Later(c, v, k);
        var j := DefaultSim(c, fuel, m, n - 1, unit, r.st, t);
        var out := Ev.DefaultOf(c.h, fuel, r.st, m.params, n - 1);
        Delay(c, fuel, v, k, t, fuel, t, j, out, SizeParams(m.params, n, EMPTY, site), None, None);
        k := k + j;
      } else {
        Abort(c, fuel, v, k, r, SizeParams(m.params, n - 1, EMPTY, site), SizeParams(m.params, n, EMPTY, site), None);
      }
    }
  }

  /** One parameter. */
  lemma DefaultSim(c: Setting, fuel: nat, m: Ev.MethodDef, i: nat, unit: nat, st: Ev.EState, t: State) returns (k: nat)
    requires Drives(c) && Sound(c.p) && Ready(c, st, t) && Unit(t) == unit && i < |m.params|
    requires unit < |c.p.units| && c.p.units[unit] == MethodSource(m.params, m.body)
    requires
      var sc := AfterParams(m.params, i, EMPTY);
      t.pc == SizeParams(m.params, i, EMPTY, SiteOf(c.p, unit, None))
      && CodeParam(c.p, unit, t.pc, m.params[i], ParamIndex(m.params[i], sc), sc)
    ensures Ends(c, fuel, t, k, Ev.DefaultOf(c.h, fuel, st, m.params, i),
                 SizeParams(m.params, i + 1, EMPTY, SiteOf(c.p, unit, None)), None)
    ensures !Ev.DefaultOf(c.h, fuel, st, m.params, i).Val?
    decreases fuel, 3, i
  {
    hide Exec, Step, Decode, EnvsOk, Linked, DefsOk, CodeStmts, CodeAt, Size, WfExpr, Ev.Eval, Names, Ev.Unset;
    hide After, UnitAt, AfterParams, Resolve;
    var sc := AfterParams(m.params, i, EMPTY);
    assert UnitWf(c.p, unit);
    ParamScope(m.params, i);
    ParamLocal(m.params, i, c.p.units[unit]);
    assert WfParam(m.params[i]);
    match m.params[i]
    case DefaultParam(x, d) =>
      DeclareGrows(After(d, sc), x);
      k := ValueThenSet(c, fuel, d, sc, i, x, st, t);
    case KeyDefaultParam(x, d) =>
      k := ValueThenSet(c, fuel, d, Declare(sc, x), i, x, st, t);
    case RestParam(x) =>
      assert t.stack + [] == t.stack;
      ArraySound(c, st, t, t.stack, []);
      OptionalSound(c, st, Later(c, t, 1), i, x, t.stack, ArrV([]));
      IterateAdd(c.next, t, 1, 1);
      Arrived(c, st, Ev.Unset(x, Ev.Val(ArrV([]), st)).st, t, Later(c, t, 1), Later(c, t, 2));
      k := 2;
    case _ =>
      k := 0;
      assert Later(c, t, 0) == t;
      ArrivesHere(c, st, t);
  }

  lemma ValueThenSet(c: Setting, fuel: nat, d: Expr, sc: Scope, i: nat, x: Name, st: Ev.EState, t: State)
    returns (k: nat)
    requires AtExpr(c, d, sc, None, false, st, t)
    requires At(c.p, Unit(t), t.pc + Size(d, sc, SiteOf(c.p, Unit(t), None)), ISetOptional(0, i))
    requires Unit(t) < |c.p.units| && i < |Names(c.p.units[Unit(t)])| && Names(c.p.units[Unit(t)])[i] == x
    ensures
      var out := Ev.Unset(x, Ev.Eval(c.h, fuel, st, d, sc));
      !out.Val? && Ends(c, fuel, t, k, out, t.pc + Size(d, sc, SiteOf(c.p, Unit(t), None)) + 3, None)
    decreases fuel, 2, d, 3
  {
    hide Exec, Step, Decode, EnvsOk, Linked, DefsOk, CodeAt, Size, Names, Ev.Eval, WfExpr, After;
    k := ExprSim(c, fuel, d, sc, None, false, st, t);
    var r := Ev.Eval(c.h, fuel, st, d, sc);
    var end := t.pc + Size(d, sc, SiteOf(c.p, Unit(t), None));
    if r.Val? {
      Onward(c, fuel, t, k, r, end, None);
      var u := Later(c, t, k);
      OptionalSound(c, r.st, u, i, x, t.stack, r.v);
      IterateAdd(c.next, t, k, 1);
      Arrived(c, r.st, Ev.Unset(x, r).st, t, u, Later(c, u, 1));
      k := k + 1;
    } else {
      Abort(c, fuel, t, k, r, end, end + 3, None);
    }
  }

  /** InvokeBlock.  A block's yield goes to the block of the method around it. */
  lemma YieldSim(c: Setting, fuel: nat, st: Ev.EState, u: State, base: seq<Value>, args: seq<Value>) returns (n: nat)
    requires Drives(c) && Sound(c.p) && Ready(c, st, u)
    requires u.stack == base + [Top(u).self] + args && At(c.p, Unit(u), u.pc, IInvokeBlock(|args|))
    requires Unit(u) < |c.p.units| && |OuterOf(c.p.units[Unit(u)])| <= 1
    ensures Lands(c, fuel, u.(stack := base), n, Later(c, u, n), Ev.YieldCall(c.h, fuel, st, args), u.pc + 2, None)
    decreases fuel, 0
  {
    hide Step, Decode, Names, CodeStmts, CodeParams, EnvOk, LinkedAt, Invoke, Insert, DefsOk, UnitAt, Ev.EvalStmts;
    hide Ev.Bound, WfStmts, AfterStmts, Iterate, Linked, BlockFits;
    var top := |u.frames| - 1;
    One(c, st, u, IInvokeBlock(|args|));
    assert u.stack[..|base|] == base && u.stack[|base| + 1..] == args;
    var home := HomeFrame(c, st, u);
    n := 1;
    if u.frames[top].block.Some? && u.frames[home].block.Some? {
      var b := u.frames[home].block.value;
      var eb := st.envs[home].block.value;
      if |args| <= |eb.params| && fuel == 0 {
        n := 0;
        LaterZero(c, u);
      } else if |args| <= |eb.params| {
        n := BlockCallSim(c, fuel, st, u, base, Top(u).self, args, home);
      }
    }
  }

  /** A yield to the block of frame `home`. */
  lemma BlockCallSim(c: Setting, fuel: nat, st: Ev.EState, u: State, base: seq<Value>, self: Value, args: seq<Value>,
                     home: nat)
    returns (n: nat)
    requires Drives(c) && Sound(c.p) && Ready(c, st, u) && fuel > 0 && base < u.stack && home < |u.frames|
    requires u.frames[home].block.Some? && BlockFits(c.p, u.frames, u.frames[home].block.value, home)
    requires BlockOk(c.p, st.envs[home].block, u.frames[home].block) && |args| <= |st.envs[home].block.value.params|
    requires var b := u.frames[home].block.value;
             Later(c, u, 1) == Enter(u, Frame(b.unit, Ev.SomeAll(args), self, Some(b.ep), Some(b), |base|, u.pc + 2))
    ensures
      var eb := st.envs[home].block.value;
      var env := Ev.Env(Ev.Bound(eb.params, Ev.SomeAll(args), |args|), self, Some(eb.ep), Some(eb));
      Lands(c, fuel, u.(stack := base), n, Later(c, u, n),
            Ev.Finish(Ev.EvalStmts(c.h, fuel - 1, Ev.PushEnv(st, env), eb.body, |eb.body|,
                                   BlockScope(eb.params, eb.outer))), u.pc + 2, None)
    decreases fuel - 1, 6
  {
    hide Exec, Step, Decode, Names, Linked, DefsOk, Ev.EvalStmts, Ev.Bound, Iterate, UnitAt, WfStmts, AfterStmts;
    var b := u.frames[home].block.value;
    var eb := st.envs[home].block.value;
    var env := Ev.Env(Ev.Bound(eb.params, Ev.SomeAll(args), |args|), self, Some(eb.ep), Some(eb));
    var f := Frame(b.unit, Ev.SomeAll(args), self, Some(b.ep), Some(b), |base|, u.pc + 2);
    EnterBlock(c, st, u, env, f, home);
    var src := c.p.units[b.unit];
    assert UnitWf(c.p, b.unit);
    BodyScope(src);
    var k := BodySim(c, fuel - 1, src, Ev.PushEnv(st, env), Enter(u, f));
    n := Activated(c, fuel, u, base, f, k,
                   Ev.EvalStmts(c.h, fuel - 1, Ev.PushEnv(st, env), eb.body, |eb.body|,
                                BlockScope(eb.params, eb.outer)));
  }

  /** The frame whose block a yield calls: the frame itself, or the one a block was written in. */
  lemma HomeFrame(c: Setting, st: Ev.EState, u: State) returns (home: nat)
    requires Sound(c.p) && Ready(c, st, u)
    requires Unit(u) < |c.p.units| && |OuterOf(c.p.units[Unit(u)])| <= 1
    ensures home < |u.frames| && Ev.Home(st.envs, |u.frames| - 1) == Some(home)
    ensures home == (if Top(u).ep.Some? then Top(u).ep.value else |u.frames| - 1)
    ensures Top(u).ep.Some? ==> Top(u).block.Some? && Top(u).block.value.ep == home
    ensures st.envs[|u.frames| - 1].self == Top(u).self && BlockOk(c.p, st.envs[|u.frames| - 1].block, Top(u).block)
    ensures BlockOk(c.p, st.envs[home].block, u.frames[home].block)
    ensures u.frames[home].block.Some? ==> BlockFits(c.p, u.frames, u.frames[home].block.value, home)
    ensures Top(u).ep.None? ==> Top(u).block.Some? ==> Top(u).block.value.ep < |u.frames| - 1
  {
    hide Names, CodeStmts, CodeParams, Decode, VarsOk;
    var top := |u.frames| - 1;
    assert EnvOk(c.p, st.envs[top], u.frames[top]) && LinkedAt(c.p, u.frames, top);
    home := top;
    if Top(u).ep.Some? {
      home := Top(u).ep.value;
      assert EnvOk(c.p, st.envs[home], u.frames[home]) && LinkedAt(c.p, u.frames, home);
      assert BlockFits(c.p, u.frames, Top(u).block.value, top);
      var unit := u.frames[home].unit;
      assert OuterOf(c.p.units[unit]) == [];
      assert UnitWf(c.p, unit);
    }
  }

  /** The new frame of a yield agrees with the new environment. */
  lemma EnterBlock(c: Setting, st: Ev.EState, u: State, env: Ev.Env, f: Frame, home: nat)
    requires Sound(c.p) && Ready(c, st, u) && home < |u.frames|
    requires f.block.Some? && u.frames[home].block == f.block && BlockFits(c.p, u.frames, f.block.value, home)
    requires env.block.Some? && BlockOk(c.p, env.block, f.block)
    requires f.unit == f.block.value.unit && f.ep == Some(f.block.value.ep) == env.ep && env.self == f.self
    requires |f.locals| <= |env.block.value.params|
    requires env.vars == Ev.Bound(env.block.value.params, f.locals, |f.locals|)
    ensures Ready(c, Ev.PushEnv(st, env), Enter(u, f))
  {
    hide CodeStmts, CodeParams, Decode;
    assert UnitWf(c.p, f.unit);
    BlockStart(c.p.units[f.unit]);
    BoundAgrees(Names(c.p.units[f.unit]), env.block.value.params, f.locals);
    EnterAgrees(c, st, u, env, f);
  }

  // ------------------------------------------------------------ expressions

  lemma ExprSim(c: Setting, fuel: nat, e: Expr, sc: Scope, loop: Option<Loop>, jumps: bool, st: Ev.EState, s: State)
    returns (n: nat)
    requires AtExpr(c, e, sc, loop, jumps, st, s)
    ensures ExprEnds(c, fuel, e, sc, loop, jumps, st, s, n)
    decreases fuel, 2, e, 2, 0
  {
    hide Exec, Step, Decode, Names, EnvsOk, Linked, DefsOk, Iterate, Resolve, CodeAll, CodeArms, CodeStmts, StoresAt;
    hide BlockOperand, SizeAll, SizeArms, SizeStmts, SizeStores, AfterAll, AfterArms, AfterStmts, DeclareAll, WfAll;
    hide WfArm, WfStmts, WfBlock, Ev.EvalAll, Ev.EvalArms, Ev.StoreAll, Ev.Call, Ev.Operate, Ev.YieldCall, Ev.Holder;
    hide At;
    match e
    case ArrayLit(_) => n := ArraySim(c, fuel, e, sc, loop, jumps, st, s);
    case Ident(_) => n := IdentSim(c, fuel, e, sc, loop, jumps, st, s);
    case Assign(_, _) => n := AssignSim(c, fuel, e, sc, loop, jumps, st, s);
    case Logic(_, _, _) => n := LogicSim(c, fuel, e, sc, loop, jumps, st, s);
    case Infix(_, _, _) => n := InfixSim(c, fuel, e, sc, loop, jumps, st, s);
    case Not(_) => n := NotSim(c, fuel, e, sc, loop, jumps, st, s);
    case Minus(_) => n := MinusSim(c, fuel, e, sc, loop, jumps, st, s);
    case Plus(a) =>
      n := ExprSim(c, fuel, a, sc, loop, false, st, s);
      Widen(c, fuel, s, n, Ev.Eval(c.h, fuel, st, a, sc), s.pc + Size(a, sc, SiteOf(c.p, Unit(s), loop)),
            Allowed(jumps, loop));
    case If(_, _, _) => n := IfSim(c, fuel, e, sc, loop, jumps, st, s);
    case Yield(_) => n := YieldExprSim(c, fuel, e, sc, loop, jumps, st, s);
    case Pair(_, a) =>
      n := ExprSim(c, fuel, a, sc, loop, false, st, s);
      Widen(c, fuel, s, n, Ev.Eval(c.h, fuel, st, a, sc), s.pc + Size(a, sc, SiteOf(c.p, Unit(s), loop)),
            Allowed(jumps, loop));
    case Call(_, _, _, _) => n := CallSim(c, fuel, e, sc, loop, jumps, st, s);
    case _ => n := LeafSim(c, fuel, e, sc, loop, jumps, st, s);
  }

  lemma LeafSim(c: Setting, fuel: nat, e: Expr, sc: Scope, loop: Option<Loop>, jumps: bool, st: Ev.EState, s: State)
    returns (n: nat)
    requires AtExpr(c, e, sc, loop, jumps, st, s)
    requires e.IntLit? || e.StrLit? || e.BoolLit? || e.NilLit? || e.SelfRef? || e.BlockGiven?
    ensures ExprEnds(c, fuel, e, sc, loop, jumps, st, s, n)
    decreases fuel, 2, e, 1, 0
  {
    hide Exec, Step, Decode, Names, Linked, DefsOk, Iterate, Resolve, CodeAll, CodeArms, CodeStmts, StoresAt;
    hide SizeAll, SizeArms, SizeStmts, SizeStores, AfterAll, AfterArms, AfterStmts, DeclareAll, WfAll, WfStmts;
    hide BlockOperand, Ev.EvalAll, Ev.EvalArms, Ev.StoreAll, Ev.Call, Ev.Operate, Ev.YieldCall, Ev.Holder, At;
    hide CodeAt, Ev.Eval, Size, Pushes;
    assert EnvOk(c.p, st.envs[|s.frames| - 1], Top(s));
    n := 1;
    LeafShape(c, fuel, e, sc, loop, st, s);
    LeafStep(c, fuel, e, sc, loop, jumps, st, s, LeafInstr(e), LeafValue(e, Top(s)));
  }

  function LeafValue(e: Expr, f: Frame): Value {
    match e
    case IntLit(k) => IntV(k)
    case StrLit(t) => StrV(t)
    case BoolLit(b) => BoolV(b)
    case SelfRef => f.self
    case BlockGiven => BoolV(f.block.Some?)
    case _ => NilV
  }

  lemma LeafShape(c: Setting, fuel: nat, e: Expr, sc: Scope, loop: Option<Loop>, st: Ev.EState, s: State)
    requires Ready(c, st, s) && CodeAt(c.p, Unit(s), s.pc, e, sc, loop)
    requires e.IntLit? || e.StrLit? || e.BoolLit? || e.NilLit? || e.SelfRef? || e.BlockGiven?
    ensures At(c.p, Unit(s), s.pc, LeafInstr(e))
    ensures Ev.Eval(c.h, fuel, st, e, sc) == Ev.Val(LeafValue(e, Top(s)), st)
    ensures Size(e, sc, SiteOf(c.p, Unit(s), loop)) == Len(LeafInstr(e))
    ensures Pushes(s, LeafInstr(e), LeafValue(e, Top(s)))
  {
    hide At, Decode, Names, Linked, DefsOk;
    assert EnvOk(c.p, st.envs[|s.frames| - 1], Top(s));
  }

  lemma LeafStep(c: Setting, fuel: nat, e: Expr, sc: Scope, loop: Option<Loop>, jumps: bool, st: Ev.EState, s: State,
                 i: Instr, v: Value)
    requires Drives(c) && Ready(c, st, s) && At(c.p, Unit(s), s.pc, i)
    requires Ev.Eval(c.h, fuel, st, e, sc) == Ev.Val(v, st) && Size(e, sc, SiteOf(c.p, Unit(s), loop)) == Len(i)
    requires Pushes(s, i, v)
    ensures ExprEnds(c, fuel, e, sc, loop, jumps, st, s, 1)
  {
    hide Exec, Step, Decode, EnvsOk, Linked, DefsOk, Iterate, Ev.Eval, Size, Pushes;
    PushSound(c, st, s, i, v);
  }

  /** A variable, or a call of a method of self. */
  lemma IdentSim(c: Setting, fuel: nat, e: Expr, sc: Scope, loop: Option<Loop>, jumps: bool, st: Ev.EState, s: State)
    returns (n: nat)
    requires AtExpr(c, e, sc, loop, jumps, st, s) && e.Ident?
    ensures ExprEnds(c, fuel, e, sc, loop, jumps, st, s, n)
    decreases fuel, 2, e, 1, 1
  {
    hide Exec, Step, Ends, Ev.Eval, CodeAt, Size, WfExpr, After, Sound, Resolve;
    if Resolve(sc, e.name).Some? {
      n := VariableSim(c, fuel, e, sc, loop, jumps, st, s);
    } else {
      n := SelfCallSim(c, fuel, e, sc, loop, jumps, st, s);
    }
  }

  lemma VariableSim(c: Setting, fuel: nat, e: Expr, sc: Scope, loop: Option<Loop>, jumps: bool, st: Ev.EState, s: State)
    returns (n: nat)
    requires AtExpr(c, e, sc, loop, jumps, st, s) && e.Ident? && Resolve(sc, e.name).Some?
    ensures ExprEnds(c, fuel, e, sc, loop, jumps, st, s, n)
  {
    hide Step, Decode, Names, Linked, DefsOk, Iterate, Resolve, Invoke, Insert, YieldTo, At, Ev.Call, Sound;
    var a := Resolve(sc, e.name).value;
    ReadSound(c.p, st, s, sc, e.name);
    var j := Climb(s.frames, |s.frames| - 1, a.depth).value;
    var r := Slot(s.frames[j].locals, a.index);
    QuietStep(c, st, s, IGetLocal(a.depth, a.index), s.pc + 3, s.stack + [if r.Some? then r.value else NilV]);
    n := 1;
  }

  /** A send without a block. */
  lemma SendInvokes(c: Setting, st: Ev.EState, u: State, name: Name, argc: nat)
    requires Drives(c) && Ready(c, st, u) && At(c.p, Unit(u), u.pc, ISend(name, argc, None, None))
    ensures !Halted(c.p.sets, u) && Later(c, u, 1) == Invoke(c.p.sets, c.h, u, u.pc + 5, name, argc, None, None)
  {
    hide Invoke, YieldTo, Insert, Climb, Decode;
    One(c, st, u, ISend(name, argc, None, None));
  }

  lemma SelfCallSim(c: Setting, fuel: nat, e: Expr, sc: Scope, loop: Option<Loop>, jumps: bool, st: Ev.EState, s: State)
    returns (n: nat)
    requires AtExpr(c, e, sc, loop, jumps, st, s) && e.Ident? && Resolve(sc, e.name).None?
    ensures ExprEnds(c, fuel, e, sc, loop, jumps, st, s, n)
    decreases fuel, 2, e, 1, 0
  {
    hide Step, Decode, Names, Linked, DefsOk, Iterate, Resolve, Invoke, Insert, YieldTo, At, CodeAll, CodeArms;
    hide CodeStmts, StoresAt, SizeAll, SizeArms, SizeStmts, SizeStores, AfterAll, AfterArms, AfterStmts, DeclareAll;
    hide WfAll, WfStmts, BlockOperand, Ev.EvalAll, Ev.EvalArms, Ev.StoreAll, Ev.Operate, Ev.YieldCall, BindValues;
    hide WfArm, WfBlock, CodeArm, Ev.Call, Exec, Halted;
    var x := e.name;
    assert EnvOk(c.p, st.envs[|s.frames| - 1], Top(s));
    PushSound(c, st, s, IPutSelf, Top(s).self);
    var t := Later(c, s, 1);
    SendInvokes(c, st, t, x, 0);
    var k := InvokeSim(c, fuel, st, t, s.stack, Top(s).self, x, [], None, None, None, s.pc + 6);
    CallOut(c.h, fuel, st, Top(s).self, x, [], None, None);
    Delay(c, fuel, s, 1, t, fuel, t.(stack := s.stack), k,
          Ev.Call(c.h, fuel, st, Top(s).self, x, [], None, None), s.pc + 6, None, Allowed(jumps, loop));
    n := 1 + k;
  }

  lemma InfixSim(c: Setting, fuel: nat, e: Expr, sc: Scope, loop: Option<Loop>, jumps: bool, st: Ev.EState, s: State)
    returns (n: nat)
    requires AtExpr(c, e, sc, loop, jumps, st, s) && e.Infix?
    ensures ExprEnds(c, fuel, e, sc, loop, jumps, st, s, n)
    decreases fuel, 2, e, 1, 0
  {
    hide Exec, Step, Decode, Names, Linked, DefsOk, Iterate, Resolve;
    hide CodeAt, Size, Ev.Eval, Ev.Operate, WfExpr, After, At, OperatorInstr;
    var site := SiteOf(c.p, Unit(s), loop);
    var sc1 := After(e.left, sc);
    var q := s.pc + Size(e.left, sc, site);
    var end := s.pc + Size(e, sc, site);
    AfterGrows(e.left, sc);
    AfterGrows(e.right, sc1);
    InfixShape(c.p, Unit(s), s.pc, e, sc, loop);
    InfixExtent(e, sc, site, |sc.outer|, jumps);
    InfixMeaning(c.h, fuel, st, e, sc);
    var a := Ev.Eval(c.h, fuel, st, e.left, sc);
    n := ExprSim(c, fuel, e.left, sc, loop, false, st, s);
    if !a.Val? {
      Abort(c, fuel, s, n, a, q, end, Allowed(jumps, loop));
    } else {
      Onward(c, fuel, s, n, a, q, None);
      var t := Later(c, s, n);
      var m := ExprSim(c, fuel, e.right, sc1, loop, false, a.st, t);
      var b := Ev.Eval(c.h, fuel, a.st, e.right, sc1);
      var r := q + Size(e.right, sc1, site);
      if !b.Val? {
        Abandon(c, fuel, s, n, t, fuel, m, b, r, end, Allowed(jumps, loop));
        n := n + m;
      } else {
        Onward(c, fuel, t, m, b, r, None);
        var u := Later(c, t, m);
        var k := OperateSim(c, fuel, e.op, a.v, b.v, b.st, u, s.stack);
        IterateAdd(c.next, s, n, m);
        Delay(c, fuel, s, n + m, u, fuel, u.(stack := s.stack), k, Ev.Operate(c.h, fuel, e.op, a.v, b.v, b.st), end,
              None, Allowed(jumps, loop));
        n := n + m + k;
      }
    }
  }

  lemma InfixMeaning(h: Host, fuel: nat, st: Ev.EState, e: Expr, sc: Scope)
    requires e.Infix? && |st.envs| > 0
    ensures
      var a := Ev.Eval(h, fuel, st, e.left, sc);
      Ev.Eval(h, fuel, st, e, sc) ==
        if !a.Val? then a
        else
          var b := Ev.Eval(h, fuel, a.st, e.right, After(e.left, sc));
          if !b.Val? then b else Ev.Operate(h, fuel, e.op, a.v, b.v, b.st)
  {
    hide Ev.Operate, After, Ev.Call;
  }

  lemma OperateSim(c: Setting, fuel: nat, op: Name, l: Value, r: Value, st: Ev.EState, u: State, base: seq<Value>)
    returns (n: nat)
    requires Drives(c) && Sound(c.p) && Ready(c, st, u)
    requires u.stack == base + [l] + [r] && At(c.p, Unit(u), u.pc, OperatorInstr(op))
    ensures Lands(c, fuel, u.(stack := base), n, Later(c, u, n), Ev.Operate(c.h, fuel, op, l, r, st), u.pc + 2, None)
    ensures !Ev.Operate(c.h, fuel, op, l, r, st).Done?
    decreases fuel, 1
  {
    hide Step, Decode, Names, Linked, DefsOk, EnvsOk, Iterate, Resolve, Invoke, Insert, YieldTo, Arithmetic;
    var i := OperatorInstr(op);
    if i.IArith? && l.IntV? && r.IntV? {
      assert u.stack[..|u.stack| - 2] == base;
      QuietStep(c, st, u, i, u.pc + 2, base + [Arithmetic(i.op, l.n, r.n)]);
      n := 1;
    } else {
      One(c, st, u, i);
      n := InvokeSim(c, fuel, st, u, base, l, op, [r], None, None, None, u.pc + 2);
    }
    CallOut(c.h, fuel, st, l, op, [r], None, None);
  }

  /** A call's outcome is never a bare completion or a jump. */
  lemma CallOut(h: Host, fuel: nat, st: Ev.EState, recv: Value, name: Name, args: seq<Value>, given: Option<ArgSet>,
                block: Option<Ev.BlockVal>)
    requires Matches(given, args)
    ensures
      var out := Ev.Call(h, fuel, st, recv, name, args, given, block);
      !out.Done? && !out.Broke? && !out.Continued?
  {
    hide BindValues;
  }

  lemma NotSim(c: Setting, fuel: nat, e: Expr, sc: Scope, loop: Option<Loop>, jumps: bool, st: Ev.EState, s: State)
    returns (n: nat)
    requires AtExpr(c, e, sc, loop, jumps, st, s) && e.Not?
    ensures ExprEnds(c, fuel, e, sc, loop, jumps, st, s, n)
    decreases fuel, 2, e, 1, 0
  {
    hide Step, Decode, Names, EnvsOk, Linked, DefsOk, Iterate, Resolve, Invoke, Insert, YieldTo, At, CodeAll;
    hide CodeArms, CodeStmts, StoresAt, SizeAll, SizeArms, SizeStmts, SizeStores, AfterAll, AfterArms, AfterStmts;
    hide DeclareAll, WfAll, WfStmts, BlockOperand, Ev.EvalAll, Ev.EvalArms, Ev.StoreAll, Ev.Call, Ev.Operate;
    hide Ev.YieldCall, Ev.Holder, Exec, Halted;
    n := ExprSim(c, fuel, e.arg, sc, loop, false, st, s);
    var a := Ev.Eval(c.h, fuel, st, e.arg, sc);
    var q := s.pc + Size(e.arg, sc, SiteOf(c.p, Unit(s), loop));
    if !a.Val? {
      Abort(c, fuel, s, n, a, q, q + 5, Allowed(jumps, loop));
    } else {
      Onward(c, fuel, s, n, a, q, None);
      var t := Later(c, s, n);
      SendInvokes(c, a.st, t, BANG, 0);
      assert t.stack == s.stack + [a.v] + [];
      var k := InvokeSim(c, fuel, a.st, t, s.stack, a.v, BANG, [], None, None, None, q + 5);
      CallOut(c.h, fuel, a.st, a.v, BANG, [], None, None);
      Delay(c, fuel, s, n, t, fuel, t.(stack := s.stack), k, Ev.Call(c.h, fuel, a.st, a.v, BANG, [], None, None), q + 5,
            None, Allowed(jumps, loop));
      n := n + k;
    }
  }

  lemma MinusMeaning(h: Host, fuel: nat, st: Ev.EState, e: Expr, sc: Scope)
    requires e.Minus? && |st.envs| > 0
    ensures
      var a := Ev.Eval(h, fuel, st, e.arg, sc);
      Ev.Eval(h, fuel, st, e, sc) ==
        if !a.Val? then a else Ev.Call(h, fuel, a.st, IntV(0), MINUS_NAME, [a.v], None, None)
  {
    hide Ev.Call;
  }

  lemma MinusSim(c: Setting, fuel: nat, e: Expr, sc: Scope, loop: Option<Loop>, jumps: bool, st: Ev.EState, s: State)
    returns (n: nat)
    requires AtExpr(c, e, sc, loop, jumps, st, s) && e.Minus?
    ensures ExprEnds(c, fuel, e, sc, loop, jumps, st, s, n)
    decreases fuel, 2, e, 1, 0
  {
    hide Step, Decode, Names, Linked, DefsOk, Iterate, Resolve, Invoke, Insert, YieldTo, Ev.Call, InScope, At;
    hide CodeAll, CodeArms, CodeStmts, StoresAt, SizeAll, SizeArms, SizeStmts, SizeStores, AfterAll, AfterArms;
    hide AfterStmts, DeclareAll, WfAll, WfStmts, BlockOperand, Ev.EvalAll, Ev.EvalArms, Ev.StoreAll, Ev.Operate;
    hide Ev.YieldCall, Ev.Holder, CodeAt, Size, Ev.Eval, WfExpr, After, Exec, Halted;
    MinusShape(c.p, Unit(s), s.pc, e, sc, loop, |sc.outer|, jumps);
    MinusMeaning(c.h, fuel, st, e, sc);
    PushSound(c, st, s, IPutInt(0), IntV(0));
    var t := Later(c, s, 1);
    var a := Ev.Eval(c.h, fuel, st, e.arg, sc);
    var q := s.pc + 2 + Size(e.arg, sc, SiteOf(c.p, Unit(s), loop));
    var m := ExprSim(c, fuel, e.arg, sc, loop, false, st, t);
    if !a.Val? {
      Abandon(c, fuel, s, 1, t, fuel, m, a, q, q + 5, Allowed(jumps, loop));
      n := 1 + m;
    } else {
      Onward(c, fuel, t, m, a, q, None);
      var u := Later(c, t, m);
      SendInvokes(c, a.st, u, MINUS_NAME, 1);
      var k := InvokeSim(c, fuel, a.st, u, s.stack, IntV(0), MINUS_NAME, [a.v], None, None, None, q + 5);
      CallOut(c.h, fuel, a.st, IntV(0), MINUS_NAME, [a.v], None, None);
      IterateAdd(c.next, s, 1, m);
      Delay(c, fuel, s, 1 + m, u, fuel, u.(stack := s.stack), k,
            Ev.Call(c.h, fuel, a.st, IntV(0), MINUS_NAME, [a.v], None, None), q + 5, None, Allowed(jumps, loop));
      n := 1 + m + k;
    }
  }

  /** `&&` and `||`: Dup, branch to the end with the left value kept, or Pop and the right operand. */
  lemma LogicSim(c: Setting, fuel: nat, e: Expr, sc: Scope, loop: Option<Loop>, jumps: bool, st: Ev.EState, s: State)
    returns (n: nat)
    requires AtExpr(c, e, sc, loop, jumps, st, s) && e.Logic?
    ensures ExprEnds(c, fuel, e, sc, loop, jumps, st, s, n)
    decreases fuel, 2, e, 1, 0
  {
    hide Exec, Step, Decode, Names, Linked, DefsOk, Iterate, Resolve, CodeAt, Size, Ev.Eval, WfExpr, After, At;
    hide Truthy, Ev.EvalStmts, CodeStmts, SizeStmts, AfterStmts;
    var site := SiteOf(c.p, Unit(s), loop);
    var sc1 := After(e.left, sc);
    AfterGrows(e.left, sc);
    AfterGrows(e.right, sc1);
    LogicShape(c.p, Unit(s), s.pc, e, sc, loop);
    LogicExtent(e, sc, SiteOf(c.p, Unit(s), loop), |sc.outer|, jumps);
    LogicMeaning(c.h, fuel, st, e, sc);
    var a := Ev.Eval(c.h, fuel, st, e.left, sc);
    var q := s.pc + Size(e.left, sc, site);
    var end := s.pc + Size(e, sc, site);
    n := ExprSim(c, fuel, e.left, sc, loop, false, st, s);
    if !a.Val? {
      Abort(c, fuel, s, n, a, q, end, Allowed(jumps, loop));
    } else {
      Onward(c, fuel, s, n, a, q, None);
      var t := Later(c, s, n);
      var u := DupBranch(c, a.st, t, e.conj, end, s.stack, a.v);
      IterateAdd(c.next, s, n, 2);
      Arrived(c, a.st, a.st, s, t, u);
      if Truthy(a.v) != e.conj {
        n := n + 2;
      } else {
        PopSound(c, a.st, u);
        var w := Later(c, u, 1);
        IterateAdd(c.next, s, n + 2, 1);
        Arrived(c, a.st, a.st, s, u, w);
        assert w.stack == s.stack;
        var m := ExprSim(c, fuel, e.right, sc1, loop, false, a.st, w);
        var b := Ev.Eval(c.h, fuel, a.st, e.right, sc1);
        Delay(c, fuel, s, n + 3, w, fuel, w, m, b, end, None, Allowed(jumps, loop));
        n := n + 3 + m;
      }
    }
  }

  lemma LogicMeaning(h: Host, fuel: nat, st: Ev.EState, e: Expr, sc: Scope)
    requires e.Logic? && |st.envs| > 0
    ensures
      var a := Ev.Eval(h, fuel, st, e.left, sc);
      Ev.Eval(h, fuel, st, e, sc) ==
        if !a.Val? || Truthy(a.v) != e.conj then a else Ev.Eval(h, fuel, a.st, e.right, After(e.left, sc))
  {
    hide After, Ev.Call;
  }

  lemma DupBranch(c: Setting, st: Ev.EState, t: State, conj: bool, end: nat, base: seq<Value>, v: Value)
    returns (u: State)
    requires Drives(c) && Ready(c, st, t) && t.stack == base + [v]
    requires At(c.p, Unit(t), t.pc, IDup)
    requires At(c.p, Unit(t), t.pc + 1, if conj then IBranchUnless(end) else IBranchIf(end))
    ensures u == Later(c, t, 2) && Arrives(c, st, t, u) && u.stack == base + [v]
    ensures u.pc == if Truthy(v) == conj then t.pc + 3 else end
  {
    hide Exec, Step, Decode, Names, EnvsOk, Linked, DefsOk;
    PushSound(c, st, t, IDup, v);
    var t1 := Later(c, t, 1);
    BranchSound(c, st, t1, conj, end, base + [v], v);
    IterateAdd(c.next, t, 1, 1);
    Arrived(c, st, st, t, t1, Later(c, t1, 1));
    u := Later(c, t, 2);
  }

  /** Single and multiple assignment. */
  lemma AssignSim(c: Setting, fuel: nat, e: Expr, sc: Scope, loop: Option<Loop>, jumps: bool, st: Ev.EState, s: State)
    returns (n: nat)
    requires AtExpr(c, e, sc, loop, jumps, st, s) && e.Assign?
    ensures ExprEnds(c, fuel, e, sc, loop, jumps, st, s, n)
    decreases fuel, 2, e, 1, 0
  {
    hide Exec, Step, Decode, Names, Linked, DefsOk, Iterate, Resolve, CodeAll, CodeArms, CodeStmts, StoresAt;
    hide SizeAll, SizeArms, SizeStmts, SizeStores, AfterAll, AfterArms, AfterStmts, WfAll, WfStmts, BlockOperand;
    hide Ev.EvalAll, Ev.EvalArms, Ev.StoreAll, Ev.Call, Ev.Operate, Ev.YieldCall, Ev.Holder, At, DeclareAll, CodeAt;
    hide Size, Ev.Eval, AssignOut, WfExpr, After;
    var site := SiteOf(c.p, Unit(s), loop);
    var sc1 := After(e.value, sc);
    DeclareAllGrows(sc1, e.vars, |e.vars|);
    AfterGrows(e.value, sc);
    var a := Ev.Eval(c.h, fuel, st, e.value, sc);
    var q := s.pc + Size(e.value, sc, site);
    var end := s.pc + Size(e, sc, site);
    AssignShape(c.p, Unit(s), s.pc, e, sc, loop);
    AssignExtent(e, sc, site, |sc.outer|, jumps);
    AssignMeaning(c.h, fuel, st, e, sc);
    n := ExprSim(c, fuel, e.value, sc, loop, false, st, s);
    if !a.Val? {
      Abort(c, fuel, s, n, a, q, end, Allowed(jumps, loop));
    } else {
      Onward(c, fuel, s, n, a, q, None);
      var out, k := StorePart(c, fuel, a.st, Later(c, s, n), s.stack, a.v, e.vars, sc1);
      Delay(c, fuel, s, n, Later(c, s, n), fuel, Later(c, s, n).(stack := s.stack), k, out, end, None,
            Allowed(jumps, loop));
      n := n + k;
    }
  }

  lemma AssignMeaning(h: Host, fuel: nat, st: Ev.EState, e: Expr, sc: Scope)
    requires e.Assign? && |st.envs| > 0 && |e.vars| > 0
    ensures
      var a := Ev.Eval(h, fuel, st, e.value, sc);
      Ev.Eval(h, fuel, st, e, sc) == if !a.Val? then a else AssignOut(a.st, a.v, e.vars, After(e.value, sc))
  {
    hide After, Ev.Call, Ev.StoreAll;
  }

  function AssignOut(st: Ev.EState, v: Value, vars: seq<Name>, sc: Scope): Ev.Out
    requires |vars| > 0
  {
    if |vars| > 1 && !v.ArrV? then Ev.Error(TypeError, st)
    else
      var stored := Ev.StoreAll(st, sc, vars, |vars|, v);
      if !stored.Done? then stored else Ev.Val(Ev.ElementOf(v, |vars| > 1, |vars| - 1), stored.st)
  }

  lemma StorePart(c: Setting, fuel: nat, st: Ev.EState, t: State, base: seq<Value>, v: Value, vars: seq<Name>,
                  sc: Scope)
    returns (out: Ev.Out, k: nat)
    requires Drives(c) && Ready(c, st, t) && t.stack == base + [v] && |vars| > 0
    requires |vars| > 1 ==> At(c.p, Unit(t), t.pc, IExpandArray(|vars|))
    requires StoresAt(c.p, Unit(t), if |vars| > 1 then t.pc + 2 else t.pc, vars, |vars|, sc)
    requires InScope(c.p, Unit(t), DeclareAll(sc, vars, |vars|))
    ensures out == AssignOut(st, v, vars, sc) && !out.Done?
    ensures Lands(c, fuel, t.(stack := base), k, Later(c, t, k), out,
                  t.pc + (if |vars| > 1 then 2 else 0) + SizeStores(vars, |vars|), None)
  {
    hide Exec, Step, Decode, Names, EnvsOk, Linked, DefsOk, Resolve, Ev.Store, StoresAt, InScope;
    out := AssignOut(st, v, vars, sc);
    k := 0;
    assert Later(c, t, 0) == t;
    ArrivesHere(c, st, t);
    var u, pushed := t, [v];
    if |vars| > 1 {
      ExpandSound(c, st, t, base, v, |vars|);
      k, u := 1, Later(c, t, 1);
      if v.ArrV? { pushed := Expanded(v.elems, |vars|); }
    }
    if |vars| == 1 || v.ArrV? {
      var m := StoresSound(c, st, u, base, pushed, vars, |vars|, sc, v, |vars| > 1);
      IterateAdd(c.next, t, k, m);
      var stored := Ev.StoreAll(st, sc, vars, |vars|, v);
      if stored.Done? {
        Arrived(c, st, stored.st, t, u, Later(c, u, m));
        assert pushed[..1] == [pushed[0]];
        assert pushed[0] == Ev.ElementOf(v, |vars| > 1, |vars| - 1);
      }
      k := k + m;
    }
  }

  // ------------------------------------------------- lists of expressions

  ghost predicate AllEnds(c: Setting, fuel: nat, s: State, n: nat, outs: Ev.Outs, end: int) {
    match outs
    case Outs(vs, st') => var t := Later(c, s, n); Arrives(c, st', s, t) && t.pc == end && t.stack == s.stack + vs
    case Stopped(out) => !out.Val? && !out.Done? && Ends(c, fuel, s, n, out, end, None)
  }

  lemma AllSim(c: Setting, fuel: nat, es: seq<Expr>, n: nat, sc: Scope, loop: Option<Loop>, st: Ev.EState, s: State)
    returns (k: nat)
    requires Drives(c) && Sound(c.p) && Ready(c, st, s) && n <= |es|
    requires CodeAll(c.p, Unit(s), s.pc, es, n, sc, loop) && InScope(c.p, Unit(s), AfterAll(es, n, sc))
    requires WfAll(es, |sc.outer|)
    ensures AllEnds(c, fuel, s, k, Ev.EvalAll(c.h, fuel, st, es, n, sc),
                    s.pc + SizeAll(es, n, sc, SiteOf(c.p, Unit(s), loop)))
    decreases fuel, 2, es, n
  {
    hide Exec, Step, Decode, Names, EnvsOk, Linked, DefsOk, Resolve, CodeAt, Size, At, WfExpr, After;
    var site := SiteOf(c.p, Unit(s), loop);
    if n == 0 {
      k := 0;
      assert Later(c, s, 0) == s && s.stack + [] == s.stack;
      ArrivesHere(c, st, s);
    } else {
      AfterGrows(es[n - 1], AfterAll(es, n - 1, sc));
      AfterAllGrows(es, n - 1, sc);
      k := AllSim(c, fuel, es, n - 1, sc, loop, st, s);
      var before := Ev.EvalAll(c.h, fuel, st, es, n - 1, sc);
      var q := s.pc + SizeAll(es, n - 1, sc, site);
      var end := s.pc + SizeAll(es, n, sc, site);
      if before.Stopped? {
        Abort(c, fuel, s, k, before.out, q, end, None);
      } else {
        var t := Later(c, s, k);
        var sc1 := AfterAll(es, n - 1, sc);
        var m := ExprSim(c, fuel, es[n - 1], sc1, loop, false, before.st, t);
        var r := Ev.Eval(c.h, fuel, before.st, es[n - 1], sc1);
        if r.Val? {
          Onward(c, fuel, t, m, r, end, None);
          IterateAdd(c.next, s, k, m);
          Arrived(c, before.st, r.st, s, t, Later(c, t, m));
          assert s.stack + (before.vs + [r.v]) == s.stack + before.vs + [r.v];
        } else {
          Abandon(c, fuel, s, k, t, fuel, m, r, end, end, None);
        }
        k := k + m;
      }
    }
  }

  lemma ArraySim(c: Setting, fuel: nat, e: Expr, sc: Scope, loop: Option<Loop>, jumps: bool, st: Ev.EState, s: State)
    returns (n: nat)
    requires AtExpr(c, e, sc, loop, jumps, st, s) && e.ArrayLit?
    ensures ExprEnds(c, fuel, e, sc, loop, jumps, st, s, n)
    decreases fuel, 2, e, 1, 0
  {
    hide Exec, Step, Decode, Names, EnvsOk, Linked, DefsOk, Iterate, Resolve, CodeAll, SizeAll, AfterAll, WfAll;
    hide Ev.EvalAll, At, SiteOf;
    n := AllSim(c, fuel, e.elems, |e.elems|, sc, loop, st, s);
    var outs := Ev.EvalAll(c.h, fuel, st, e.elems, |e.elems|, sc);
    var q := s.pc + SizeAll(e.elems, |e.elems|, sc, SiteOf(c.p, Unit(s), loop));
    match outs
    case Stopped(out) => Abort(c, fuel, s, n, out, q, q + 2, Allowed(jumps, loop));
    case Outs(vs, st') =>
      var t := Later(c, s, n);
      ArraySound(c, st', t, s.stack, vs);
      IterateAdd(c.next, s, n, 1);
      Arrived(c, st', st', s, t, Later(c, t, 1));
      n := n + 1;
  }

  lemma YieldExprSim(c: Setting, fuel: nat, e: Expr, sc: Scope, loop: Option<Loop>, jumps: bool, st: Ev.EState,
                     s: State)
    returns (n: nat)
    requires AtExpr(c, e, sc, loop, jumps, st, s) && e.Yield?
    ensures ExprEnds(c, fuel, e, sc, loop, jumps, st, s, n)
    decreases fuel, 2, e, 1, 0
  {
    hide Exec, Step, Decode, Names, Linked, DefsOk, Iterate, Resolve;
    hide CodeAt, CodeAll, Size, SizeAll, Ev.Eval, Ev.EvalAll, Ev.YieldCall, WfExpr, WfAll, After, AfterAll, At;
    YieldShape(c.p, Unit(s), s.pc, e, sc, loop, |sc.outer|, jumps);
    YieldMeaning(c.h, fuel, st, e, sc);
    PushSound(c, st, s, IPutSelf, Top(s).self);
    var t := Later(c, s, 1);
    AfterAllGrows(e.args, |e.args|, sc);
    var outs := Ev.EvalAll(c.h, fuel, st, e.args, |e.args|, sc);
    var q := s.pc + 1 + SizeAll(e.args, |e.args|, sc, SiteOf(c.p, Unit(s), loop));
    var m := AllSim(c, fuel, e.args, |e.args|, sc, loop, st, t);
    match outs
    case Stopped(out) =>
      Abandon(c, fuel, s, 1, t, fuel, m, out, q, q + 2, Allowed(jumps, loop));
      n := 1 + m;
    case Outs(vs, st') =>
      var u := Later(c, t, m);
      var k := YieldSim(c, fuel, st', u, s.stack, vs);
      IterateAdd(c.next, s, 1, m);
      YieldOut(c.h, fuel, st', vs);
      Delay(c, fuel, s, 1 + m, u, fuel, u.(stack := s.stack), k, Ev.YieldCall(c.h, fuel, st', vs), q + 2, None,
            Allowed(jumps, loop));
      n := 1 + m + k;
  }

  lemma YieldMeaning(h: Host, fuel: nat, st: Ev.EState, e: Expr, sc: Scope)
    requires e.Yield? && |st.envs| > 0
    ensures
      Ev.Eval(h, fuel, st, e, sc) ==
        match Ev.EvalAll(h, fuel, st, e.args, |e.args|, sc)
        case Stopped(out) => out
        case Outs(vs, st') => if |st'.envs| == 0 then Ev.Undefined else Ev.YieldCall(h, fuel, st', vs)
  {
    hide After, Ev.Call, Ev.YieldCall;
  }

  lemma YieldOut(h: Host, fuel: nat, st: Ev.EState, args: seq<Value>)
    requires |st.envs| > 0
    ensures !Ev.YieldCall(h, fuel, st, args).Done?
  {
    hide Ev.EvalStmts, Ev.Bound;
  }

  /** A call: receiver, arguments, then Send with the block's instruction set. */
  lemma CallSim(c: Setting, fuel: nat, e: Expr, sc: Scope, loop: Option<Loop>, jumps: bool, st: Ev.EState, s: State)
    returns (n: nat)
    requires AtExpr(c, e, sc, loop, jumps, st, s) && e.Call?
    ensures ExprEnds(c, fuel, e, sc, loop, jumps, st, s, n)
    decreases fuel, 2, e, 1, 0
  {
    hide Exec, Step, Decode, Names, Linked, DefsOk, Iterate, Resolve, BlockOperand, ArgSetOf;
    hide CodeAt, CodeAll, Size, SizeAll, Ev.Eval, Ev.EvalAll, SendOut, WfExpr, WfAll, After, AfterAll, SendAt;
    var site := SiteOf(c.p, Unit(s), loop);
    var sc1 := After(e.recv, sc);
    var q := s.pc + Size(e.recv, sc, site);
    var end := s.pc + Size(e, sc, site);
    var after := AfterAll(e.args, |e.args|, sc1);
    AfterGrows(e.recv, sc);
    AfterAllGrows(e.args, |e.args|, sc1);
    CallShape(c.p, Unit(s), s.pc, e, sc, loop, |sc.outer|, jumps);
    CallMeaning(c.h, fuel, st, e, sc);
    var a := Ev.Eval(c.h, fuel, st, e.recv, sc);
    n := ExprSim(c, fuel, e.recv, sc, loop, false, st, s);
    if !a.Val? {
      Abort(c, fuel, s, n, a, q, end, Allowed(jumps, loop));
    } else {
      Onward(c, fuel, s, n, a, q, None);
      var t := Later(c, s, n);
      var m := AllSim(c, fuel, e.args, |e.args|, sc1, loop, a.st, t);
      var outs := Ev.EvalAll(c.h, fuel, a.st, e.args, |e.args|, sc1);
      var r := q + SizeAll(e.args, |e.args|, sc1, site);
      match outs
      case Stopped(out) =>
        Abandon(c, fuel, s, n, t, fuel, m, out, r, end, Allowed(jumps, loop));
        n := n + m;
      case Outs(vs, st') =>
        var u := Later(c, t, m);
        var k := SendSim(c, fuel, e, after, loop, st', u, s.stack, a.v, vs);
        IterateAdd(c.next, s, n, m);
        Arrived(c, a.st, st', s, t, u);
        Delay(c, fuel, s, n + m, u, fuel, u.(stack := s.stack), k, SendOut(c.h, fuel, e, after, st', a.v, vs), end,
              None, Allowed(jumps, loop));
        n := n + m + k;
    }
  }

  lemma CallMeaning(h: Host, fuel: nat, st: Ev.EState, e: Expr, sc: Scope)
    requires e.Call? && |st.envs| > 0
    ensures
      var a := Ev.Eval(h, fuel, st, e.recv, sc);
      var sc1 := After(e.recv, sc);
      Ev.Eval(h, fuel, st, e, sc) ==
        if !a.Val? then a
        else match Ev.EvalAll(h, fuel, a.st, e.args, |e.args|, sc1)
          case Stopped(out) => out
          case Outs(vs, st') =>
            if |st'.envs| == 0 then Ev.Undefined
            else SendOut(h, fuel, e, AfterAll(e.args, |e.args|, sc1), st', a.v, vs)
  {
    hide After, Ev.Call, ArgSetOf;
  }

  function BlockValOf(e: Expr, after: Scope, st: Ev.EState): Option<Ev.BlockVal>
    requires e.Call? && |st.envs| > 0
  {
    if e.block.None? then None
    else Some(Ev.BlockVal(e.block.value.params, e.block.value.body, [after.cur] + after.outer, |st.envs| - 1))
  }

  function SendOut(h: Host, fuel: nat, e: Expr, after: Scope, st: Ev.EState, recv: Value, vs: seq<Value>): Ev.Out
    requires e.Call? && |vs| == |e.args| && |st.envs| > 0
  {
    Ev.Call(h, fuel, st, recv, e.name, vs, Some(ArgSetOf(e.args)), BlockValOf(e, after, st))
  }

  lemma SendSim(c: Setting, fuel: nat, e: Expr, after: Scope, loop: Option<Loop>, st: Ev.EState, u: State,
                base: seq<Value>, recv: Value, vs: seq<Value>)
    returns (n: nat)
    requires Drives(c) && Sound(c.p) && Ready(c, st, u) && e.Call? && e.name != DEFER_NAME && |vs| == |e.args|
    requires u.stack == base + [recv] + vs && InScope(c.p, Unit(u), after)
    requires SendAt(c.p, Unit(u), u.pc, e, after, loop)
    ensures Lands(c, fuel, u.(stack := base), n, Later(c, u, n), SendOut(c.h, fuel, e, after, st, recv, vs), u.pc + 5,
                  None)
    ensures !SendOut(c.h, fuel, e, after, st, recv, vs).Done?
    decreases fuel, 1
  {
    hide Step, Decode, Names, Linked, DefsOk, Iterate, Resolve, Invoke, Insert, YieldTo;
    var unit :| BlockOperand(c.p, e.block, unit, after, loop)
                && At(c.p, Unit(u), u.pc, ISend(e.name, |e.args|, unit, Some(ArgSetOf(e.args))));
    One(c, st, u, ISend(e.name, |e.args|, unit, Some(ArgSetOf(e.args))));
    var top := |u.frames| - 1;
    var vb := if unit.Some? then Some(BlockRef(unit.value, top)) else None;
    if unit.Some? {
      var outer := [after.cur] + after.outer;
      assert outer[1..] == after.outer;
    }
    n := InvokeSim(c, fuel, st, u, base, recv, e.name, vs, Some(ArgSetOf(e.args)), BlockValOf(e, after, st), vb,
                   u.pc + 5);
    CallOut(c.h, fuel, st, recv, e.name, vs, Some(ArgSetOf(e.args)), BlockValOf(e, after, st));
  }

  // ------------------------------------------------------------ conditionals

  lemma {:induction false} CodeArmsAt(p: Program, k: nat, pc: nat, arms: seq<Arm>, n: nat, i: nat, sc: Scope,
                                      loop: Option<Loop>, end: nat)
    requires i < n <= |arms| && CodeArms(p, k, pc, arms, n, sc, loop, end)
    ensures CodeArm(p, k, pc + SizeArms(arms, i, sc, SiteOf(p, k, loop)), arms[i], AfterArms(arms, i, sc), loop, end)
    decreases n
  {
    hide CodeArm, SizeArm, CodeStmts, CodeAt, Decode;
    if i < n - 1 {
      CodeArmsAt(p, k, pc, arms, n - 1, i, sc, loop, end);
    }
  }

  lemma IfSim(c: Setting, fuel: nat, e: Expr, sc: Scope, loop: Option<Loop>, jumps: bool, st: Ev.EState, s: State)
    returns (n: nat)
    requires AtExpr(c, e, sc, loop, jumps, st, s) && e.If?
    ensures ExprEnds(c, fuel, e, sc, loop, jumps, st, s, n)
    decreases fuel, 2, e, 1, 0
  {
    hide Exec, Step, Decode, Names, EnvsOk, Linked, DefsOk, Iterate, Resolve, CodeAt, Size, WfExpr;
    n := ArmsSim(c, fuel, e, 0, sc, loop, jumps, st, s, s.pc);
  }

  /** What an if needs for its arm i. */
  lemma ArmShape(p: Program, k: nat, pc: nat, e: Expr, i: nat, sc: Scope, loop: Option<Loop>, jumps: bool)
    requires e.If? && CodeAt(p, k, pc, e, sc, loop) && WfExpr(e, |sc.outer|, jumps) && i < |e.arms|
    requires InScope(p, k, After(e, sc))
    ensures
      var site := SiteOf(p, k, loop);
      var sc1 := AfterArms(e.arms, i, sc);
      var sc2 := After(e.arms[i].cond, sc1);
      && CodeArm(p, k, pc + SizeArms(e.arms, i, sc, site), e.arms[i], sc1, loop, pc + Size(e, sc, site))
      && SizeArms(e.arms, i + 1, sc, site) == SizeArms(e.arms, i, sc, site) + SizeArm(e.arms[i], sc1, site)
      && sc1.outer == sc.outer && sc2.outer == sc.outer && WfArm(e.arms[i], |sc.outer|, jumps)
      && InScope(p, k, sc2) && InScope(p, k, AfterStmts(e.arms[i].body, |e.arms[i].body|, sc2))
  {
    hide CodeArm, SizeArm, CodeStmts, Decode, Names, Resolve, Declare, WfArm, WfStmts, At, CodeAll, StoresAt;
    hide SizeAll, SizeStmts, SizeStores, AfterAll, DeclareAll, WfAll;
    var arm := e.arms[i];
    var sc1 := AfterArms(e.arms, i, sc);
    CodeArmsAt(p, k, pc, e.arms, |e.arms|, i, sc, loop, pc + Size(e, sc, SiteOf(p, k, loop)));
    AfterArmsGrows(e.arms, i, sc);
    AfterGrows(arm.cond, sc1);
    AfterStmtsGrows(arm.body, |arm.body|, After(arm.cond, sc1));
    AfterArmsMonotone(e.arms, i + 1, |e.arms|, sc);
    if e.hasElse { AfterStmtsGrows(e.alt, |e.alt|, AfterArms(e.arms, |e.arms|, sc)); }
  }

  /** From arm i on; s stands at its condition. */
  lemma ArmsSim(c: Setting, fuel: nat, e: Expr, i: nat, sc: Scope, loop: Option<Loop>, jumps: bool, st: Ev.EState,
                s: State, pc: nat)
    returns (n: nat)
    requires e.If? && i <= |e.arms| && |s.frames| > 0
    requires AtExpr(c, e, sc, loop, jumps, st, s.(pc := pc))
    requires s.pc == pc + SizeArms(e.arms, i, sc, SiteOf(c.p, Unit(s), loop))
    ensures
      var out := Ev.EvalArms(c.h, fuel, st, e, i, sc);
      !out.Done? && Ends(c, fuel, s, n, out, pc + Size(e, sc, SiteOf(c.p, Unit(s), loop)), Allowed(jumps, loop))
    decreases fuel, 2, e, 0, |e.arms| - i + 1
  {
    hide Exec, Step, Decode, Names, EnvOk, LinkedAt, Iterate, Resolve, Ev.Eval, Ev.EvalStmts, After, AfterArms;
    hide AfterStmts;
    hide Size, SizeArms, SizeArm, CodeAt, CodeArm, CodeArms, WfExpr, WfArm, InScope, BodyAt;
    if i == |e.arms| {
      n := ElseSim(c, fuel, e, sc, loop, jumps, st, s, pc);
    } else {
      var site := SiteOf(c.p, Unit(s), loop);
      var end := pc + Size(e, sc, site);
      var sc' := AfterArms(e.arms, i, sc);
      var arm := e.arms[i];
      ArmShape(c.p, Unit(s), pc, e, i, sc, loop, jumps);
      CodeArmShape(c.p, Unit(s), s.pc, arm, sc', loop, jumps, |sc.outer|, end);
      n := ExprSim(c, fuel, arm.cond, sc', loop, false, st, s);
      var r := Ev.Eval(c.h, fuel, st, arm.cond, sc');
      var q := s.pc + Size(arm.cond, sc', site);
      if !r.Val? {
        Abort(c, fuel, s, n, r, q, end, Allowed(jumps, loop));
      } else {
        Onward(c, fuel, s, n, r, q, None);
        var t := Later(c, s, n);
        BranchSound(c, r.st, t, true, s.pc + SizeArm(arm, sc', site), s.stack, r.v);
        var u := Later(c, t, 1);
        IterateAdd(c.next, s, n, 1);
        Arrived(c, r.st, r.st, s, t, u);
        var m: nat;
        var out := Ev.EvalArms(c.h, fuel, st, e, i, sc);
        if Truthy(r.v) {
          m := ArmBodySim(c, fuel, arm, After(arm.cond, sc'), loop, jumps, r.st, u, end);
        } else {
          m := ArmsSim(c, fuel, e, i + 1, sc, loop, jumps, r.st, u, pc);
        }
        Delay(c, fuel, s, n + 1, u, fuel, u, m, out, end, Allowed(jumps, loop), Allowed(jumps, loop));
        n := n + 1 + m;
      }
    }
  }

  /** Behind the last arm: the else block, or nil. */
  lemma ElseSim(c: Setting, fuel: nat, e: Expr, sc: Scope, loop: Option<Loop>, jumps: bool, st: Ev.EState, s: State,
                pc: nat)
    returns (n: nat)
    requires e.If? && |s.frames| > 0
    requires AtExpr(c, e, sc, loop, jumps, st, s.(pc := pc))
    requires s.pc == pc + SizeArms(e.arms, |e.arms|, sc, SiteOf(c.p, Unit(s), loop))
    ensures
      var out := Ev.EvalArms(c.h, fuel, st, e, |e.arms|, sc);
      !out.Done? && Ends(c, fuel, s, n, out, pc + Size(e, sc, SiteOf(c.p, Unit(s), loop)), Allowed(jumps, loop))
    decreases fuel, 2, e, 0, 0
  {
    hide Exec, Step, Decode, Names, EnvOk, LinkedAt, Iterate, Resolve, Ev.Eval, Ev.EvalStmts, AfterArms, AfterStmts;
    hide SizeArms, CodeArms, CodeStmts, WfArm, WfStmts;
    AfterArmsGrows(e.arms, |e.arms|, sc);
    if e.hasElse {
      n := StmtsSim(c, fuel, e.alt, |e.alt|, AfterArms(e.arms, |e.arms|, sc), loop, jumps, st, s);
    } else {
      PushSound(c, st, s, IPutNull, NilV);
      n := 1;
    }
  }

  /** The selected consequence and the jump behind it. */
  lemma ArmBodySim(c: Setting, fuel: nat, arm: Arm, sc: Scope, loop: Option<Loop>, jumps: bool, st: Ev.EState, s: State,
                   end: nat)
    returns (n: nat)
    requires Drives(c) && Sound(c.p) && Ready(c, st, s) && (jumps ==> loop.Some? && sc.outer == [])
    requires WfArm(arm, |sc.outer|, jumps) && InScope(c.p, Unit(s), AfterStmts(arm.body, |arm.body|, sc))
    requires BodyAt(c.p, Unit(s), s.pc, arm, sc, loop, end)
    ensures
      var out := if arm.body == [] then Ev.Val(NilV, st) else Ev.EvalStmts(c.h, fuel, st, arm.body, |arm.body|, sc);
      !out.Done? && Ends(c, fuel, s, n, out, end, Allowed(jumps, loop))
    decreases fuel, 2, arm, 0
  {
    hide Exec, Step, Decode, Names, EnvsOk, Linked, DefsOk, Iterate, Resolve, CodeStmts, WfStmts, Ev.EvalStmts;
    hide SizeStmts;
    var out := if arm.body == [] then Ev.Val(NilV, st) else Ev.EvalStmts(c.h, fuel, st, arm.body, |arm.body|, sc);
    if arm.body == [] {
      PushSound(c, st, s, IPutNull, NilV);
      n := 1;
    } else {
      n := StmtsSim(c, fuel, arm.body, |arm.body|, sc, loop, jumps, st, s);
    }
    if out.Val? {
      var t := Later(c, s, n);
      JumpSound(c, out.st, t, end);
      IterateAdd(c.next, s, n, 1);
      Arrived(c, out.st, out.st, s, t, Later(c, t, 1));
      n := n + 1;
    }
  }

  // ------------------------------------------------------------- statements

  ghost predicate Popped(ss: seq<Stmt>, n: nat)
    requires n <= |ss|
  {
    forall i :: 0 <= i < n && ss[i].ExprStmt? ==> ss[i].isStmt
  }

  predicate Kept(s: Stmt) {
    s.ExprStmt? && !s.isStmt
  }

  lemma StmtsSim(c: Setting, fuel: nat, ss: seq<Stmt>, n: nat, sc: Scope, loop: Option<Loop>, jumps: bool,
                 st: Ev.EState, s: State)
    returns (k: nat)
    requires Drives(c) && Sound(c.p) && Ready(c, st, s) && n <= |ss| && (jumps ==> loop.Some? && sc.outer == [])
    requires CodeStmts(c.p, Unit(s), s.pc, ss, n, sc, loop) && InScope(c.p, Unit(s), AfterStmts(ss, n, sc))
    requires WfStmts(ss, |sc.outer|, jumps) && (Popped(ss, n) || (n == |ss| && ValueBlock(ss)))
    ensures
      var out := Ev.EvalStmts(c.h, fuel, st, ss, n, sc);
      && Ends(c, fuel, s, k, out, s.pc + SizeStmts(ss, n, sc, SiteOf(c.p, Unit(s), loop)), Allowed(jumps, loop))
      && (Popped(ss, n) ==> !out.Val?) && (n == |ss| && ValueBlock(ss) ==> !out.Done?)
    decreases fuel, 2, ss, n
  {
    hide Exec, Step, Decode, Names, EnvsOk, Linked, DefsOk, Resolve, CodeStmt, SizeStmt, Ev.EvalStmt, AfterStmt;
    hide WfStmt, CodeAt, At, InBlock, BlockOperand;
    var site := SiteOf(c.p, Unit(s), loop);
    if n == 0 {
      k := 0;
      assert Later(c, s, 0) == s;
      ArrivesHere(c, st, s);
    } else {
      AfterStmtGrows(ss[n - 1], AfterStmts(ss, n - 1, sc));
      AfterStmtsGrows(ss, n - 1, sc);
      k := StmtsSim(c, fuel, ss, n - 1, sc, loop, jumps, st, s);
      var before := Ev.EvalStmts(c.h, fuel, st, ss, n - 1, sc);
      var q := s.pc + SizeStmts(ss, n - 1, sc, site);
      var end := s.pc + SizeStmts(ss, n, sc, site);
      if before.Done? {
        var t := Later(c, s, k);
        var sc1 := AfterStmts(ss, n - 1, sc);
        var m := StmtSim(c, fuel, ss[n - 1], sc1, loop, jumps, before.st, t);
        var out := Ev.EvalStmt(c.h, fuel, before.st, ss[n - 1], sc1);
        Delay(c, fuel, s, k, t, fuel, t, m, out, end, Allowed(jumps, loop), Allowed(jumps, loop));
        k := k + m;
      }
    }
  }

  lemma StmtSim(c: Setting, fuel: nat, x: Stmt, sc: Scope, loop: Option<Loop>, jumps: bool, st: Ev.EState, s: State)
    returns (n: nat)
    requires Drives(c) && Sound(c.p) && Ready(c, st, s) && (jumps ==> loop.Some? && sc.outer == [])
    requires CodeStmt(c.p, Unit(s), s.pc, x, sc, loop) && InScope(c.p, Unit(s), AfterStmt(x, sc))
    requires WfStmt(x, |sc.outer|, jumps)
    ensures
      var out := Ev.EvalStmt(c.h, fuel, st, x, sc);
      && Ends(c, fuel, s, n, out, s.pc + SizeStmt(x, sc, SiteOf(c.p, Unit(s), loop)), Allowed(jumps, loop))
      && (Kept(x) || x.Return? || x.Break? || x.Continue? ==> !out.Done?) && (!Kept(x) ==> !out.Val?)
    decreases fuel, 2, x, 2
  {
    hide Exec, Step, Decode, Names, EnvsOk, Linked, DefsOk, Iterate, Resolve, CodeAt, Ev.Eval, Size, WfExpr;
    var site := SiteOf(c.p, Unit(s), loop);
    match x
    case ExprStmt(_, _) => n := ExprStmtSim(c, fuel, x, sc, loop, jumps, st, s);
    case Return(_) => n := ReturnSim(c, fuel, x, sc, loop, jumps, st, s);
    case While(_, _) => n := WhileSim(c, fuel, x, sc, loop, jumps, st, s);
    case Continue => n := JumpOutSim(c, fuel, x, sc, loop, jumps, st, s);
    case Break => n := JumpOutSim(c, fuel, x, sc, loop, jumps, st, s);
    case Def(_, _, _) => n := DefSim(c, fuel, x, sc, loop, jumps, st, s);
  }

  lemma ExprStmtSim(c: Setting, fuel: nat, x: Stmt, sc: Scope, loop: Option<Loop>, jumps: bool, st: Ev.EState, s: State)
    returns (n: nat)
    requires Drives(c) && Sound(c.p) && Ready(c, st, s) && (jumps ==> loop.Some? && sc.outer == []) && x.ExprStmt?
    requires CodeStmt(c.p, Unit(s), s.pc, x, sc, loop) && InScope(c.p, Unit(s), AfterStmt(x, sc))
    requires WfStmt(x, |sc.outer|, jumps)
    ensures
      var out := Ev.EvalStmt(c.h, fuel, st, x, sc);
      && Ends(c, fuel, s, n, out, s.pc + SizeStmt(x, sc, SiteOf(c.p, Unit(s), loop)), Allowed(jumps, loop))
      && (Kept(x) ==> !out.Done?) && (!Kept(x) ==> !out.Val?)
    decreases fuel, 2, x, 1
  {
    hide Exec, Step, Decode, Names, EnvsOk, Linked, DefsOk, Iterate, Resolve, CodeAt, Ev.Eval, Size, WfExpr;
    n := ExprSim(c, fuel, x.e, sc, loop, jumps, st, s);
    var r := Ev.Eval(c.h, fuel, st, x.e, sc);
    if r.Val? && x.isStmt {
      Onward(c, fuel, s, n, r, s.pc + Size(x.e, sc, SiteOf(c.p, Unit(s), loop)), Allowed(jumps, loop));
      var t := Later(c, s, n);
      PopSound(c, r.st, t);
      IterateAdd(c.next, s, n, 1);
      Arrived(c, r.st, r.st, s, t, Later(c, t, 1));
      assert (s.stack + [r.v])[..|s.stack|] == s.stack;
      n := n + 1;
    }
  }

  lemma ReturnSim(c: Setting, fuel: nat, x: Stmt, sc: Scope, loop: Option<Loop>, jumps: bool, st: Ev.EState, s: State)
    returns (n: nat)
    requires Drives(c) && Sound(c.p) && Ready(c, st, s) && x.Return?
    requires CodeStmt(c.p, Unit(s), s.pc, x, sc, loop) && InScope(c.p, Unit(s), AfterStmt(x, sc))
    requires WfStmt(x, |sc.outer|, jumps)
    ensures
      var out := Ev.EvalStmt(c.h, fuel, st, x, sc);
      && Ends(c, fuel, s, n, out, s.pc + SizeStmt(x, sc, SiteOf(c.p, Unit(s), loop)), Allowed(jumps, loop))
      && !out.Done? && !out.Val?
    decreases fuel, 2, x, 1
  {
    hide Exec, Step, Decode, Names, EnvsOk, Linked, DefsOk, Iterate, Resolve, CodeAt, Ev.Eval, Size, WfExpr;
    n := ExprSim(c, fuel, x.e, sc, loop, false, st, s);
    var r := Ev.Eval(c.h, fuel, st, x.e, sc);
    var q := s.pc + Size(x.e, sc, SiteOf(c.p, Unit(s), loop));
    if r.Val? {
      Onward(c, fuel, s, n, r, q, None);
      var t := Later(c, s, n);
      LeaveSound(c, r.st, t);
      IterateAdd(c.next, s, n, 1);
      Arrived(c, r.st, r.st, s, t, Later(c, t, 1));
      n := n + 1;
    } else {
      Abort(c, fuel, s, n, r, q, q + 1, Allowed(jumps, loop));
    }
  }

  lemma JumpOutSim(c: Setting, fuel: nat, x: Stmt, sc: Scope, loop: Option<Loop>, jumps: bool, st: Ev.EState, s: State)
    returns (n: nat)
    requires Drives(c) && Sound(c.p) && Ready(c, st, s) && jumps && loop.Some? && sc.outer == []
    requires CodeStmt(c.p, Unit(s), s.pc, x, sc, loop) && InScope(c.p, Unit(s), sc) && (x.Break? || x.Continue?)
    ensures Ends(c, fuel, s, n, Ev.EvalStmt(c.h, fuel, st, x, sc), s.pc + SizeStmt(x, sc, SiteOf(c.p, Unit(s), loop)),
                 loop)
    decreases fuel, 2, x, 0
  {
    hide Exec, Step, Decode, Names, EnvsOk, Linked, DefsOk, Iterate, Resolve;
    assert UnitWf(c.p, Unit(s));
    JumpSound(c, st, s, if x.Break? then loop.value.exit else loop.value.next);
    n := 1;
  }

  lemma DefSim(c: Setting, fuel: nat, x: Stmt, sc: Scope, loop: Option<Loop>, jumps: bool, st: Ev.EState, s: State)
    returns (n: nat)
    requires Drives(c) && Sound(c.p) && Ready(c, st, s) && x.Def?
    requires CodeStmt(c.p, Unit(s), s.pc, x, sc, loop)
    ensures Ends(c, fuel, s, n, Ev.EvalStmt(c.h, fuel, st, x, sc), s.pc + 5, Allowed(jumps, loop))
    decreases fuel, 2, x, 0
  {
    hide Exec, Step, Decode, Names, Linked, DefsOk, Iterate, Resolve, CodeAt, Size, Ev.Eval, At, WfExpr;
    assert EnvOk(c.p, st.envs[|s.frames| - 1], Top(s));
    PushSound(c, st, s, IPutSelf, Top(s).self);
    var t := Later(c, s, 1);
    var unit: nat :| At(c.p, Unit(s), s.pc + 1, IDefMethod(|x.params|, x.name, Some(unit)))
                     && unit < |c.p.units| && c.p.units[unit] == MethodSource(x.params, x.body);
    DefineSound(c, st, t, x.name, x.params, x.body, unit, s.stack, Top(s).self);
    IterateAdd(c.next, s, 1, 1);
    var u := Later(c, t, 1);
    Arrived(c, st, Ev.EvalStmt(c.h, fuel, st, x, sc).st, s, t, u);
    n := 2;
  }

  // ------------------------------------------------------------------ loops

  function NextOf(x: Stmt, sc: Scope, site: Site, pc: nat): nat
    requires x.While?
  {
    pc + 2 + SizeStmts(x.body, |x.body|, sc, site.(inLoop := true))
  }

  lemma WhileSim(c: Setting, fuel: nat, x: Stmt, sc: Scope, loop: Option<Loop>, jumps: bool, st: Ev.EState, s: State)
    returns (n: nat)
    requires Drives(c) && Sound(c.p) && Ready(c, st, s) && x.While?
    requires CodeStmt(c.p, Unit(s), s.pc, x, sc, loop) && InScope(c.p, Unit(s), AfterStmt(x, sc))
    requires WfStmt(x, |sc.outer|, jumps)
    ensures
      var out := Ev.EvalStmt(c.h, fuel, st, x, sc);
      !out.Val? && Ends(c, fuel, s, n, out, s.pc + SizeStmt(x, sc, SiteOf(c.p, Unit(s), loop)), Allowed(jumps, loop))
    decreases fuel, 2, x, 1
  {
    hide Exec, Step, Decode, Names, EnvsOk, Linked, DefsOk, Iterate, Resolve, Ev.EvalLoop, WfExpr, WfStmts;
    hide CodeStmts, SizeStmts, AfterStmts, After, Size, CodeAt, Ev.EvalStmts, At, StmtBlock, InScope;
    var site := SiteOf(c.p, Unit(s), loop);
    JumpSound(c, st, s, NextOf(x, sc, site, s.pc));
    var t := Later(c, s, 1);
    var m := LoopSim(c, fuel, x, sc, loop, st, t, s.pc);
    Delay(c, fuel, s, 1, t, fuel, t, m, Ev.EvalLoop(c.h, fuel, st, x, sc), s.pc + SizeStmt(x, sc, site), None,
          Allowed(jumps, loop));
    n := 1 + m;
  }

  /** From the loop condition on; the loop's code starts at pc. */
  lemma LoopSim(c: Setting, fuel: nat, x: Stmt, sc: Scope, loop: Option<Loop>, st: Ev.EState, t: State, pc: nat)
    returns (n: nat)
    requires Drives(c) && Sound(c.p) && Ready(c, st, t) && x.While?
    requires CodeStmt(c.p, Unit(t), pc, x, sc, loop) && InScope(c.p, Unit(t), AfterStmt(x, sc))
    requires WfStmt(x, |sc.outer|, false)
    requires t.pc == NextOf(x, sc, SiteOf(c.p, Unit(t), loop), pc)
    ensures
      var out := Ev.EvalLoop(c.h, fuel, st, x, sc);
      !out.Val? && Ends(c, fuel, t, n, out, pc + SizeStmt(x, sc, SiteOf(c.p, Unit(t), loop)), None)
    decreases fuel, 2, x, 0
  {
    hide Exec, Step, Decode, Names, EnvsOk, Linked, DefsOk, Iterate, Resolve, WfExpr, WfStmts, CodeAt, CodeStmts;
    hide Ev.Eval, AfterStmts, After, Size, SizeStmts, Ev.EvalRound;
    var site := SiteOf(c.p, Unit(t), loop);
    var sc1 := AfterStmts(x.body, |x.body|, sc);
    var exit := pc + SizeStmt(x, sc, site);
    AfterStmtsGrows(x.body, |x.body|, sc);
    AfterGrows(x.cond, sc1);
    n := ExprSim(c, fuel, x.cond, sc1, loop, false, st, t);
    var r := Ev.Eval(c.h, fuel, st, x.cond, sc1);
    var q := t.pc + Size(x.cond, sc1, site);
    if !r.Val? {
      Abort(c, fuel, t, n, r, q, exit, None);
    } else {
      Onward(c, fuel, t, n, r, q, None);
      var u := Later(c, t, n);
      if Truthy(r.v) && fuel == 0 {
        One(c, r.st, u, IBranchIf(pc + 2));
      } else {
        BranchSound(c, r.st, u, false, pc + 2, t.stack, r.v);
        var w := Later(c, u, 1);
        IterateAdd(c.next, t, n, 1);
        Arrived(c, r.st, r.st, t, u, w);
        if !Truthy(r.v) {
          n := n + 1;
        } else {
          var m := RoundSim(c, fuel - 1, x, sc, loop, r.st, w, pc);
          Delay(c, fuel, t, n + 1, w, fuel - 1, w, m, Ev.EvalRound(c.h, fuel - 1, r.st, x, sc), exit, None, None);
          n := n + 1 + m;
        }
      }
    }
  }

  /** The body and the rounds after it. */
  lemma RoundSim(c: Setting, fuel: nat, x: Stmt, sc: Scope, loop: Option<Loop>, st: Ev.EState, w: State, pc: nat)
    returns (n: nat)
    requires Drives(c) && Sound(c.p) && Ready(c, st, w) && x.While?
    requires CodeStmt(c.p, Unit(w), pc, x, sc, loop) && InScope(c.p, Unit(w), AfterStmt(x, sc))
    requires WfStmt(x, |sc.outer|, false)
    requires w.pc == pc + 2
    ensures
      var out := Ev.EvalRound(c.h, fuel, st, x, sc);
      !out.Val? && Ends(c, fuel, w, n, out, pc + SizeStmt(x, sc, SiteOf(c.p, Unit(w), loop)), None)
    decreases fuel, 2, x, 1
  {
    hide Exec, Step, Decode, Names, EnvsOk, Linked, DefsOk, Iterate, Resolve, WfExpr, WfStmts, CodeAt, CodeStmts;
    hide Ev.EvalStmts, Ev.EvalLoop, SizeStmts, AfterStmts, Size, After, At;
    var site := SiteOf(c.p, Unit(w), loop);
    var sc1 := AfterStmts(x.body, |x.body|, sc);
    var exit := pc + SizeStmt(x, sc, site);
    var inner := Some(Loop(exit, NextOf(x, sc, site, pc)));
    var jumps := |sc.outer| == 0;
    AfterGrows(x.cond, sc1);
    n := StmtsSim(c, fuel, x.body, |x.body|, sc, inner, jumps, st, w);
    var r := Ev.EvalStmts(c.h, fuel, st, x.body, |x.body|, sc);
    if r.Done? || r.Continued? {
      var t := Later(c, w, n);
      var m := LoopSim(c, fuel, x, sc, loop, r.st, t, pc);
      Delay(c, fuel, w, n, t, fuel, t, m, Ev.EvalLoop(c.h, fuel, r.st, x, sc), exit, None, None);
      n := n + m;
    }
  }
}
