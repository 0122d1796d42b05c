/**
 The reference meaning of a program: a recursive evaluator of the syntax tree.
 Variables are looked up by name in named environments, one for each method call
 or block activation; there is no stack, no code and no jump.  Fuel bounds the
 number of loop rounds and calls on a path.
 */
module Evaluator {
  import opened Wrappers
  import opened Bytecode
  import opened Binding
  import opened Ast
  import opened Layout
  import opened Machine

  datatype BlockVal = BlockVal(params: seq<Name>, body: seq<Stmt>, outer: seq<seq<Name>>, ep: nat)

  /** One activation: its variables, and the activation its block text stands in. */
  datatype Env = Env(vars: map<Name, Value>, self: Value, ep: Option<nat>, block: Option<BlockVal>)

  datatype MethodDef = MethodDef(params: seq<Param>, body: seq<Stmt>)

  datatype EState = EState(envs: seq<Env>, defs: map<MethodKey, MethodDef>, world: World)

  datatype Out =
    | Val(v: Value, st: EState)       // an expression's value
    | Done(st: EState)                // a statement that leaves no value
    | Returned(v: Value, st: EState)
    | Broke(st: EState)
    | Continued(st: EState)
    | Error(err: ErrorKind, st: EState)
    | Timeout
    | Undefined                       // outside what the compiler is claimed correct for

  // -------------------------------------------------------------- variables

  /** The activation `depth` lexical levels out from activation i. */
  function Outward(envs: seq<Env>, i: nat, depth: nat): (r: Option<nat>)
    ensures r.Some? ==> r.value < |envs|
    decreases depth
  {
    if i >= |envs| then None
    else if depth == 0 then Some(i)
    else match envs[i].ep
      case None => None
      case Some(j) => Outward(envs, j, depth - 1)
  }

  /** The activation that holds a declared name: the innermost one whose text declares it. */
  function Holder(st: EState, sc: Scope, x: Name): Option<nat> {
    match Resolve(sc, x)
    case None => None
    case Some(a) => if |st.envs| == 0 then None else Outward(st.envs, |st.envs| - 1, a.depth)
  }

  function Look(vars: map<Name, Value>, x: Name): Option<Value> {
    if x in vars then Some(vars[x]) else None
  }

  function SetVar(st: EState, i: nat, x: Name, v: Value): EState
    requires i < |st.envs|
  {
    st.(envs := st.envs[i := st.envs[i].(vars := st.envs[i].vars[x := v])])
  }

  /** Assignment.  A variable of an enclosing activation must have been assigned
      there before: the machine would create it in the wrong frame. */
  function Store(st: EState, sc: Scope, x: Name, v: Value): Out {
    match Holder(st, sc, x)
    case None => Undefined
    case Some(i) =>
      if i != |st.envs| - 1 && x !in st.envs[i].vars then Undefined
      else Done(SetVar(st, i, x, v))
  }

  /** Element i of the value of a multiple assignment. */
  function ElementOf(v: Value, many: bool, i: nat): Value {
    if !many then v
    else if v.ArrV? && i < |v.elems| then v.elems[i]
    else NilV
  }

  function StoreAll(st: EState, sc: Scope, vars: seq<Name>, n: nat, v: Value): Out
    requires n <= |vars|
    decreases n
  {
    if n == 0 then Done(st)
    else
      var r := StoreAll(st, sc, vars, n - 1, v);
      if !r.Done? || vars[n - 1] == BLANK then r
      else Store(r.st, DeclareAll(sc, vars, n), vars[n - 1], ElementOf(v, |vars| > 1, n - 1))
  }

  /** The bound parameters as named variables. */
  function Bound(names: seq<Name>, slots: Slots<Value>, n: nat): map<Name, Value>
    requires n <= |names| && n <= |slots|
  {
    if n == 0 then map[]
    else
      var before := Bound(names, slots, n - 1);
      if slots[n - 1].Some? then before[names[n - 1] := slots[n - 1].value] else before
  }

  function SomeAll(args: seq<Value>): Slots<Value> {
    seq(|args|, i requires 0 <= i < |args| => Some(args[i]))
  }

  // ------------------------------------------------------------------ calls

  function Current(st: EState): Env
    requires |st.envs| > 0
  {
    st.envs[|st.envs| - 1]
  }

  function PushEnv(st: EState, env: Env): EState {
    st.(envs := st.envs + [env])
  }

  function PopEnv(st: EState): EState
    requires |st.envs| > 0
  {
    st.(envs := st.envs[..|st.envs| - 1])
  }

  /** What a call gives from what its body gave. */
  function Finish(r: Out): Out {
    match r
    case Val(v, st) => if |st.envs| > 0 then Val(v, PopEnv(st)) else Undefined
    case Returned(v, st) => if |st.envs| > 0 then Val(v, PopEnv(st)) else Undefined
    case Error(e, st) => r
    case Timeout => r
    case _ => Undefined
  }

  /** The method (or program) activation a block's text stands in, through any
      number of enclosing blocks; a yield in the block yields to that method's block. */
  function Home(envs: seq<Env>, i: nat): (r: Option<nat>)
    requires i < |envs|
    ensures r.Some? ==> r.value < |envs|
    decreases i
  {
    match envs[i].ep
    case None => Some(i)
    case Some(j) => if j < i then Home(envs, j) else None
  }

  function Call(h: Host, fuel: nat, st: EState, recv: Value, name: Name, args: seq<Value>,
                given: Option<ArgSet>, block: Option<BlockVal>): Out
    requires Matches(given, args)
    decreases fuel, 0
  {
    match h.find(st.defs.Keys, recv, name)
    case Missing => Error(NoMethodError, st)
    case Builtin =>
      if block.Some? then Undefined
      else
        var (w, reply) := h.builtin(st.world, recv, name, args);
        (match reply
         case Fails(e) => Error(e, st.(world := w))
         case Got(v) => Val(v, st.(world := w)))
    case Defined(c) =>
      if (c, name) !in st.defs then Undefined
      else
        var m := st.defs[(c, name)];
        var params := ParamSetOf(m.params);
        match BindValues(params, given, args)
        case Err(e) => Error(e, st)
        case Ok(slots) =>
          if fuel == 0 then Timeout
          else
            var env := Env(Bound(params.names, slots, |params.names|), recv, None, block);
            Finish(RunMethod(h, fuel - 1, PushEnv(st, env), m))
  }

  /** The parameter defaults, then the body; an empty body is nil. */
  function RunMethod(h: Host, fuel: nat, st: EState, m: MethodDef): Out
    decreases fuel, 5
  {
    var r := Defaults(h, fuel, st, m.params, |m.params|);
    if !r.Done? then r
    else if m.body == [] then Val(NilV, r.st)
    else EvalStmts(h, fuel, r.st, m.body, |m.body|, AfterParams(m.params, |m.params|, EMPTY))
  }

  /** Each default is evaluated, and used if the call left its parameter unset. */
  function Defaults(h: Host, fuel: nat, st: EState, ps: seq<Param>, n: nat): Out
    requires n <= |ps|
    decreases fuel, 4, n
  {
    if n == 0 then Done(st)
    else
      var r := Defaults(h, fuel, st, ps, n - 1);
      if !r.Done? then r else DefaultOf(h, fuel, r.st, ps, n - 1)
  }

  function DefaultOf(h: Host, fuel: nat, st: EState, ps: seq<Param>, i: nat): Out
    requires i < |ps|
    decreases fuel, 3
  {
    var sc := AfterParams(ps, i, EMPTY);
    match ps[i]
    case DefaultParam(x, d) => Unset(x, Eval(h, fuel, st, d, sc))
    case KeyDefaultParam(x, d) => Unset(x, Eval(h, fuel, st, d, Declare(sc, x)))
    case RestParam(x) => Unset(x, Val(ArrV([]), st))
    case _ => Done(st)
  }

  function Unset(x: Name, r: Out): Out {
    if !r.Val? then r
    else if |r.st.envs| == 0 then Undefined
    else if x in Current(r.st).vars then Done(r.st)
    else Done(SetVar(r.st, |r.st.envs| - 1, x, r.v))
  }

  function YieldCall(h: Host, fuel: nat, st: EState, args: seq<Value>): Out
    requires |st.envs| > 0
    decreases fuel, 0
  {
    var self := Current(st).self;
    if Current(st).block.None? then Error(InternalError, st)
    else match Home(st.envs, |st.envs| - 1)
    case None => Undefined
    case Some(home) =>
      match st.envs[home].block
      case None => Error(InternalError, st)
      case Some(b) =>
        if |args| > |b.params| then Undefined
        else if fuel == 0 then Timeout
        else
          var env := Env(Bound(b.params, SomeAll(args), |args|), self, Some(b.ep), Some(b));
          Finish(EvalStmts(h, fuel - 1, PushEnv(st, env), b.body, |b.body|, BlockScope(b.params, b.outer)))
  }

  // ------------------------------------------------------------ expressions

  /** Integers are added, subtracted and compared directly; anything else is a call. */
  function Operate(h: Host, fuel: nat, op: Name, l: Value, r: Value, st: EState): Out
    decreases fuel, 1
  {
    var i := OperatorInstr(op);
    if i.IArith? && l.IntV? && r.IntV? then Val(Arithmetic(i.op, l.n, r.n), st)
    else Call(h, fuel, st, l, op, [r], None, None)
  }

  datatype Outs = Outs(vs: seq<Value>, st: EState) | Stopped(out: Out)

  function Eval(h: Host, fuel: nat, st: EState, e: Expr, sc: Scope): Out
    decreases fuel, 2, e, 1, 0
  {
    if |st.envs| == 0 then Undefined
    else match e
    case IntLit(n) => Val(IntV(n), st)
    case StrLit(s) => Val(StrV(s), st)
    case BoolLit(b) => Val(BoolV(b), st)
    case NilLit => Val(NilV, st)
    case SelfRef => Val(Current(st).self, st)
    case BlockGiven => Val(BoolV(Current(st).block.Some?), st)
    case ArrayLit(elems) =>
      (match EvalAll(h, fuel, st, elems, |elems|, sc)
       case Stopped(out) => out
       case Outs(vs, st') => Val(ArrV(vs), st'))
    case Ident(x) =>
      if Resolve(sc, x).None? then Call(h, fuel, st, Current(st).self, x, [], None, None)
      else (match Holder(st, sc, x)
        case None => Undefined
        case Some(i) => Val(if x in st.envs[i].vars then st.envs[i].vars[x] else NilV, st))
    case Assign(vars, value) =>
      var r := Eval(h, fuel, st, value, sc);
      if !r.Val? then r
      else if |vars| > 1 && !r.v.ArrV? then Error(TypeError, r.st)
      else
        var stored := StoreAll(r.st, After(value, sc), vars, |vars|, r.v);
        if !stored.Done? then stored
        else Val(ElementOf(r.v, |vars| > 1, if |vars| > 0 then |vars| - 1 else 0), stored.st)
    case Logic(conj, l, r) =>
      var a := Eval(h, fuel, st, l, sc);
      if !a.Val? || Truthy(a.v) != conj then a
      else Eval(h, fuel, a.st, r, After(l, sc))
    case Infix(op, l, r) =>
      var a := Eval(h, fuel, st, l, sc);
      if !a.Val? then a
      else
        var b := Eval(h, fuel, a.st, r, After(l, sc));
        if !b.Val? then b else Operate(h, fuel, op, a.v, b.v, b.st)
    case Not(a) =>
      var r := Eval(h, fuel, st, a, sc);
      if !r.Val? then r else Call(h, fuel, r.st, r.v, BANG, [], None, None)
    case Minus(a) =>
      var r := Eval(h, fuel, st, a, sc);
      if !r.Val? then r else Call(h, fuel, r.st, IntV(0), MINUS_NAME, [r.v], None, None)
    case Plus(a) => Eval(h, fuel, st, a, sc)
    case If(_, _, _) => EvalArms(h, fuel, st, e, 0, sc)
    case Yield(args) =>
      (match EvalAll(h, fuel, st, args, |args|, sc)
       case Stopped(out) => out
       case Outs(vs, st') => if |st'.envs| == 0 then Undefined else YieldCall(h, fuel, st', vs))
    case Pair(_, v) => Eval(h, fuel, st, v, sc)
    case Call(recv, name, args, block) =>
      var r := Eval(h, fuel, st, recv, sc);
      if !r.Val? then r
      else
        var sc' := After(recv, sc);
        match EvalAll(h, fuel, r.st, args, |args|, sc')
        case Stopped(out) => out
        case Outs(vs, st') =>
          if |st'.envs| == 0 then Undefined
          else
            var after := AfterAll(args, |args|, sc');
            var b := if block.None? then None
                     else Some(BlockVal(block.value.params, block.value.body, [after.cur] + after.outer,
                                        |st'.envs| - 1));
            Call(h, fuel, st', r.v, name, vs, Some(ArgSetOf(args)), b)
  }

  function EvalAll(h: Host, fuel: nat, st: EState, es: seq<Expr>, n: nat, sc: Scope): (r: Outs)
    requires n <= |es|
    ensures r.Outs? ==> |r.vs| == n
    decreases fuel, 2, es, n
  {
    if n == 0 then Outs([], st)
    else
      match EvalAll(h, fuel, st, es, n - 1, sc)
      case Stopped(out) => Stopped(out)
      case Outs(vs, st') =>
        var r := Eval(h, fuel, st', es[n - 1], AfterAll(es, n - 1, sc));
        if r.Val? then Outs(vs + [r.v], r.st) else Stopped(r)
  }

  /** The conditions in turn from arm i on; the first true one selects its body. */
  function EvalArms(h: Host, fuel: nat, st: EState, e: Expr, i: nat, sc: Scope): Out
    requires e.If? && i <= |e.arms|
    decreases fuel, 2, e, 0, |e.arms| - i
  {
    var sc' := AfterArms(e.arms, i, sc);
    if i == |e.arms| then
      if e.hasElse then EvalStmts(h, fuel, st, e.alt, |e.alt|, sc') else Val(NilV, st)
    else
      var arm := e.arms[i];
      var c := Eval(h, fuel, st, arm.cond, sc');
      if !c.Val? then c
      else if !Truthy(c.v) then EvalArms(h, fuel, c.st, e, i + 1, sc)
      else if arm.body == [] then Val(NilV, c.st)
      else EvalStmts(h, fuel, c.st, arm.body, |arm.body|, After(arm.cond, sc'))
  }

  // ------------------------------------------------------------- statements

  function EvalStmt(h: Host, fuel: nat, st: EState, s: Stmt, sc: Scope): Out
    decreases fuel, 2, s, 1
  {
    match s
    case ExprStmt(e, isStmt) =>
      var r := Eval(h, fuel, st, e, sc);
      if r.Val? && isStmt then Done(r.st) else r
    case Return(e) =>
      var r := Eval(h, fuel, st, e, sc);
      if r.Val? then Returned(r.v, r.st) else r
    case While(_, _) => EvalLoop(h, fuel, st, s, sc)
    case Continue => Continued(st)
    case Break => Broke(st)
    case Def(name, params, body) =>
      if |st.envs| == 0 then Undefined
      else Done(st.(defs := st.defs[(h.classOf(Current(st).self), name) := MethodDef(params, body)]))
  }

  function EvalStmts(h: Host, fuel: nat, st: EState, ss: seq<Stmt>, n: nat, sc: Scope): Out
    requires n <= |ss|
    decreases fuel, 2, ss, n
  {
    if n == 0 then Done(st)
    else
      var r := EvalStmts(h, fuel, st, ss, n - 1, sc);
      if r.Done? then EvalStmt(h, fuel, r.st, ss[n - 1], AfterStmts(ss, n - 1, sc)) else r
  }

  function EvalLoop(h: Host, fuel: nat, st: EState, s: Stmt, sc: Scope): Out
    requires s.While?
    decreases fuel, 2, s, 0
  {
    var c := Eval(h, fuel, st, s.cond, AfterStmts(s.body, |s.body|, sc));
    if !c.Val? then c
    else if !Truthy(c.v) then Done(c.st)
    else if fuel == 0 then Timeout
    else EvalRound(h, fuel - 1, c.st, s, sc)
  }

  /** One run of the body, then the rest of the loop. */
  function EvalRound(h: Host, fuel: nat, st: EState, s: Stmt, sc: Scope): Out
    requires s.While?
    decreases fuel, 2, s, 1
  {
    var r := EvalStmts(h, fuel, st, s.body, |s.body|, sc);
    match r
    case Done(st') => EvalLoop(h, fuel, st', s, sc)
    case Continued(st') => EvalLoop(h, fuel, st', s, sc)
    case Broke(st') => Done(st')
    case Val(_, _) => Undefined
    case _ => r
  }

  // ---------------------------------------------------------------- program

  function InitialEnv(self: Value): Env {
    Env(map[], self, None, None)
  }

  function EvalProgram(h: Host, fuel: nat, self: Value, world: World, body: seq<Stmt>): Out {
    EvalStmts(h, fuel, EState([InitialEnv(self)], map[], world), body, |body|, EMPTY)
  }
}
