/**
 The programs the compiler is claimed correct for, and how scopes grow while
 they are compiled.
 */
module WellFormed {
  import opened Wrappers
  import opened Ast
  import opened Layout

  /** A block in value position: it ends in an expression that is kept, or leaves. */
  predicate ValueBlock(ss: seq<Stmt>) {
    && |ss| > 0
    && (forall i :: 0 <= i < |ss| - 1 && ss[i].ExprStmt? ==> ss[i].isStmt)
    && var last := ss[|ss| - 1];
       ((last.ExprStmt? && !last.isStmt) || last.Return? || last.Break? || last.Continue?)
  }

  /** A block whose values are all popped. */
  predicate StmtBlock(ss: seq<Stmt>) {
    forall i :: 0 <= i < |ss| && ss[i].ExprStmt? ==> ss[i].isStmt
  }

  /** nest: how many blocks the expression stands in.  jumps: whether a break or
      continue of the enclosing loop may stand here (only where the operand
      stack is as high as at the loop's start). */
  predicate WfExpr(e: Expr, nest: nat, jumps: bool)
    decreases e, 0
  {
    match e
    case ArrayLit(elems) => WfAll(elems, nest)
    case Assign(vars, value) => |vars| > 0 && WfExpr(value, nest, false)
    case Logic(_, l, r) => WfExpr(l, nest, false) && WfExpr(r, nest, false)
    case Infix(_, l, r) => WfExpr(l, nest, false) && WfExpr(r, nest, false)
    case Not(a) => WfExpr(a, nest, false)
    case Minus(a) => WfExpr(a, nest, false)
    case Plus(a) => WfExpr(a, nest, false)
    case If(arms, hasElse, alt) =>
      && (forall i :: 0 <= i < |arms| ==> WfArm(arms[i], nest, jumps))
      && (hasElse ==> ValueBlock(alt) && WfStmts(alt, nest, jumps))
    case Yield(args) => nest <= 1 && WfAll(args, nest)
    case Pair(_, v) => WfExpr(v, nest, false)
    case Call(recv, name, args, block) =>
      && name != DEFER_NAME
      && WfExpr(recv, nest, false)
      && WfAll(args, nest)
      && (block.Some? ==> WfBlock(block.value, nest))
    case _ => true
  }

  predicate WfAll(es: seq<Expr>, nest: nat)
    decreases es, 0
  {
    forall i :: 0 <= i < |es| ==> WfExpr(es[i], nest, false)
  }

  predicate WfArm(arm: Arm, nest: nat, jumps: bool)
    decreases arm, 0
  {
    && WfExpr(arm.cond, nest, false)
    && (arm.body != [] ==> ValueBlock(arm.body) && WfStmts(arm.body, nest, jumps))
  }

  predicate WfBlock(b: BlockLit, nest: nat)
    decreases b, 0
  {
    && Distinct(b.params, |b.params|) == b.params
    && ValueBlock(b.body)
    && WfStmts(b.body, nest + 1, false)
  }

  predicate WfStmt(s: Stmt, nest: nat, jumps: bool)
    decreases s, 0
  {
    match s
    case ExprStmt(e, _) => WfExpr(e, nest, jumps)
    case Return(e) => WfExpr(e, nest, false)
    case While(cond, body) => WfExpr(cond, nest, false) && StmtBlock(body) && WfStmts(body, nest, nest == 0)
    case Continue => jumps
    case Break => jumps
    case Def(_, params, body) => WfParams(params) && WfBody(body)
  }

  predicate WfStmts(ss: seq<Stmt>, nest: nat, jumps: bool)
    decreases ss, 0
  {
    forall i :: 0 <= i < |ss| ==> WfStmt(ss[i], nest, jumps)
  }

  predicate WfBody(body: seq<Stmt>)
    decreases body, 1
  {
    body != [] ==> ValueBlock(body) && WfStmts(body, 0, false)
  }

  /** Parameter names are distinct and defaults declare no locals, so that a
      parameter's index is its local's index. */
  predicate WfParams(params: seq<Param>)
    decreases params, 0
  {
    && (forall i :: 0 <= i < |params| ==> WfParam(params[i]))
    && PlainDefaults(params, |params|)
  }

  predicate WfParam(p: Param)
    decreases p, 0
  {
    match p
    case DefaultParam(x, d) => x != BLANK && WfExpr(d, 0, false)
    case KeyDefaultParam(_, d) => WfExpr(d, 0, false)
    case _ => true
  }

  predicate PlainDefaults(ps: seq<Param>, n: nat)
    requires n <= |ps|
  {
    n == 0
    || (&& PlainDefaults(ps, n - 1)
        && var sc := AfterParams(ps, n - 1, EMPTY);
           AfterParam(ps[n - 1], sc) == Scope(sc.cur + [ps[n - 1].name], [])
           && ps[n - 1].name !in sc.cur)
  }

  predicate WfUnit(u: Source) {
    match u
    case MainSource(body) => (StmtBlock(body) || ValueBlock(body)) && WfStmts(body, 0, false)
    case MethodSource(params, body) => WfParams(params) && WfBody(body)
    case BlockSource(names, body, outer, _) =>
      WfBlock(BlockLit(names, body), if |outer| > 0 then |outer| - 1 else 0) && |outer| > 0
  }

  // ------------------------------------------------------------ scope growth

  ghost predicate Differ(names: seq<Name>, i: int, j: int)
    requires 0 <= i < |names| && 0 <= j < |names|
  {
    names[i] != names[j]
  }

  ghost predicate NoDup(names: seq<Name>) {
    forall i, j {:trigger Differ(names, i, j)} :: 0 <= i < j < |names| ==> Differ(names, i, j)
  }

  lemma AddNoDup(names: seq<Name>, x: Name)
    requires NoDup(names) && x !in names
    ensures NoDup(names + [x])
  {
    var more := names + [x];
    forall i, j | 0 <= i < j < |more| ensures Differ(more, i, j) {
      if j < |names| { assert Differ(names, i, j); }
    }
  }

  ghost predicate Grows(a: Scope, b: Scope) {
    && a.cur <= b.cur
    && a.outer == b.outer
    && (NoDup(a.cur) ==> NoDup(b.cur))
  }

  lemma DeclareGrows(sc: Scope, x: Name)
    ensures Grows(sc, Declare(sc, x))
  {
    if NoDup(sc.cur) && x !in sc.cur {
      AddNoDup(sc.cur, x);
    }
  }

  lemma {:induction false} DeclareAllGrows(sc: Scope, vars: seq<Name>, n: nat)
    requires n <= |vars|
    ensures Grows(sc, DeclareAll(sc, vars, n))
  {
    if n > 0 {
      DeclareAllGrows(sc, vars, n - 1);
      DeclareGrows(DeclareAll(sc, vars, n - 1), vars[n - 1]);
    }
  }

  lemma {:induction false} AfterGrows(e: Expr, sc: Scope)
    ensures Grows(sc, After(e, sc))
    decreases e, 0
  {
    match e
    case ArrayLit(elems) => AfterAllGrows(elems, |elems|, sc);
    case Assign(vars, value) => AfterGrows(value, sc); DeclareAllGrows(After(value, sc), vars, |vars|);
    case Logic(_, l, r) => AfterGrows(l, sc); AfterGrows(r, After(l, sc));
    case Infix(_, l, r) => AfterGrows(l, sc); AfterGrows(r, After(l, sc));
    case Not(a) => AfterGrows(a, sc);
    case Minus(a) => AfterGrows(a, sc);
    case Plus(a) => AfterGrows(a, sc);
    case If(arms, hasElse, alt) =>
      AfterArmsGrows(arms, |arms|, sc);
      if hasElse { AfterStmtsGrows(alt, |alt|, AfterArms(arms, |arms|, sc)); }
    case Yield(args) => AfterAllGrows(args, |args|, sc);
    case Pair(_, v) => AfterGrows(v, sc);
    case Call(recv, _, args, _) => AfterGrows(recv, sc); AfterAllGrows(args, |args|, After(recv, sc));
    case _ =>
  }

  lemma {:induction false} AfterAllGrows(es: seq<Expr>, n: nat, sc: Scope)
    requires n <= |es|
    ensures Grows(sc, AfterAll(es, n, sc))
    decreases es, n
  {
    if n > 0 {
      AfterAllGrows(es, n - 1, sc);
      AfterGrows(es[n - 1], AfterAll(es, n - 1, sc));
    }
  }

  lemma {:induction false} AfterArmsGrows(arms: seq<Arm>, n: nat, sc: Scope)
    requires n <= |arms|
    ensures Grows(sc, AfterArms(arms, n, sc))
    decreases arms, n
  {
    if n > 0 {
      var arm := arms[n - 1];
      AfterArmsGrows(arms, n - 1, sc);
      AfterGrows(arm.cond, AfterArms(arms, n - 1, sc));
      AfterStmtsGrows(arm.body, |arm.body|, After(arm.cond, AfterArms(arms, n - 1, sc)));
    }
  }

  lemma {:induction false} AfterStmtGrows(s: Stmt, sc: Scope)
    ensures Grows(sc, AfterStmt(s, sc))
    decreases s, 0
  {
    match s
    case ExprStmt(e, _) => AfterGrows(e, sc);
    case Return(e) => AfterGrows(e, sc);
    case While(cond, body) =>
      AfterStmtsGrows(body, |body|, sc);
      AfterGrows(cond, AfterStmts(body, |body|, sc));
    case _ =>
  }

  lemma {:induction false} AfterStmtsGrows(ss: seq<Stmt>, n: nat, sc: Scope)
    requires n <= |ss|
    ensures Grows(sc, AfterStmts(ss, n, sc))
    decreases ss, n
  {
    if n > 0 {
      AfterStmtsGrows(ss, n - 1, sc);
      AfterStmtGrows(ss[n - 1], AfterStmts(ss, n - 1, sc));
    }
  }

  /** Later prefixes of the same list only add names. */
  lemma {:induction false} AfterAllMonotone(es: seq<Expr>, m: nat, n: nat, sc: Scope)
    requires m <= n <= |es|
    ensures Grows(AfterAll(es, m, sc), AfterAll(es, n, sc))
    decreases n
  {
    if m < n {
      AfterAllMonotone(es, m, n - 1, sc);
      AfterGrows(es[n - 1], AfterAll(es, n - 1, sc));
    }
  }

  lemma {:induction false} AfterArmsMonotone(arms: seq<Arm>, m: nat, n: nat, sc: Scope)
    requires m <= n <= |arms|
    ensures Grows(AfterArms(arms, m, sc), AfterArms(arms, n, sc))
    decreases n
  {
    if m < n {
      var arm := arms[n - 1];
      AfterArmsMonotone(arms, m, n - 1, sc);
      AfterGrows(arm.cond, AfterArms(arms, n - 1, sc));
      AfterStmtsGrows(arm.body, |arm.body|, After(arm.cond, AfterArms(arms, n - 1, sc)));
    }
  }

  lemma {:induction false} AfterStmtsMonotone(ss: seq<Stmt>, m: nat, n: nat, sc: Scope)
    requires m <= n <= |ss|
    ensures Grows(AfterStmts(ss, m, sc), AfterStmts(ss, n, sc))
    decreases n
  {
    if m < n {
      AfterStmtsMonotone(ss, m, n - 1, sc);
      AfterStmtGrows(ss[n - 1], AfterStmts(ss, n - 1, sc));
    }
  }

  lemma {:induction false} DeclareAllMonotone(sc: Scope, vars: seq<Name>, m: nat, n: nat)
    requires m <= n <= |vars|
    ensures Grows(DeclareAll(sc, vars, m), DeclareAll(sc, vars, n))
    decreases n
  {
    if m < n {
      DeclareAllMonotone(sc, vars, m, n - 1);
      DeclareGrows(DeclareAll(sc, vars, n - 1), vars[n - 1]);
    }
  }

  lemma {:induction false} DistinctNoDup(names: seq<Name>, n: nat)
    requires n <= |names|
    ensures NoDup(Distinct(names, n))
  {
    if n > 0 {
      DistinctNoDup(names, n - 1);
      if names[n - 1] !in Distinct(names, n - 1) {
        AddNoDup(Distinct(names, n - 1), names[n - 1]);
      }
    }
  }

  lemma {:induction false} AfterParamsGrows(ps: seq<Param>, m: nat, n: nat, sc: Scope)
    requires m <= n <= |ps|
    ensures Grows(AfterParams(ps, m, sc), AfterParams(ps, n, sc))
    decreases n
  {
    hide After, Declare;
    if m < n {
      var before := AfterParams(ps, n - 1, sc);
      AfterParamsGrows(ps, m, n - 1, sc);
      match ps[n - 1]
      case DefaultParam(x, d) => AfterGrows(d, before); if x != BLANK { DeclareGrows(After(d, before), x); }
      case KeyDefaultParam(x, d) => DeclareGrows(before, x); AfterGrows(d, Declare(before, x));
      case _ => DeclareGrows(before, ps[n - 1].name);
    }
  }

  /** A unit's table holds no name twice, and starts with the names of its start scope. */
  lemma NamesNoDup(u: Source)
    ensures NoDup(Names(u)) && StartScope(u).cur <= Names(u)
    ensures AfterStmts(u.body, |u.body|, StartScope(u)).outer == StartScope(u).outer
  {
    AfterStmtsGrows(u.body, |u.body|, StartScope(u));
    match u
    case MainSource(_) =>
    case MethodSource(ps, _) => AfterParamsGrows(ps, 0, |ps|, EMPTY);
    case BlockSource(names, _, _, _) => DistinctNoDup(names, |names|);
  }
}
