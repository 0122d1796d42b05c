/**
 What the generator lays out: which names a scope holds after an expression has
 been compiled, how many code slots it takes, and what finished code (anchors
 patched) looks like.  `CodeAt` speaks of decoded instructions only, so it is a
 statement about the integers the virtual machine reads.
 */
module Layout {
  import opened Wrappers
  import opened Ast
  import opened Bytecode

  // ---------------------------------------------------------------- scopes

  /** The names of the table being filled, in the order of their indices, and
      those of the enclosing tables, innermost first. */
  datatype Scope = Scope(cur: seq<Name>, outer: seq<seq<Name>>)

  datatype Address = Address(depth: nat, index: nat)

  const EMPTY := Scope([], [])

  function Find(names: seq<Name>, x: Name): (i: nat)
    requires x in names
    ensures i < |names| && names[i] == x
  {
    if names[0] == x then 0 else Find(names[1..], x) + 1
  }

  function ResolveOuter(outer: seq<seq<Name>>, x: Name): (a: Option<Address>)
    ensures a.Some? ==> a.value.depth < |outer| && a.value.index < |outer[a.value.depth]|
                        && outer[a.value.depth][a.value.index] == x
  {
    if outer == [] then None
    else if x in outer[0] then Some(Address(0, Find(outer[0], x)))
    else
      var r := ResolveOuter(outer[1..], x);
      match r
      case None => None
      case Some(a) => Some(Address(a.depth + 1, a.index))
  }

  /** localTable.getLocal: the innermost table that declares the name. */
  function Resolve(sc: Scope, x: Name): (a: Option<Address>)
  {
    if x in sc.cur then Some(Address(0, Find(sc.cur, x)))
    else
      match ResolveOuter(sc.outer, x)
      case None => None
      case Some(a) => Some(Address(a.depth + 1, a.index))
  }

  /** localTable.setLocal: an unknown name gets the next index of the current table. */
  function Declare(sc: Scope, x: Name): Scope {
    if Resolve(sc, x).Some? then sc else sc.(cur := sc.cur + [x])
  }

  function DeclareAll(sc: Scope, vars: seq<Name>, n: nat): Scope
    requires n <= |vars|
  {
    if n == 0 then sc
    else
      var before := DeclareAll(sc, vars, n - 1);
      if vars[n - 1] == BLANK then before else Declare(before, vars[n - 1])
  }

  function After(e: Expr, sc: Scope): Scope
    decreases e, 0
  {
    match e
    case ArrayLit(elems) => AfterAll(elems, |elems|, sc)
    case Assign(vars, value) => DeclareAll(After(value, sc), vars, |vars|)
    case Logic(_, l, r) => After(r, After(l, sc))
    case Infix(_, l, r) => After(r, After(l, sc))
    case Not(a) => After(a, sc)
    case Minus(a) => After(a, sc)
    case Plus(a) => After(a, sc)
    case If(arms, hasElse, alt) =>
      var sc' := AfterArms(arms, |arms|, sc);
      if hasElse then AfterStmts(alt, |alt|, sc') else sc'
    case Yield(args) => AfterAll(args, |args|, sc)
    case Pair(_, v) => After(v, sc)
    case Call(recv, _, args, _) => AfterAll(args, |args|, After(recv, sc))
    case _ => sc
  }

  function AfterAll(es: seq<Expr>, n: nat, sc: Scope): Scope
    requires n <= |es|
    decreases es, n
  {
    if n == 0 then sc else After(es[n - 1], AfterAll(es, n - 1, sc))
  }

  function AfterArms(arms: seq<Arm>, n: nat, sc: Scope): Scope
    requires n <= |arms|
    decreases arms, n
  {
    if n == 0 then sc
    else
      var arm := arms[n - 1];
      AfterStmts(arm.body, |arm.body|, After(arm.cond, AfterArms(arms, n - 1, sc)))
  }

  function AfterStmt(s: Stmt, sc: Scope): Scope
    decreases s, 0
  {
    match s
    case ExprStmt(e, _) => After(e, sc)
    case Return(e) => After(e, sc)
    case While(cond, body) => After(cond, AfterStmts(body, |body|, sc))
    case _ => sc
  }

  function AfterStmts(ss: seq<Stmt>, n: nat, sc: Scope): Scope
    requires n <= |ss|
    decreases ss, n
  {
    if n == 0 then sc else AfterStmt(ss[n - 1], AfterStmts(ss, n - 1, sc))
  }

  function AfterParam(p: Param, sc: Scope): Scope {
    match p
    case DefaultParam(x, d) => if x == BLANK then After(d, sc) else Declare(After(d, sc), x)
    case KeyDefaultParam(x, d) => After(d, Declare(sc, x))
    case _ => Declare(sc, p.name)
  }

  function AfterParams(ps: seq<Param>, n: nat, sc: Scope): Scope
    requires n <= |ps|
  {
    if n == 0 then sc else AfterParam(ps[n - 1], AfterParams(ps, n - 1, sc))
  }

  /** The scope a unit's body starts in. */
  function StartScope(u: Source): Scope {
    match u
    case MainSource(_) => EMPTY
    case MethodSource(ps, _) => AfterParams(ps, |ps|, EMPTY)
    case BlockSource(names, _, outer, _) => BlockScope(names, outer)
  }

  /** localTable.set for each block argument: only the block's own table is searched. */
  function Distinct(names: seq<Name>, n: nat): seq<Name>
    requires n <= |names|
  {
    if n == 0 then []
    else
      var before := Distinct(names, n - 1);
      if names[n - 1] in before then before else before + [names[n - 1]]
  }

  function BlockScope(names: seq<Name>, outer: seq<seq<Name>>): Scope {
    Scope(Distinct(names, |names|), outer)
  }

  /** Every name the unit's own table ends up with. */
  function Names(u: Source): seq<Name> {
    AfterStmts(u.body, |u.body|, StartScope(u)).cur
  }

  function OuterOf(u: Source): seq<seq<Name>> {
    if u.BlockSource? then u.outer else []
  }

  // ----------------------------------------------------------------- sizes

  /** What the length of a `break` or `continue` depends on. */
  datatype Site = Site(inBlock: bool, inLoop: bool)

  function JumpSize(site: Site): nat {
    if site.inLoop then (if site.inBlock then 3 else 2) else 1
  }

  function StoreSize(vars: seq<Name>, i: nat): nat
    requires i < |vars|
  {
    (if vars[i] != BLANK then 3 else 0) + (if i != |vars| - 1 then 1 else 0)
  }

  function SizeStores(vars: seq<Name>, n: nat): nat
    requires n <= |vars|
  {
    if n == 0 then 0 else SizeStores(vars, n - 1) + StoreSize(vars, n - 1)
  }

  function Size(e: Expr, sc: Scope, site: Site): nat
    decreases e, 0
  {
    match e
    case IntLit(_) => 2
    case StrLit(_) => 2
    case BoolLit(_) => 1
    case NilLit => 1
    case SelfRef => 1
    case BlockGiven => 1
    case ArrayLit(elems) => SizeAll(elems, |elems|, sc, site) + 2
    case Ident(x) => if Resolve(sc, x).Some? then 3 else 6
    case Assign(vars, value) =>
      Size(value, sc, site) + (if |vars| > 1 then 2 else 0) + SizeStores(vars, |vars|)
    case Logic(_, l, r) => Size(l, sc, site) + 4 + Size(r, After(l, sc), site)
    case Infix(_, l, r) => Size(l, sc, site) + Size(r, After(l, sc), site) + 2
    case Not(a) => Size(a, sc, site) + 5
    case Minus(a) => 2 + Size(a, sc, site) + 5
    case Plus(a) => Size(a, sc, site)
    case If(arms, hasElse, alt) =>
      SizeArms(arms, |arms|, sc, site)
      + (if hasElse then SizeStmts(alt, |alt|, AfterArms(arms, |arms|, sc), site) else 1)
    case Yield(args) => 1 + SizeAll(args, |args|, sc, site) + 2
    case Pair(_, v) => Size(v, sc, site)
    case Call(recv, name, args, _) =>
      Size(recv, sc, site) + SizeAll(args, |args|, After(recv, sc), site) + (if name == DEFER_NAME then 3 else 5)
  }

  function SizeAll(es: seq<Expr>, n: nat, sc: Scope, site: Site): nat
    requires n <= |es|
    decreases es, n
  {
    if n == 0 then 0 else SizeAll(es, n - 1, sc, site) + Size(es[n - 1], AfterAll(es, n - 1, sc), site)
  }

  function SizeArm(arm: Arm, sc: Scope, site: Site): nat
    decreases arm, 0
  {
    Size(arm.cond, sc, site) + 4
    + (if arm.body == [] then 1 else SizeStmts(arm.body, |arm.body|, After(arm.cond, sc), site))
  }

  function SizeArms(arms: seq<Arm>, n: nat, sc: Scope, site: Site): nat
    requires n <= |arms|
    decreases arms, n
  {
    if n == 0 then 0 else SizeArms(arms, n - 1, sc, site) + SizeArm(arms[n - 1], AfterArms(arms, n - 1, sc), site)
  }

  function SizeStmt(s: Stmt, sc: Scope, site: Site): nat
    decreases s, 0
  {
    match s
    case ExprStmt(e, isStmt) => Size(e, sc, site) + (if isStmt then 1 else 0)
    case Return(e) => Size(e, sc, site) + 1
    case While(cond, body) =>
      2 + SizeStmts(body, |body|, sc, site.(inLoop := true)) + Size(cond, AfterStmts(body, |body|, sc), site) + 2
    case Continue => JumpSize(site)
    case Break => JumpSize(site)
    case Def(_, _, _) => 5
  }

  function SizeStmts(ss: seq<Stmt>, n: nat, sc: Scope, site: Site): nat
    requires n <= |ss|
    decreases ss, n
  {
    if n == 0 then 0 else SizeStmts(ss, n - 1, sc, site) + SizeStmt(ss[n - 1], AfterStmts(ss, n - 1, sc), site)
  }

  function SizeParam(p: Param, sc: Scope, site: Site): nat {
    match p
    case DefaultParam(x, d) => Size(d, sc, site) + (if x == BLANK then 0 else 3)
    case KeyDefaultParam(x, d) => Size(d, Declare(sc, x), site) + 3
    case RestParam(_) => 5
    case _ => 0
  }

  function SizeParams(ps: seq<Param>, n: nat, sc: Scope, site: Site): nat
    requires n <= |ps|
  {
    if n == 0 then 0 else SizeParams(ps, n - 1, sc, site) + SizeParam(ps[n - 1], AfterParams(ps, n - 1, sc), site)
  }

  // ------------------------------------------------------ argument vectors

  function ArgName(e: Expr): Name {
    match e
    case Ident(x) => x
    case Assign(vars, _) => if vars == [] then BLANK else vars[0]
    case Pair(key, _) => key
    case _ => BLANK
  }

  function ArgKindOf(e: Expr): ArgKind {
    match e
    case Assign(_, _) => OptionedArg
    case Pair(_, _) => OptionalKeywordArg
    case _ => NormalArg
  }

  /** The ArgSet compileCallExpression attaches to a call. */
  function ArgSetOf(args: seq<Expr>): ArgSet {
    ArgSet(seq(|args|, i requires 0 <= i < |args| => ArgName(args[i])),
           seq(|args|, i requires 0 <= i < |args| => ArgKindOf(args[i])))
  }

  function ParamKindOf(p: Param): ArgKind {
    match p
    case NormalParam(_) => NormalArg
    case DefaultParam(_, _) => OptionedArg
    case RestParam(_) => SplatArg
    case KeyParam(_) => RequiredKeywordArg
    case KeyDefaultParam(_, _) => OptionalKeywordArg
  }

  /** The ArgTypes compileDefStmt records in a method's instruction set. */
  function ParamSetOf(ps: seq<Param>): ArgSet {
    ArgSet(seq(|ps|, i requires 0 <= i < |ps| => ps[i].name),
           seq(|ps|, i requires 0 <= i < |ps| => ParamKindOf(ps[i])))
  }

  // ---------------------------------------------------------- finished code

  /** The instruction sets and, for each, what it was compiled from. */
  datatype Program = Program(sets: seq<InstructionSet>, units: seq<Source>)

  ghost predicate At(p: Program, k: nat, pc: int, i: Instr) {
    k < |p.sets| && 0 <= pc < |p.sets[k].code| && Decode(p.sets[k], pc) == i
  }

  predicate InBlock(p: Program, k: nat) {
    k < |p.units| && p.units[k].BlockSource?
  }

  function SiteOf(p: Program, k: nat, loop: Option<Loop>): Site {
    Site(InBlock(p, k), loop.Some?)
  }

  ghost predicate BlockOperand(p: Program, b: Option<BlockLit>, unit: Option<nat>, sc: Scope, loop: Option<Loop>) {
    if b.None? then unit.None?
    else unit.Some? && unit.value < |p.units|
         && p.units[unit.value] == BlockSource(b.value.params, b.value.body, [sc.cur] + sc.outer, loop)
  }

  /** The instruction of a binary operator other than the short-circuit ones. */
  function OperatorInstr(op: Name): Instr {
    if op == ADD_NAME then IArith(ADD, op)
    else if op == MINUS_NAME then IArith(SUBTRACT, op)
    else if op == LESS_NAME then IArith(LESS, op)
    else if op == LESS_EQUAL_NAME then IArith(LESS_EQUAL, op)
    else if op == GREATER_NAME then IArith(GREATER, op)
    else if op == GREATER_EQUAL_NAME then IArith(GREATER_EQUAL, op)
    else IBinary(op)
  }

  ghost predicate StoreAt(p: Program, k: nat, pc: nat, vars: seq<Name>, i: nat, sc: Scope)
    requires i < |vars|
  {
    var after := Declare(sc, vars[i]);
    var named := vars[i] != BLANK;
    && (named ==> Resolve(after, vars[i]).Some?
                  && var a := Resolve(after, vars[i]).value; At(p, k, pc, ISetLocal(a.depth, a.index)))
    && (i != |vars| - 1 ==> At(p, k, if named then pc + 3 else pc, IPop))
  }

  ghost predicate StoresAt(p: Program, k: nat, pc: nat, vars: seq<Name>, n: nat, sc: Scope)
    requires n <= |vars|
  {
    n == 0
    || (StoresAt(p, k, pc, vars, n - 1, sc)
        && StoreAt(p, k, pc + SizeStores(vars, n - 1), vars, n - 1, DeclareAll(sc, vars, n - 1)))
  }

  ghost predicate CodeAt(p: Program, k: nat, pc: nat, e: Expr, sc: Scope, loop: Option<Loop>)
    decreases e, 0
  {
    var site := SiteOf(p, k, loop);
    match e
    case IntLit(n) => At(p, k, pc, IPutInt(n))
    case StrLit(s) => At(p, k, pc, IPutString(s))
    case BoolLit(b) => At(p, k, pc, IPutBool(b))
    case NilLit => At(p, k, pc, IPutNull)
    case SelfRef => At(p, k, pc, IPutSelf)
    case BlockGiven => At(p, k, pc, IHasBlock)
    case ArrayLit(elems) =>
      && CodeAll(p, k, pc, elems, |elems|, sc, loop)
      && At(p, k, pc + SizeAll(elems, |elems|, sc, site), INewArray(|elems|))
    case Ident(x) =>
      (match Resolve(sc, x)
       case Some(a) => At(p, k, pc, IGetLocal(a.depth, a.index))
       case None => At(p, k, pc, IPutSelf) && At(p, k, pc + 1, ISend(x, 0, None, None)))
    case Assign(vars, value) =>
      var q := pc + Size(value, sc, site);
      && CodeAt(p, k, pc, value, sc, loop)
      && (|vars| > 1 ==> At(p, k, q, IExpandArray(|vars|)))
      && StoresAt(p, k, if |vars| > 1 then q + 2 else q, vars, |vars|, After(value, sc))
    case Logic(conj, l, r) =>
      var q := pc + Size(l, sc, site);
      var end := q + 4 + Size(r, After(l, sc), site);
      && CodeAt(p, k, pc, l, sc, loop)
      && At(p, k, q, IDup)
      && At(p, k, q + 1, if conj then IBranchUnless(end) else IBranchIf(end))
      && At(p, k, q + 3, IPop)
      && CodeAt(p, k, q + 4, r, After(l, sc), loop)
    case Infix(op, l, r) =>
      var q := pc + Size(l, sc, site);
      && CodeAt(p, k, pc, l, sc, loop)
      && CodeAt(p, k, q, r, After(l, sc), loop)
      && At(p, k, q + Size(r, After(l, sc), site), OperatorInstr(op))
    case Not(a) =>
      && CodeAt(p, k, pc, a, sc, loop)
      && At(p, k, pc + Size(a, sc, site), ISend(BANG, 0, None, None))
    case Minus(a) =>
      && At(p, k, pc, IPutInt(0))
      && CodeAt(p, k, pc + 2, a, sc, loop)
      && At(p, k, pc + 2 + Size(a, sc, site), ISend(MINUS_NAME, 1, None, None))
    case Plus(a) => CodeAt(p, k, pc, a, sc, loop)
    case If(arms, hasElse, alt) =>
      var q := pc + SizeArms(arms, |arms|, sc, site);
      var sc' := AfterArms(arms, |arms|, sc);
      && CodeArms(p, k, pc, arms, |arms|, sc, loop, pc + Size(e, sc, site))
      && (if hasElse then CodeStmts(p, k, q, alt, |alt|, sc', loop) else At(p, k, q, IPutNull))
    case Yield(args) =>
      && At(p, k, pc, IPutSelf)
      && CodeAll(p, k, pc + 1, args, |args|, sc, loop)
      && At(p, k, pc + 1 + SizeAll(args, |args|, sc, site), IInvokeBlock(|args|))
    case Pair(_, v) => CodeAt(p, k, pc, v, sc, loop)
    case Call(recv, name, args, block) =>
      var q := pc + Size(recv, sc, site);
      var sc' := After(recv, sc);
      var r := q + SizeAll(args, |args|, sc', site);
      && CodeAt(p, k, pc, recv, sc, loop)
      && CodeAll(p, k, q, args, |args|, sc', loop)
      && exists unit ::
           && BlockOperand(p, block, unit, AfterAll(args, |args|, sc'), loop)
           && At(p, k, r, if name == DEFER_NAME then IDefer(|args|, unit)
                          else ISend(name, |args|, unit, Some(ArgSetOf(args))))
  }

  ghost predicate CodeAll(p: Program, k: nat, pc: nat, es: seq<Expr>, n: nat, sc: Scope, loop: Option<Loop>)
    requires n <= |es|
    decreases es, n
  {
    n == 0
    || (&& CodeAll(p, k, pc, es, n - 1, sc, loop)
        && CodeAt(p, k, pc + SizeAll(es, n - 1, sc, SiteOf(p, k, loop)), es[n - 1], AfterAll(es, n - 1, sc), loop))
  }

  ghost predicate CodeArm(p: Program, k: nat, pc: nat, arm: Arm, sc: Scope, loop: Option<Loop>, end: int)
    decreases arm, 0
  {
    var site := SiteOf(p, k, loop);
    var q := pc + Size(arm.cond, sc, site);
    var sc' := After(arm.cond, sc);
    var next := pc + SizeArm(arm, sc, site);
    && CodeAt(p, k, pc, arm.cond, sc, loop)
    && At(p, k, q, IBranchUnless(next))
    && (if arm.body == [] then At(p, k, q + 2, IPutNull)
        else CodeStmts(p, k, q + 2, arm.body, |arm.body|, sc', loop))
    && At(p, k, next - 2, IJump(end))
  }

  ghost predicate CodeArms(p: Program, k: nat, pc: nat, arms: seq<Arm>, n: nat, sc: Scope, loop: Option<Loop>, end: int)
    requires n <= |arms|
    decreases arms, n
  {
    n == 0
    || (&& CodeArms(p, k, pc, arms, n - 1, sc, loop, end)
        && CodeArm(p, k, pc + SizeArms(arms, n - 1, sc, SiteOf(p, k, loop)), arms[n - 1], AfterArms(arms, n - 1, sc),
                   loop, end))
  }

  ghost predicate JumpAt(p: Program, k: nat, pc: nat, out: Instr, loop: bool, target: int) {
    if !loop then At(p, k, pc, out)
    else if InBlock(p, k) then At(p, k, pc, out) && At(p, k, pc + 1, IJump(target))
    else At(p, k, pc, IJump(target))
  }

  ghost predicate CodeStmt(p: Program, k: nat, pc: nat, s: Stmt, sc: Scope, loop: Option<Loop>)
    decreases s, 0
  {
    var site := SiteOf(p, k, loop);
    match s
    case ExprStmt(e, isStmt) =>
      && CodeAt(p, k, pc, e, sc, loop)
      && (isStmt ==> At(p, k, pc + Size(e, sc, site), IPop))
    case Return(e) =>
      && CodeAt(p, k, pc, e, sc, loop)
      && At(p, k, pc + Size(e, sc, site), ILeave)
    case While(cond, body) =>
      var next := pc + 2 + SizeStmts(body, |body|, sc, site.(inLoop := true));
      var sc' := AfterStmts(body, |body|, sc);
      var exit := next + Size(cond, sc', site) + 2;
      && At(p, k, pc, IJump(next))
      && CodeStmts(p, k, pc + 2, body, |body|, sc, Some(Loop(exit, next)))
      && CodeAt(p, k, next, cond, sc', loop)
      && At(p, k, exit - 2, IBranchIf(pc + 2))
    case Continue => JumpAt(p, k, pc, ILeave, loop.Some?, if loop.Some? then loop.value.next else 0)
    case Break => JumpAt(p, k, pc, IBreak, loop.Some?, if loop.Some? then loop.value.exit else 0)
    case Def(name, params, body) =>
      && At(p, k, pc, IPutSelf)
      && exists unit: nat ::
           && At(p, k, pc + 1, IDefMethod(|params|, name, Some(unit)))
           && unit < |p.units| && p.units[unit] == MethodSource(params, body)
  }

  ghost predicate CodeStmts(p: Program, k: nat, pc: nat, ss: seq<Stmt>, n: nat, sc: Scope, loop: Option<Loop>)
    requires n <= |ss|
    decreases ss, n
  {
    n == 0
    || (&& CodeStmts(p, k, pc, ss, n - 1, sc, loop)
        && CodeStmt(p, k, pc + SizeStmts(ss, n - 1, sc, SiteOf(p, k, loop)), ss[n - 1], AfterStmts(ss, n - 1, sc),
                    loop))
  }

  /** The code that fills a parameter left unset by the call. */
  ghost predicate CodeParam(p: Program, k: nat, pc: nat, q: Param, i: nat, sc: Scope)
  {
    var site := SiteOf(p, k, None);
    match q
    case DefaultParam(x, d) =>
      && CodeAt(p, k, pc, d, sc, None)
      && (x != BLANK ==> At(p, k, pc + Size(d, sc, site), ISetOptional(0, i)))
    case KeyDefaultParam(x, d) =>
      && CodeAt(p, k, pc, d, Declare(sc, x), None)
      && At(p, k, pc + Size(d, Declare(sc, x), site), ISetOptional(0, i))
    case RestParam(x) => At(p, k, pc, INewArray(0)) && At(p, k, pc + 2, ISetOptional(0, i))
    case _ => true
  }

  function ParamIndex(q: Param, sc: Scope): nat {
    var a := Resolve(AfterParam(q, sc), q.name);
    if a.Some? then a.value.index else 0
  }

  ghost predicate CodeParams(p: Program, k: nat, ps: seq<Param>, n: nat)
    requires n <= |ps|
  {
    n == 0
    || (var sc := AfterParams(ps, n - 1, EMPTY);
        && CodeParams(p, k, ps, n - 1)
        && CodeParam(p, k, SizeParams(ps, n - 1, EMPTY, SiteOf(p, k, None)), ps[n - 1], ParamIndex(ps[n - 1], sc), sc))
  }

  /** Where a unit's body starts: behind the parameter defaults. */
  function BodyStart(p: Program, k: nat): nat
    requires k < |p.units|
  {
    var u := p.units[k];
    if u.MethodSource? then SizeParams(u.params, |u.params|, EMPTY, SiteOf(p, k, None)) else 0
  }

  function LoopOf(u: Source): Option<Loop> {
    if u.BlockSource? then u.loop else None
  }

  ghost predicate UnitAt(p: Program, k: nat)
    requires k < |p.units|
  {
    var u := p.units[k];
    var site := SiteOf(p, k, LoopOf(u));
    var q := BodyStart(p, k);
    var size := if u.MethodSource? && u.body == [] then 1 else SizeStmts(u.body, |u.body|, StartScope(u), site);
    && k < |p.sets|
    && (u.MethodSource? ==> CodeParams(p, k, u.params, |u.params|) && p.sets[k].params == ParamSetOf(u.params))
    && (if u.MethodSource? && u.body == [] then At(p, k, q, IPutNull)
        else CodeStmts(p, k, q, u.body, |u.body|, StartScope(u), LoopOf(u)))
    && At(p, k, q + size, ILeave)
    && |p.sets[k].code| == q + size + 1
  }

  ghost predicate Compiled(p: Program) {
    && |p.sets| == |p.units|
    && forall k {:trigger UnitAt(p, k)} :: 0 <= k < |p.units| ==> UnitAt(p, k)
  }
}
