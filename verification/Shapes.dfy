/**
 What the code of one expression consists of: the layout predicates taken apart,
 one lemma for the code and one for the extent of each form.
 */
module Shapes {
  import opened Wrappers
  import opened Ast
  import opened Layout
  import opened Bytecode
  import opened WellFormed

  function LeafInstr(e: Expr): Instr {
    match e
    case IntLit(k) => IPutInt(k)
    case StrLit(t) => IPutString(t)
    case BoolLit(b) => IPutBool(b)
    case SelfRef => IPutSelf
    case BlockGiven => IHasBlock
    case _ => IPutNull
  }

  lemma InfixShape(p: Program, k: nat, pc: nat, e: Expr, sc: Scope, loop: Option<Loop>)
    requires e.Infix? && CodeAt(p, k, pc, e, sc, loop)
    ensures
      var site := SiteOf(p, k, loop);
      var sc1 := After(e.left, sc);
      var q := pc + Size(e.left, sc, site);
      && CodeAt(p, k, pc, e.left, sc, loop) && CodeAt(p, k, q, e.right, sc1, loop)
      && At(p, k, q + Size(e.right, sc1, site), OperatorInstr(e.op))
  {
    hide Decode, Resolve, Declare, At, CodeAll, CodeArms, CodeStmts, StoresAt, BlockOperand, Size, After;
  }

  lemma InfixExtent(e: Expr, sc: Scope, site: Site, nest: nat, jumps: bool)
    requires e.Infix? && WfExpr(e, nest, jumps)
    ensures
      var sc1 := After(e.left, sc);
      && Size(e, sc, site) == Size(e.left, sc, site) + Size(e.right, sc1, site) + 2
      && After(e, sc) == After(e.right, sc1)
      && WfExpr(e.left, nest, false) && WfExpr(e.right, nest, false)
  {
    hide Resolve, Declare, SizeAll, SizeArms, SizeStmts, SizeStores, AfterAll, AfterArms, AfterStmts, DeclareAll, WfAll;
    hide WfStmts;
  }

  lemma NotShape(p: Program, k: nat, pc: nat, e: Expr, sc: Scope, loop: Option<Loop>, nest: nat, jumps: bool)
    requires e.Not? && CodeAt(p, k, pc, e, sc, loop) && WfExpr(e, nest, jumps)
    ensures
      var q := pc + Size(e.arg, sc, SiteOf(p, k, loop));
      && CodeAt(p, k, pc, e.arg, sc, loop) && At(p, k, q, ISend(BANG, 0, None, None))
      && pc + Size(e, sc, SiteOf(p, k, loop)) == q + 5 && WfExpr(e.arg, nest, false)
  {
    hide Decode, Resolve, Declare, At, CodeAll, CodeArms, CodeStmts, StoresAt, SizeAll, SizeArms, SizeStmts;
    hide SizeStores, AfterAll, AfterArms, AfterStmts, DeclareAll, WfAll, WfStmts, BlockOperand;
  }

  lemma MinusShape(p: Program, k: nat, pc: nat, e: Expr, sc: Scope, loop: Option<Loop>, nest: nat, jumps: bool)
    requires e.Minus? && CodeAt(p, k, pc, e, sc, loop) && WfExpr(e, nest, jumps)
    ensures
      var q := pc + 2 + Size(e.arg, sc, SiteOf(p, k, loop));
      && At(p, k, pc, IPutInt(0)) && CodeAt(p, k, pc + 2, e.arg, sc, loop)
      && At(p, k, q, ISend(MINUS_NAME, 1, None, None))
      && pc + Size(e, sc, SiteOf(p, k, loop)) == q + 5 && After(e, sc) == After(e.arg, sc) && WfExpr(e.arg, nest, false)
  {
    hide Decode, Resolve, Declare, At, CodeAll, CodeArms, CodeStmts, StoresAt, SizeAll, SizeArms, SizeStmts;
    hide SizeStores, AfterAll, AfterArms, AfterStmts, DeclareAll, WfAll, WfStmts, BlockOperand;
  }

  lemma LogicShape(p: Program, k: nat, pc: nat, e: Expr, sc: Scope, loop: Option<Loop>)
    requires e.Logic? && CodeAt(p, k, pc, e, sc, loop)
    ensures
      var site := SiteOf(p, k, loop);
      var q := pc + Size(e.left, sc, site);
      var end := q + 4 + Size(e.right, After(e.left, sc), site);
      && CodeAt(p, k, pc, e.left, sc, loop) && CodeAt(p, k, q + 4, e.right, After(e.left, sc), loop)
      && At(p, k, q, IDup) && At(p, k, q + 3, IPop)
      && At(p, k, q + 1, if e.conj then IBranchUnless(end) else IBranchIf(end))
  {
    hide Decode, Resolve, Declare, At, CodeAll, CodeArms, CodeStmts, StoresAt, BlockOperand, Size, After;
  }

  lemma LogicExtent(e: Expr, sc: Scope, site: Site, nest: nat, jumps: bool)
    requires e.Logic? && WfExpr(e, nest, jumps)
    ensures
      var sc1 := After(e.left, sc);
      && Size(e, sc, site) == Size(e.left, sc, site) + 4 + Size(e.right, sc1, site)
      && After(e, sc) == After(e.right, sc1)
      && WfExpr(e.left, nest, false) && WfExpr(e.right, nest, false)
  {
    hide Resolve, Declare, SizeAll, SizeArms, SizeStmts, SizeStores, AfterAll, AfterArms, AfterStmts, DeclareAll, WfAll;
    hide WfStmts;
  }

  lemma AssignShape(p: Program, k: nat, pc: nat, e: Expr, sc: Scope, loop: Option<Loop>)
    requires e.Assign? && CodeAt(p, k, pc, e, sc, loop)
    ensures
      var q := pc + Size(e.value, sc, SiteOf(p, k, loop));
      && CodeAt(p, k, pc, e.value, sc, loop)
      && (|e.vars| > 1 ==> At(p, k, q, IExpandArray(|e.vars|)))
      && StoresAt(p, k, if |e.vars| > 1 then q + 2 else q, e.vars, |e.vars|, After(e.value, sc))
  {
    hide Decode, Resolve, Declare, At, CodeAll, CodeArms, CodeStmts, StoresAt, BlockOperand, Size, After;
  }

  lemma AssignExtent(e: Expr, sc: Scope, site: Site, nest: nat, jumps: bool)
    requires e.Assign? && WfExpr(e, nest, jumps)
    ensures Size(e, sc, site)
      == Size(e.value, sc, site) + (if |e.vars| > 1 then 2 else 0) + SizeStores(e.vars, |e.vars|)
    ensures After(e, sc) == DeclareAll(After(e.value, sc), e.vars, |e.vars|) && |e.vars| > 0
    ensures WfExpr(e.value, nest, false)
  {
    hide Resolve, Declare, SizeAll, SizeArms, SizeStmts, SizeStores, AfterAll, AfterArms, AfterStmts, DeclareAll, WfAll;
    hide WfStmts;
  }

  lemma YieldShape(p: Program, k: nat, pc: nat, e: Expr, sc: Scope, loop: Option<Loop>, nest: nat, jumps: bool)
    requires e.Yield? && CodeAt(p, k, pc, e, sc, loop) && WfExpr(e, nest, jumps)
    ensures
      var q := pc + 1 + SizeAll(e.args, |e.args|, sc, SiteOf(p, k, loop));
      && At(p, k, pc, IPutSelf)
      && CodeAll(p, k, pc + 1, e.args, |e.args|, sc, loop) && WfAll(e.args, nest)
      && At(p, k, q, IInvokeBlock(|e.args|)) && pc + Size(e, sc, SiteOf(p, k, loop)) == q + 2
      && After(e, sc) == AfterAll(e.args, |e.args|, sc) && nest <= 1
  {
    hide Decode, Resolve, Declare, At, CodeArms, CodeStmts, StoresAt, SizeArms, SizeStmts, SizeStores, AfterArms;
    hide AfterStmts, DeclareAll, WfStmts, BlockOperand;
  }

  ghost predicate SendAt(p: Program, k: nat, pc: nat, e: Expr, after: Scope, loop: Option<Loop>)
    requires e.Call?
  {
    exists unit :: BlockOperand(p, e.block, unit, after, loop)
                   && At(p, k, pc, ISend(e.name, |e.args|, unit, Some(ArgSetOf(e.args))))
  }

  lemma CallShape(p: Program, k: nat, pc: nat, e: Expr, sc: Scope, loop: Option<Loop>, nest: nat, jumps: bool)
    requires e.Call? && CodeAt(p, k, pc, e, sc, loop) && WfExpr(e, nest, jumps)
    ensures
      var site := SiteOf(p, k, loop);
      var sc1 := After(e.recv, sc);
      var q := pc + Size(e.recv, sc, site);
      var r := q + SizeAll(e.args, |e.args|, sc1, site);
      var after := AfterAll(e.args, |e.args|, sc1);
      && CodeAt(p, k, pc, e.recv, sc, loop) && WfExpr(e.recv, nest, false)
      && CodeAll(p, k, q, e.args, |e.args|, sc1, loop) && WfAll(e.args, nest)
      && After(e, sc) == after && pc + Size(e, sc, site) == r + 5
      && SendAt(p, k, r, e, after, loop) && e.name != DEFER_NAME
  {
    hide Decode, Resolve, Declare, BlockOperand, WfBlock, At, CodeArms, CodeStmts, StoresAt, SizeArms, SizeStmts;
    hide SizeStores, AfterArms, AfterStmts, DeclareAll, WfStmts, ArgSetOf;
  }

  lemma CodeArmShape(p: Program, k: nat, pc: nat, arm: Arm, sc: Scope, loop: Option<Loop>, jumps: bool, nest: nat,
                     end: nat)
    requires CodeArm(p, k, pc, arm, sc, loop, end) && WfArm(arm, nest, jumps)
    ensures
      var site := SiteOf(p, k, loop);
      var q := pc + Size(arm.cond, sc, site);
      && CodeAt(p, k, pc, arm.cond, sc, loop) && WfExpr(arm.cond, nest, false)
      && At(p, k, q, IBranchUnless(pc + SizeArm(arm, sc, site)))
      && BodyAt(p, k, q + 2, arm, After(arm.cond, sc), loop, end)
  {
    hide CodeAt, CodeStmts, Decode, Size, SizeStmts, WfExpr, After;
  }

  ghost predicate BodyAt(p: Program, k: nat, pc: nat, arm: Arm, sc: Scope, loop: Option<Loop>, end: nat) {
    && (if arm.body == [] then At(p, k, pc, IPutNull) else CodeStmts(p, k, pc, arm.body, |arm.body|, sc, loop))
    && At(p, k, pc + (if arm.body == [] then 1 else SizeStmts(arm.body, |arm.body|, sc, SiteOf(p, k, loop))),
          IJump(end))
  }
}
