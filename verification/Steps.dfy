/**
 One lemma for each instruction: what a step at it does to stack, pc and state
 relation.
 */
module Steps {
  import opened Wrappers
  import opened Ast
  import opened Layout
  import opened Machine
  import opened Binding
  import opened Bytecode
  import opened WellFormed
  import opened Relation
  import Locals
  import Ev = Evaluator

  /** A step that changes only pc and stack. */
  lemma QuietStep(c: Setting, st: Ev.EState, s: State, i: Instr, pc: nat, stack: seq<Value>)
    requires Drives(c) && Ready(c, st, s) && At(c.p, Top(s).unit, s.pc, i)
    requires Top(s).unit < |c.p.sets| ==> Exec(c.p.sets, c.h, s, i) == s.(pc := pc, stack := stack)
    ensures var t := Later(c, s, 1); Arrives(c, st, s, t) && t.pc == pc && t.stack == stack
  {
    hide Exec, Decode, Names;
    One(c, st, s, i);
  }

  /** The instructions that push one value. */
  predicate Pushes(s: State, i: Instr, v: Value)
    requires |s.frames| > 0
  {
    match i
    case IPutNull => v == NilV
    case IPutInt(n) => v == IntV(n)
    case IPutString(t) => v == StrV(t)
    case IPutBool(b) => v == BoolV(b)
    case IPutSelf => v == Top(s).self
    case IHasBlock => v == BoolV(Top(s).block.Some?)
    case IDup => |s.stack| > 0 && v == s.stack[|s.stack| - 1]
    case _ => false
  }

  lemma PushSound(c: Setting, st: Ev.EState, s: State, i: Instr, v: Value)
    requires Drives(c) && Ready(c, st, s) && At(c.p, Top(s).unit, s.pc, i)
    requires Pushes(s, i, v)
    ensures var t := Later(c, s, 1); Arrives(c, st, s, t) && t.pc == s.pc + Len(i) && t.stack == s.stack + [v]
  {
    hide Decode, Names, Invoke, YieldTo, Insert;
    QuietStep(c, st, s, i, s.pc + Len(i), s.stack + [v]);
  }

  lemma PopSound(c: Setting, st: Ev.EState, s: State)
    requires Drives(c) && Ready(c, st, s) && |s.stack| > 0 && At(c.p, Top(s).unit, s.pc, IPop)
    ensures
      var t := Later(c, s, 1);
      Arrives(c, st, s, t) && t.pc == s.pc + 1 && t.stack == s.stack[..|s.stack| - 1]
  {
    hide Decode, Names, Invoke, YieldTo, Insert;
    QuietStep(c, st, s, IPop, s.pc + 1, s.stack[..|s.stack| - 1]);
  }

  lemma JumpSound(c: Setting, st: Ev.EState, s: State, target: int)
    requires Drives(c) && Ready(c, st, s) && target >= 0 && At(c.p, Top(s).unit, s.pc, IJump(target))
    ensures var t := Later(c, s, 1); Arrives(c, st, s, t) && t.pc == target && t.stack == s.stack
  {
    hide Decode, Names, Invoke, YieldTo, Insert;
    QuietStep(c, st, s, IJump(target), target, s.stack);
  }

  /** Both conditional branches: `sense` is the truth that makes the branch fall through. */
  lemma BranchSound(c: Setting, st: Ev.EState, s: State, sense: bool, target: int, base: seq<Value>, v: Value)
    requires Drives(c) && Ready(c, st, s) && target >= 0
    requires At(c.p, Top(s).unit, s.pc, if sense then IBranchUnless(target) else IBranchIf(target))
    requires s.stack == base + [v]
    ensures
      var t := Later(c, s, 1);
      Arrives(c, st, s, t) && t.pc == (if Truthy(v) == sense then s.pc + 2 else target) && t.stack == base
  {
    hide Decode, Names, Invoke, YieldTo, Insert;
    assert s.stack[..|s.stack| - 1] == base;
    QuietStep(c, st, s, if sense then IBranchUnless(target) else IBranchIf(target),
              if Truthy(v) == sense then s.pc + 2 else target, base);
  }

  lemma ArraySound(c: Setting, st: Ev.EState, s: State, base: seq<Value>, vs: seq<Value>)
    requires Drives(c) && Ready(c, st, s) && At(c.p, Top(s).unit, s.pc, INewArray(|vs|)) && s.stack == base + vs
    ensures var t := Later(c, s, 1); Arrives(c, st, s, t) && t.pc == s.pc + 2 && t.stack == base + [ArrV(vs)]
  {
    hide Decode, Names, Invoke, YieldTo, Insert;
    assert s.stack[..|s.stack| - |vs|] == base && s.stack[|s.stack| - |vs|..] == vs;
    QuietStep(c, st, s, INewArray(|vs|), s.pc + 2, base + [ArrV(vs)]);
  }

  /** ExpandArray, on an array and on anything else. */
  lemma ExpandSound(c: Setting, st: Ev.EState, s: State, base: seq<Value>, v: Value, n: nat)
    requires Drives(c) && Ready(c, st, s) && At(c.p, Top(s).unit, s.pc, IExpandArray(n)) && s.stack == base + [v]
    ensures
      var t := Later(c, s, 1);
      if v.ArrV? then Arrives(c, st, s, t) && t.pc == s.pc + 2 && t.stack == base + Expanded(v.elems, n)
      else t.status == Raised(TypeError) && t.world == st.world
  {
    hide Decode, Names, Invoke, YieldTo, Insert;
    assert s.stack[..|s.stack| - 1] == base;
    if v.ArrV? {
      QuietStep(c, st, s, IExpandArray(n), s.pc + 2, base + Expanded(v.elems, n));
    } else {
      One(c, st, s, IExpandArray(n));
    }
  }

  /** Leave, and the end it brings. */
  lemma LeaveSound(c: Setting, st: Ev.EState, s: State)
    requires Drives(c) && Ready(c, st, s) && At(c.p, Top(s).unit, s.pc, ILeave)
    ensures var t := Later(c, s, 1); Arrives(c, st, s, t) && AtEnd(c.p.sets, t) && t.stack == s.stack
  {
    hide Decode, Names, Invoke, YieldTo, Insert;
    One(c, st, s, ILeave);
    QuietStep(c, st, s, ILeave, |c.p.sets[Top(s).unit].code|, s.stack);
  }

  /** DefMethod behind PutSelf: the definition is recorded under the class of self. */
  lemma DefineSound(c: Setting, st: Ev.EState, s: State, name: Name, params: seq<Param>, body: seq<Stmt>, unit: nat,
                    base: seq<Value>, self: Value)
    requires Drives(c) && Ready(c, st, s) && At(c.p, Top(s).unit, s.pc, IDefMethod(|params|, name, Some(unit)))
    requires s.stack == base + [self] && unit < |c.p.units| && c.p.units[unit] == MethodSource(params, body)
    ensures
      var t := Later(c, s, 1);
      && Arrives(c, st.(defs := st.defs[(c.h.classOf(self), name) := Ev.MethodDef(params, body)]), s, t)
      && t.pc == s.pc + 4 && t.stack == base
  {
    hide Decode, Names, Invoke, YieldTo, Insert, EnvOk, LinkedAt;
    One(c, st, s, IDefMethod(|params|, name, Some(unit)));
    assert s.stack[..|s.stack| - 1] == base;
  }

  /** SetOptional at depth 0: the parameter is set if the call left it unset. */
  lemma OptionalSound(c: Setting, st: Ev.EState, s: State, i: nat, x: Name, base: seq<Value>, v: Value)
    requires Drives(c) && Ready(c, st, s) && At(c.p, Top(s).unit, s.pc, ISetOptional(0, i)) && s.stack == base + [v]
    requires Top(s).unit < |c.p.units| && i < |Names(c.p.units[Top(s).unit])| && Names(c.p.units[Top(s).unit])[i] == x
    ensures
      var r := Ev.Unset(x, Ev.Val(v, st));
      var t := Later(c, s, 1);
      r.Done? && Arrives(c, r.st, s, t) && t.pc == s.pc + 3 && t.stack == base
  {
    hide Decode, Names, Invoke, YieldTo;
    var top := |s.frames| - 1;
    One(c, st, s, ISetOptional(0, i));
    assert EnvOk(c.p, st.envs[top], s.frames[top]);
    assert s.stack[..|s.stack| - 1] == base;
    assert Climb(s.frames, top, 0) == Some(top);
    if Slot(s.frames[top].locals, i).None? {
      Locals.SetAgrees(c.p, st, s, top, i, v);
    }
  }
}
