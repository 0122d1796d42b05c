/**
 What one instruction does, by kinds of instruction.
 */
module Executions {
  import opened Wrappers
  import opened Ast
  import opened Bytecode
  import opened Binding
  import opened Machine

  /** The value an instruction pushes in the given frame. */
  function Pushed(f: Frame, i: Instr): Option<Value> {
    match i
    case IPutBool(b) => Some(BoolV(b))
    case IPutString(t) => Some(StrV(t))
    case IPutSelf => Some(f.self)
    case IPutInt(n) => Some(IntV(n))
    case IPutNull => Some(NilV)
    case IHasBlock => Some(BoolV(f.block.Some?))
    case _ => None
  }

  lemma ExecPush(p: seq<InstructionSet>, h: Host, u: State, i: Instr, v: Value)
    requires |u.frames| > 0 && u.frames[|u.frames| - 1].unit < |p| && Pushed(u.frames[|u.frames| - 1], i) == Some(v)
    ensures Exec(p, h, u, i) == u.(pc := u.pc + Len(i), stack := u.stack + [v])
  {
    hide Invoke, YieldTo, Insert, Climb, Fill;
  }

  /** The instructions that take one value off. */
  lemma ExecPop(p: seq<InstructionSet>, h: Host, u: State, below: seq<Value>, v: Value)
    requires |u.frames| > 0 && u.frames[|u.frames| - 1].unit < |p| && u.stack == below + [v]
    ensures Exec(p, h, u, IPop) == u.(pc := u.pc + 1, stack := below)
    ensures forall target: int {:trigger IBranchUnless(target)} ::
              Exec(p, h, u, IBranchUnless(target))
              == if Truthy(v) then u.(pc := u.pc + 2, stack := below) else Goto(u.(stack := below), target)
    ensures forall target: int {:trigger IBranchIf(target)} ::
              Exec(p, h, u, IBranchIf(target))
              == if Truthy(v) then Goto(u.(stack := below), target) else u.(pc := u.pc + 2, stack := below)
    ensures forall argc: int, name: Name, m: nat {:trigger IDefMethod(argc, name, Some(m))} ::
              Exec(p, h, u, IDefMethod(argc, name, Some(m)))
              == u.(pc := u.pc + 4, stack := below, defs := u.defs[(h.classOf(v), name) := m])
  {
    hide Invoke, YieldTo, Insert, Climb, Fill, Truthy, Goto;
    assert u.stack[..|u.stack| - 1] == below;
  }

  /** What cannot go on. */
  predicate Stops(u: State, i: Instr) {
    match i
    case IPop => u.stack == []
    case IDup => u.stack == []
    case IBranchUnless(_) => u.stack == []
    case IBranchIf(_) => u.stack == []
    case IDefMethod(_, _, unit) => u.stack == [] || unit.None?
    case INewArray(n) => n < 0 || n > |u.stack|
    case IExpandArray(n) => n < 0 || u.stack == []
    case IGetLocal(depth, index) => depth < 0 || index < 0
    case ISetLocal(depth, index) => depth < 0 || index < 0 || u.stack == []
    case ISetOptional(depth, index) => depth < 0 || index < 0 || u.stack == []
    case IOther => true
    case IMalformed => true
    case _ => false
  }

  lemma ExecStops(p: seq<InstructionSet>, h: Host, u: State, i: Instr)
    requires |u.frames| > 0 && u.frames[|u.frames| - 1].unit < |p| && Stops(u, i)
    ensures Exec(p, h, u, i) == Stop(u)
  {
    hide Invoke, YieldTo, Insert, Climb, Fill;
  }

  lemma ExecStay(p: seq<InstructionSet>, h: Host, u: State)
    requires |u.frames| > 0 && u.frames[|u.frames| - 1].unit < |p|
    ensures Exec(p, h, u, INoOp) == u.(pc := u.pc + 1)
    ensures u.stack != [] ==> Exec(p, h, u, IDup) == u.(pc := u.pc + 1, stack := u.stack + [u.stack[|u.stack| - 1]])
    ensures Exec(p, h, u, ILeave) == u.(pc := |p[u.frames[|u.frames| - 1].unit].code|)
    ensures u.frames[|u.frames| - 1].ep.None? ==> Exec(p, h, u, IBreak) == u.(pc := u.pc + 1)
    ensures forall target: int {:trigger IJump(target)} :: Exec(p, h, u, IJump(target)) == Goto(u, target)
  {
    hide Invoke, YieldTo, Insert, Climb, Fill, Goto;
  }

  lemma ExecArray(p: seq<InstructionSet>, h: Host, u: State, below: seq<Value>, elems: seq<Value>)
    requires |u.frames| > 0 && u.frames[|u.frames| - 1].unit < |p| && u.stack == below + elems
    ensures Exec(p, h, u, INewArray(|elems|)) == u.(pc := u.pc + 2, stack := below + [ArrV(elems)])
  {
    hide Invoke, YieldTo, Insert, Climb, Fill;
    assert u.stack[..|u.stack| - |elems|] == below && u.stack[|u.stack| - |elems|..] == elems;
  }

  lemma ExecExpand(p: seq<InstructionSet>, h: Host, u: State, below: seq<Value>, v: Value, n: nat)
    requires |u.frames| > 0 && u.frames[|u.frames| - 1].unit < |p| && u.stack == below + [v]
    ensures Exec(p, h, u, IExpandArray(n))
            == if v.ArrV? then u.(pc := u.pc + 2, stack := below + Expanded(v.elems, n))
              else u.(status := Raised(TypeError))
  {
    hide Invoke, YieldTo, Insert, Climb, Fill, Expanded;
    assert u.stack[..|u.stack| - 1] == below;
  }

  lemma ExecArithmetic(p: seq<InstructionSet>, h: Host, u: State, below: seq<Value>, l: int, r: int, i: Instr)
    requires |u.frames| > 0 && u.frames[|u.frames| - 1].unit < |p| && u.stack == below + [IntV(l), IntV(r)] && i.IArith?
    ensures Exec(p, h, u, i) == u.(pc := u.pc + 2, stack := below + [Arithmetic(i.op, l, r)])
  {
    hide Invoke, YieldTo, Insert, Climb, Fill, Arithmetic;
    assert u.stack[..|u.stack| - 2] == below;
  }

  lemma ExecLocal(p: seq<InstructionSet>, h: Host, u: State, depth: nat, index: nat)
    requires |u.frames| > 0 && u.frames[|u.frames| - 1].unit < |p|
    ensures
      var at := Climb(u.frames, |u.frames| - 1, depth);
      Exec(p, h, u, IGetLocal(depth, index))
      == if at.None? then Stop(u)
         else
           var slot := Slot(u.frames[at.value].locals, index);
           u.(pc := u.pc + 3, stack := u.stack + [if slot.Some? then slot.value else NilV])
  {
    hide Invoke, YieldTo, Insert, Climb, Fill, Slot;
  }

  lemma ExecSetLocal(p: seq<InstructionSet>, h: Host, u: State, depth: nat, index: nat, below: seq<Value>, v: Value)
    requires |u.frames| > 0 && u.frames[|u.frames| - 1].unit < |p| && u.stack == below + [v]
    ensures
      var set_ := Insert(u.frames, index, depth, v);
      Exec(p, h, u, ISetLocal(depth, index)) == if set_.None? then Stop(u) else u.(pc := u.pc + 3, frames := set_.value)
    ensures
      var at, set_ := Climb(u.frames, |u.frames| - 1, depth), Insert(u.frames, index, depth, v);
      && (set_.Some? <==> at.Some?)
      && Exec(p, h, u, ISetOptional(depth, index))
         == if at.None? then Stop(u)
            else u.(pc := u.pc + 3, stack := below,
                    frames := if Slot(u.frames[at.value].locals, index).Some? then u.frames else set_.value)
  {
    hide Invoke, YieldTo, Climb, Fill, Slot;
    assert u.stack[..|u.stack| - 1] == below;
  }
}
