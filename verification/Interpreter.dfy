/**
 The interpreter loop (execFrame in vm/instruction.go) with the nested calls of
 vm/thread.go: each called frame is run by a loop of its own, inside the one of
 its caller.  It takes exactly the machine's steps.  A budget of instructions
 stands in for running on without end.
 */
module Interpreters {
  import opened Wrappers
  import opened Ast
  import opened Bytecode
  import opened Binding
  import opened Machine
  import Relation
  import CallObjects
  import Correctness

  class Interpreter {
    const sets: seq<InstructionSet>
    const host: Host
    var stack: seq<Value>
    var frames: seq<Frame>                // the call frame stack; the last one runs
    var pc: nat
    var defs: map<MethodKey, nat>
    var world: World
    var status: Status

    ghost function Now(): State
      reads this
    {
      State(pc, stack, frames, defs, world, status)
    }

    /** ExecInstructions: a frame for the program's set. */
    constructor (sets: seq<InstructionSet>, host: Host, main: nat, self: Value, world: World)
      ensures this.sets == sets && this.host == host && Now() == Correctness.Initial(main, self, world)
    {
      this.sets, this.host := sets, host;
      stack, frames, pc, defs, this.world, status := [], [Frame(main, [], self, None, None, 0, 0)], 0, map[], world,
        Running;
    }

    // ------------------------------------------------------------ the stack

    method Push(v: Value)
      modifies `stack
      ensures stack == old(stack) + [v]
    {
      stack := stack + [v];
    }

    method Pop() returns (v: Value)
      requires |stack| > 0
      modifies `stack
      ensures old(stack) == stack + [v]
    {
      v := stack[|stack| - 1];
      stack := stack[..|stack| - 1];
    }

    /** A Go runtime panic, or an instruction outside the modelled fragment. */
    method Panic()
      modifies `status
      ensures Now() == Stop(old(Now()))
    {
      status := Stuck;
    }

    // --------------------------------------------------------------- locals

    /** getLocal's loop: depth times the frame the block stands in. */
    method FrameAt(depth: nat) returns (j: Option<nat>)
      requires |frames| > 0
      ensures j == Climb(frames, |frames| - 1, depth)
    {
      var lcf: nat, d: nat := |frames| - 1, depth;
      while d > 0
        invariant lcf < |frames| && Climb(frames, |frames| - 1, depth) == Climb(frames, lcf, d)
      {
        var ep := frames[lcf].ep;
        if ep.None? || ep.value >= |frames| { return None; }
        lcf, d := ep.value, d - 1;
      }
      j := Some(lcf);
    }

    method InsertLocal(index: nat, depth: nat, v: Value) returns (ok: bool)
      requires |frames| > 0
      modifies `frames
      ensures ok == Insert(old(frames), index, depth, v).Some?
      ensures frames == if ok then Insert(old(frames), index, depth, v).value else old(frames)
    {
      var j := FrameAt(depth);
      if j.None? { return false; }
      var at := if Slot(frames[j.value].locals, index).Some? then j.value else |frames| - 1;
      var locals := frames[at].locals;
      while index >= |locals|
        invariant |frames[at].locals| <= |locals|
        invariant |locals| > |frames[at].locals| ==> |locals| <= index + 1
        invariant locals == frames[at].locals + seq(|locals| - |frames[at].locals|, _ => None)
        decreases index - |locals|
      {
        locals := locals + [None];
      }
      locals := locals[index := Some(v)];
      assert locals == Fill(frames[at].locals, index, v);
      frames := frames[at := frames[at].(locals := locals)];
      ok := true;
    }

    // --------------------------------------------------------- instructions

    ghost predicate InCode()
      reads this
    {
      && status == Running && |frames| > 0 && frames[|frames| - 1].unit < |sets|
      && pc < |sets[frames[|frames| - 1].unit].code|
    }

    function Set(): InstructionSet
      requires |frames| > 0 && frames[|frames| - 1].unit < |sets|
      reads this
    {
      sets[frames[|frames| - 1].unit]
    }

    /** The instruction at pc is complete and has the opcode op. */
    ghost predicate Fetched(op: int)
      reads this
    {
      InCode() && IsOpcode(op) && Set().code[pc] == op && pc + ParamCount(op) < |Set().code|
    }

    ghost function Due(): State
      requires InCode()
      reads this
    {
      Exec(sets, host, Now(), Decode(Set(), pc))
    }

    method PushInstruction(op: int)
      requires Fetched(op) && op in {PUT_TRUE, PUT_FALSE, PUT_STRING, PUT_SELF, PUT_INT, PUT_NULL, HAS_BLOCK}
      modifies this
      ensures Now() == old(Due())
    {
      var v := NilV;
      if op == PUT_TRUE {
        v := BoolV(true);
      } else if op == PUT_FALSE {
        v := BoolV(false);
      } else if op == PUT_STRING {
        if !InPool(Set(), pc + 1) { Panic(); return; }
        v := StrV(StringAt(Set(), pc + 1));
      } else if op == PUT_SELF {
        v := frames[|frames| - 1].self;
      } else if op == PUT_INT {
        v := IntV(Set().code[pc + 1]);
      } else if op == HAS_BLOCK {
        v := BoolV(frames[|frames| - 1].block.Some?);
      }
      Push(v);
      pc := pc + 1 + ParamCount(op);
    }

    method StackInstruction(op: int)
      requires Fetched(op) && op in {POP, DUP, NO_OP}
      modifies this
      ensures Now() == old(Due())
    {
      if op != NO_OP && |stack| == 0 { Panic(); return; }
      if op == POP {
        var _ := Pop();
      } else if op == DUP {
        Push(stack[|stack| - 1]);
      }
      pc := pc + 1;
    }

    method GetLocalInstruction()
      requires Fetched(GET_LOCAL)
      modifies this
      ensures Now() == old(Due())
    {
      var depth, index := Set().code[pc + 1], Set().code[pc + 2];
      if depth < 0 || index < 0 { Panic(); return; }
      var j := FrameAt(depth);
      if j.None? { Panic(); return; }
      var slot := Slot(frames[j.value].locals, index);
      Push(if slot.Some? then slot.value else NilV);
      pc := pc + 3;
    }

    method SetLocalInstruction()
      requires Fetched(SET_LOCAL)
      modifies this
      ensures Now() == old(Due())
    {
      var depth, index := Set().code[pc + 1], Set().code[pc + 2];
      if depth < 0 || index < 0 || |stack| == 0 { Panic(); return; }
      var ok := InsertLocal(index, depth, stack[|stack| - 1]);
      if !ok { Panic(); return; }
      pc := pc + 3;
    }

    /** A slot that is set already keeps its value. */
    method SetOptionalInstruction()
      requires Fetched(SET_OPTIONAL)
      modifies this
      ensures Now() == old(Due())
    {
      var depth, index := Set().code[pc + 1], Set().code[pc + 2];
      if depth < 0 || index < 0 || |stack| == 0 { Panic(); return; }
      var j := FrameAt(depth);
      if j.None? { Panic(); return; }
      var slot := Slot(frames[j.value].locals, index);
      var v := Pop();
      if slot.None? {
        var _ := InsertLocal(index, depth, v);
      }
      pc := pc + 3;
    }

    method NewArrayInstruction()
      requires Fetched(NEW_ARRAY)
      modifies this
      ensures Now() == old(Due())
    {
      var argCount := Set().code[pc + 1];
      if argCount < 0 || argCount > |stack| { Panic(); return; }
      ghost var n := |stack| - argCount;
      var elems: seq<Value> := [];
      for i := argCount downto 0
        invariant |stack| == n + i && stack == old(stack)[..n + i] && elems == old(stack)[n + i..]
        invariant Now() == old(Now()).(stack := stack)
      {
        var v := Pop();
        elems := [v] + elems;
      }
      Push(ArrV(elems));
      pc := pc + 2;
    }

    method ExpandArrayInstruction()
      requires Fetched(EXPAND_ARRAY)
      modifies this
      ensures Now() == old(Due())
    {
      var arrLength := Set().code[pc + 1];
      if arrLength < 0 || |stack| == 0 { Panic(); return; }
      if !stack[|stack| - 1].ArrV? { status := Raised(TypeError); return; }
      var arr := Pop();
      var elems: seq<Value> := [];
      for i := 0 to arrLength
        invariant elems == Expanded(arr.elems, i)
      {
        elems := [if i < |arr.elems| then arr.elems[i] else NilV] + elems;
      }
      ghost var base := stack;
      for i := 0 to |elems|
        invariant stack == base + elems[..i] && Now() == old(Now()).(stack := stack)
      {
        Push(elems[i]);
      }
      assert elems[..|elems|] == elems;
      pc := pc + 2;
    }

    method BranchInstruction(op: int)
      requires Fetched(op) && op in {BRANCH_UNLESS, BRANCH_IF}
      modifies this
      ensures Now() == old(Due())
    {
      if |stack| == 0 { Panic(); return; }
      var target := Set().code[pc + 1];
      var v := Pop();
      if Truthy(v) == (op == BRANCH_IF) {
        if target < 0 { Panic(); return; }
        pc := target;
      } else {
        pc := pc + 2;
      }
    }

    method JumpInstruction(op: int)
      requires Fetched(op) && op in {JUMP, BREAK, LEAVE}
      modifies this
      ensures Now() == old(Due())
    {
      if op == JUMP {
        if Set().code[pc + 1] < 0 { Panic(); return; }
        pc := Set().code[pc + 1];
      } else if op == LEAVE || frames[|frames| - 1].ep.Some? {
        pc := |Set().code|;
      } else {
        pc := pc + 1;
      }
    }

    method DefMethodInstruction()
      requires Fetched(DEF_METHOD)
      modifies this
      ensures Now() == old(Due())
    {
      if !InPool(Set(), pc + 2) || !InPool(Set(), pc + 3) || |stack| == 0 { Panic(); return; }
      var name, unit := NameAt(Set(), pc + 2), SetAt(Set(), pc + 3);
      if unit.None? { Panic(); return; }
      var self := Pop();
      defs := defs[(host.classOf(self), name) := unit.value];
      pc := pc + 4;
    }

    /** The integer instructions on two integers. */
    method IntegerInstruction(op: int)
      requires Fetched(op) && IsArithmetic(op) && InPool(Set(), pc + 1)
      requires |stack| >= 2 && stack[|stack| - 2].IntV? && stack[|stack| - 1].IntV?
      modifies this
      ensures Now() == old(Due())
    {
      var r := Pop();
      var l := Pop();
      var v := if op == ADD then IntV(Wrap64(l.n + r.n))
               else if op == SUBTRACT then IntV(Wrap64(l.n - r.n))
               else if op == LESS then BoolV(l.n < r.n)
               else if op == GREATER then BoolV(l.n > r.n)
               else if op == LESS_EQUAL then BoolV(l.n <= r.n)
               else BoolV(l.n >= r.n);
      Push(v);
      pc := pc + 2;
    }

    /** Every instruction but calls. */
    method PlainInstruction(op: int)
      requires Fetched(op) && !IsCall(op)
      requires IsArithmetic(op) ==>
        InPool(Set(), pc + 1) && |stack| >= 2 && stack[|stack| - 2].IntV? && stack[|stack| - 1].IntV?
      modifies this
      ensures Now() == old(Due())
    {
      hide Exec, Decode;
      if op in {PUT_TRUE, PUT_FALSE, PUT_STRING, PUT_SELF, PUT_INT, PUT_NULL, HAS_BLOCK} {
        PushInstruction(op);
      } else if op in {POP, DUP, NO_OP} {
        StackInstruction(op);
      } else if op == GET_LOCAL {
        GetLocalInstruction();
      } else if op == SET_LOCAL {
        SetLocalInstruction();
      } else if op == SET_OPTIONAL {
        SetOptionalInstruction();
      } else if op == NEW_ARRAY {
        NewArrayInstruction();
      } else if op == EXPAND_ARRAY {
        ExpandArrayInstruction();
      } else if op in {BRANCH_UNLESS, BRANCH_IF} {
        BranchInstruction(op);
      } else if op in {JUMP, BREAK, LEAVE} {
        JumpInstruction(op);
      } else if op == DEF_METHOD {
        DefMethodInstruction();
      } else if IsArithmetic(op) {
        IntegerInstruction(op);
      } else {
        OtherOpcode(sets, host, Now(), op);
        Panic();
      }
    }

    // ---------------------------------------------------------------- calls

    /** evaluateNormalFrame, and the caller's part after it: the frame is pushed, run and
        popped, and the value on top goes to the frame's result slot. */
    method EvaluateNormalFrame(f: Frame, fuel: nat) returns (done: bool, left: nat, ghost n: nat)
      requires status == Running && |frames| > 0
      modifies this
      ensures Now() == Run(sets, host, Enter(old(Now()), f), n)
      ensures left <= fuel <= n + left && (!done ==> left == 0 && InCode())
      ensures done && status == Running ==> pc == f.ret && Relation.SameFrames(old(frames), frames)
      decreases fuel, 1
    {
      hide Run, Step, Exec, AtEnd;
      ghost var entered := Enter(Now(), f);
      frames, pc := frames + [f], 0;
      done, left, n := ExecFrame(fuel);
      if !done || status != Running { return; }
      FrameEnds(sets, host, entered, n, old(frames), f);
      n := n + 1;
      if f.base >= |stack| { Panic(); return; }
      stack := stack[..f.base] + [stack[|stack| - 1]];
      frames := frames[..|frames| - 1];
      pc := f.ret;
    }

    /** execFrame: instructions until the frame's code is at its end. */
    method ExecFrame(fuel: nat) returns (done: bool, left: nat, ghost n: nat)
      requires status == Running && |frames| > 0
      modifies this
      ensures Now() == Run(sets, host, old(Now()), n)
      ensures left <= fuel <= n + left && (!done ==> left == 0 && InCode())
      ensures done && status == Running ==> AtEnd(sets, Now()) && Relation.SameFrames(old(frames), frames)
      decreases fuel, 0
    {
      hide Run, Step, Exec;
      done, left, n := true, fuel, 0;
      RunNothing(sets, host, Now());
      while true
        invariant done && status == Running && Relation.SameFrames(old(frames), frames)
        invariant Now() == Run(sets, host, old(Now()), n) && left <= fuel <= n + left
        decreases left
      {
        if frames[|frames| - 1].unit >= |sets| {
          NoSuchUnit(sets, host, Now());
          RunNext(sets, host, old(Now()), n);
          Panic();
          n := n + 1;
          return;
        }
        if pc >= |Set().code| { return; }
        if left == 0 { done := false; return; }
        ghost var m;
        ghost var before := Now();
        done, left, m := Instruction(left - 1);
        RunSplit(sets, host, old(Now()), n, m);
        n := n + m;
        if !done || status != Running { return; }
      }
    }

    /** One turn of the loop, with everything a call in it runs. */
    method Instruction(fuel: nat) returns (done: bool, left: nat, ghost n: nat)
      requires InCode()
      modifies this
      ensures Now() == Run(sets, host, old(Now()), n)
      ensures left <= fuel < n + left && (!done ==> left == 0 && InCode())
      ensures done && status == Running ==> Relation.SameFrames(old(frames), frames)
      decreases fuel, 4
    {
      hide Exec, Run, Step, Decode;
      var op := Set().code[pc];
      done, left, n := true, fuel, 1;
      StepInCode(sets, host, Now());
      RunOnce(sets, host, Now());
      if !IsOpcode(op) || pc + ParamCount(op) >= |Set().code| {
        Malformed(sets, host, Now());
        Panic();
      } else if IsCall(op) || (IsArithmetic(op) && !TwoIntegers(stack)) {
        ghost var m;
        ghost var first := Due();
        done, left, m := CallInstruction(op, fuel);
        RunSplit(sets, host, old(Now()), 1, m);
        n := m + 1;
      } else if IsArithmetic(op) && !InPool(Set(), pc + 1) {
        BadOperand(sets, host, Now());
        Panic();
      } else {
        PlainFrames(sets, host, Now(), op);
        PlainInstruction(op);
      }
    }

    method CallInstruction(op: int, fuel: nat) returns (done: bool, left: nat, ghost n: nat)
      requires Fetched(op) && (IsCall(op) || (IsArithmetic(op) && !TwoIntegers(stack)))
      modifies this
      ensures Now() == Run(sets, host, old(Due()), n)
      ensures left <= fuel <= n + left && (!done ==> left == 0 && InCode())
      ensures done && status == Running ==> Relation.SameFrames(old(frames), frames)
      decreases fuel, 3
    {
      hide Run, Step, Invoke, YieldTo;
      done, left, n := true, fuel, 0;
      RunNothing(sets, host, Stop(Now()));
      if op == SEND {
        if !InPool(Set(), pc + 1) || !InPool(Set(), pc + 3) || !InPool(Set(), pc + 4) || Set().code[pc + 2] < 0 {
          Panic();
          return;
        }
        var blockIS := SetAt(Set(), pc + 3);
        var block := if blockIS.Some? then Some(BlockRef(blockIS.value, |frames| - 1)) else None;
        done, left, n :=
          FindAndExecute(pc + 5, NameAt(Set(), pc + 1), Set().code[pc + 2], ArgsAt(Set(), pc + 4), block, fuel);
      } else if op == INVOKE_BLOCK {
        if Set().code[pc + 1] < 0 { Panic(); return; }
        done, left, n := InvokeBlock(pc + 2, Set().code[pc + 1], fuel);
      } else {
        if !InPool(Set(), pc + 1) { Panic(); return; }
        done, left, n := FindAndExecute(pc + 2, NameAt(Set(), pc + 1), 1, None, None, fuel);
      }
    }

    /** FindAndExecute, evalBuiltinMethod and evalMethodCall. */
    method FindAndExecute(next: nat, name: Name, argCount: nat, given: Option<ArgSet>, block: Option<BlockRef>,
                          fuel: nat)
      returns (done: bool, left: nat, ghost n: nat)
      requires status == Running && |frames| > 0
      modifies this
      ensures Now() == Run(sets, host, Invoke(sets, host, old(Now()), next, name, argCount, given, block), n)
      ensures left <= fuel <= n + left && (!done ==> left == 0 && InCode())
      ensures done && status == Running ==> pc == next && Relation.SameFrames(old(frames), frames)
      decreases fuel, 2
    {
      hide Run, Step, Exec;
      done, left, n := true, fuel, 0;
      RunNothing(sets, host, Invoke(sets, host, Now(), next, name, argCount, given, block));
      if |stack| <= argCount { Panic(); return; }
      var receiverPtr := |stack| - argCount - 1;
      var receiver, args := stack[receiverPtr], stack[receiverPtr + 1..];
      match host.find(defs.Keys, receiver, name) {
        case Missing =>
          status := Raised(NoMethodError);
        case Builtin =>
          if block.Some? { Panic(); return; }
          var (w, reply) := host.builtin(world, receiver, name, args);
          world := w;
          match reply {
            case Fails(e) => status := Raised(e);
            case Got(v) =>
              stack := stack[..receiverPtr] + [v];
              pc := next;
          }
        case Defined(class_) =>
          if (class_, name) !in defs || defs[(class_, name)] >= |sets| { Panic(); return; }
          var unit := defs[(class_, name)];
          var params := sets[unit].params;
          if !WellSized(params) || !Matches(given, args) { Panic(); return; }
          var c := new CallObjects.CallObject(params, given, receiverPtr, argCount);
          assert c.Args(stack) == args;
          var bound := c.BindArguments(stack);
          match bound {
            case Err(e) => status := Raised(e);
            case Ok(locals) =>
              done, left, n := EvaluateNormalFrame(Frame(unit, locals, receiver, None, block, receiverPtr, next), fuel);
          }
      }
    }

    /** InvokeBlock: in a block, the block of the frame it was written in. */
    method InvokeBlock(next: nat, argCount: nat, fuel: nat) returns (done: bool, left: nat, ghost n: nat)
      requires status == Running && |frames| > 0
      modifies this
      ensures Now() == Run(sets, host, YieldTo(old(Now()), next, argCount), n)
      ensures left <= fuel <= n + left && (!done ==> left == 0 && InCode())
      ensures done && status == Running ==> pc == next && Relation.SameFrames(old(frames), frames)
      decreases fuel, 2
    {
      hide Run, Step, Exec;
      done, left, n := true, fuel, 0;
      RunNothing(sets, host, YieldTo(Now(), next, argCount));
      if |stack| <= argCount { Panic(); return; }
      var cf := frames[|frames| - 1];
      if cf.block.None? { status := Raised(InternalError); return; }
      var blockFrame := cf.block;
      if cf.ep == Some(cf.block.value.ep) && cf.block.value.ep < |frames| {
        blockFrame := frames[cf.block.value.ep].block;
      }
      if blockFrame.None? { status := Raised(InternalError); return; }
      var b := blockFrame.value;
      var receiverPtr := |stack| - argCount - 1;
      var args := stack[receiverPtr + 1..];
      var locals := seq(|args|, i requires 0 <= i < |args| => Some(args[i]));
      done, left, n :=
        EvaluateNormalFrame(Frame(b.unit, locals, stack[receiverPtr], Some(b.ep), Some(b), receiverPtr, next), fuel);
    }

    /** Runs a new interpreter's program: it comes to the state the machine comes to. */
    method Execute(fuel: nat) returns (done: bool, ghost n: nat)
      requires status == Running && |frames| == 1
      modifies this
      ensures Now() == Run(sets, host, old(Now()), n)
      ensures if done then Halted(sets, Now()) else n >= fuel && !Halted(sets, Now())
    {
      hide Run, Step, Exec;
      var left;
      done, left, n := ExecFrame(fuel);
    }
  }

  predicate IsCall(op: int) {
    op == SEND || op == BINARY_OPERATOR || op == INVOKE_BLOCK
  }

  predicate TwoIntegers(stack: seq<Value>) {
    |stack| >= 2 && stack[|stack| - 2].IntV? && stack[|stack| - 1].IntV?
  }

  lemma OtherOpcode(p: seq<InstructionSet>, h: Host, s: State, op: int)
    requires |s.frames| > 0 && s.frames[|s.frames| - 1].unit < |p|
    requires var ins := p[s.frames[|s.frames| - 1].unit]; s.pc < |ins.code| && ins.code[s.pc] == op && IsOpcode(op)
    requires !IsCall(op) && !IsArithmetic(op)
    requires op !in {PUT_TRUE, PUT_FALSE, PUT_STRING, PUT_SELF, PUT_INT, PUT_NULL, HAS_BLOCK, POP, DUP, NO_OP}
    requires op !in {GET_LOCAL, SET_LOCAL, SET_OPTIONAL, NEW_ARRAY, EXPAND_ARRAY, BRANCH_UNLESS, BRANCH_IF, JUMP, BREAK,
        LEAVE, DEF_METHOD}
    ensures Exec(p, h, s, Decode(p[s.frames[|s.frames| - 1].unit], s.pc)) == Stop(s)
  {
  }

  lemma RunNext(p: seq<InstructionSet>, h: Host, s: State, n: nat)
    ensures Run(p, h, s, n + 1) == Step(p, h, Run(p, h, s, n))
  {
    RunSplit(p, h, s, n, 1);
    RunOnce(p, h, Run(p, h, s, n));
  }

  lemma NoSuchUnit(p: seq<InstructionSet>, h: Host, s: State)
    requires s.status == Running && |s.frames| > 0 && s.frames[|s.frames| - 1].unit >= |p|
    ensures Step(p, h, s) == Stop(s)
  {
  }

  lemma StepInCode(p: seq<InstructionSet>, h: Host, s: State)
    requires s.status == Running && |s.frames| > 0 && s.frames[|s.frames| - 1].unit < |p|
    requires s.pc < |p[s.frames[|s.frames| - 1].unit].code|
    ensures Step(p, h, s) == Exec(p, h, s, Decode(p[s.frames[|s.frames| - 1].unit], s.pc))
  {
    hide Exec, Decode;
  }

  /** The step at a called frame's end. */
  lemma FrameEnds(p: seq<InstructionSet>, h: Host, s: State, n: nat, frames: seq<Frame>, f: Frame)
    requires var t := Run(p, h, s, n);
             t.status == Running && AtEnd(p, t) && |frames| > 0 && Relation.SameFrames(frames + [f], t.frames)
    ensures var t := Run(p, h, s, n);
            && t.frames[|frames|].base == f.base && t.frames[|frames|].ret == f.ret
            && Relation.SameFrames(frames, t.frames[..|frames|])
            && Run(p, h, s, n + 1) == Leaving(t)
  {
    hide Exec, Decode, Run;
    RunNext(p, h, s, n);
    var t := Run(p, h, s, n);
    assert t.frames[|frames|] == f.(locals := t.frames[|frames|].locals);
  }

  lemma Malformed(p: seq<InstructionSet>, h: Host, s: State)
    requires |s.frames| > 0 && s.frames[|s.frames| - 1].unit < |p|
    requires var ins := p[s.frames[|s.frames| - 1].unit];
             s.pc < |ins.code| && (!IsOpcode(ins.code[s.pc]) || s.pc + ParamCount(ins.code[s.pc]) >= |ins.code|)
    ensures Exec(p, h, s, Decode(p[s.frames[|s.frames| - 1].unit], s.pc)) == Stop(s)
  {
  }

  lemma BadOperand(p: seq<InstructionSet>, h: Host, s: State)
    requires |s.frames| > 0 && s.frames[|s.frames| - 1].unit < |p|
    requires var ins := p[s.frames[|s.frames| - 1].unit];
             s.pc + 1 < |ins.code| && IsArithmetic(ins.code[s.pc]) && !InPool(ins, s.pc + 1)
    ensures Exec(p, h, s, Decode(p[s.frames[|s.frames| - 1].unit], s.pc)) == Stop(s)
  {
  }

  /** Instructions that call nothing leave the frames but for a local. */
  lemma PlainFrames(p: seq<InstructionSet>, h: Host, s: State, op: int)
    requires |s.frames| > 0 && s.frames[|s.frames| - 1].unit < |p|
    requires var ins := p[s.frames[|s.frames| - 1].unit];
             s.pc < |ins.code| && ins.code[s.pc] == op && !IsCall(op) && (IsArithmetic(op) ==> TwoIntegers(s.stack))
    ensures Relation.SameFrames(s.frames, Exec(p, h, s, Decode(p[s.frames[|s.frames| - 1].unit], s.pc)).frames)
  {
    hide Exec, Relation.SameFrames;
    DecodedPlain(p[s.frames[|s.frames| - 1].unit], s.pc);
    PlainExecFrames(p, h, s, Decode(p[s.frames[|s.frames| - 1].unit], s.pc));
  }

  lemma DecodedPlain(ins: InstructionSet, pc: nat)
    requires pc < |ins.code| && !IsCall(ins.code[pc])
    ensures
      var i := Decode(ins, pc);
      && !i.ISend? && !i.IBinary? && !i.IInvokeBlock? && (i.IArith? ==> IsArithmetic(ins.code[pc]))
  {
  }

  lemma PlainExecFrames(p: seq<InstructionSet>, h: Host, s: State, i: Instr)
    requires |s.frames| > 0 && s.frames[|s.frames| - 1].unit < |p|
    requires !i.ISend? && !i.IBinary? && !i.IInvokeBlock? && (i.IArith? ==> TwoIntegers(s.stack))
    ensures Relation.SameFrames(s.frames, Exec(p, h, s, i).frames)
  {
    hide Climb, Fill, Slot, Expanded;
  }
}
