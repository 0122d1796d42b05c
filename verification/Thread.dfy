/**
 The thread (vm/thread.go and the frame loop of vm/instruction.go) with frames
 as objects: compiled code with its loops, locals, calls and yields, builtins
 that call blocks, `break` and deferred blocks.  The code is any code.  What it
 may not do is reach below its frame's part of the stack; `tidy` says whether it
 has kept to that.
 */
module Threads {
  import opened Wrappers
  import opened Ast
  import opened Bytecode
  import opened Binding
  import opened Machine
  import opened Stacks
  import opened CallFrames
  import opened Events
  import opened Executions
  import opened Traces
  import CallObjects
  import CallDiscipline

  class Thread {
    const sets: seq<InstructionSet>
    const host: Host
    const stack: Stack<Value>
    const callFrameStack: CallFrameStack
    var currentFrame: CallFrame?
    var defs: map<MethodKey, nat>
    var world: World
    var status: Status
    var budget: nat               // of instructions and frames, in place of running on without end
    var spent: bool
    ghost var all: set<CallFrame>
    ghost var past: History

    /** Frames are known, and a block's frame is marked exactly if a run of it was ended by a break. */
    ghost predicate Framed()
      reads `currentFrame, `all, `past, callFrameStack, all`isRemoved
    {
      && callFrameStack.Valid() && Closed(all)
      && (forall i :: 0 <= i < callFrameStack.pointer ==> callFrameStack.callFrames[i] in all)
      && (currentFrame != null ==> currentFrame in all)
      && past.broken <= all && (forall e :: e in past.entered ==> e.frame in all)
      && (forall b :: b in all && Template(b) ==> (b.isRemoved <==> BrokenOff(b, past.broken)))
    }

    ghost predicate Valid()
      reads `currentFrame, `all, `past, stack, callFrameStack, all`isRemoved
    {
      stack.Valid() && callFrameStack.Valid() && Closed(all) && Framed() && Accounted(sets, host, past)
    }

    predicate Alive()
      reads this
    {
      status == Running && !spent
    }

    constructor (sets: seq<InstructionSet>, host: Host, world: World, budget: nat)
      ensures Valid() && Alive() && this.sets == sets && this.host == host && this.budget == budget
      ensures callFrameStack.Contents() == [] && currentFrame == null && stack.Contents() == []
      ensures all == {} && past == History([], [], [], {}, true) && fresh(stack) && fresh(callFrameStack)
    {
      this.sets, this.host, this.world, this.budget := sets, host, world, budget;
      stack := new Stack(NilV);
      callFrameStack := new CallFrameStack();
      currentFrame, defs, status, spent := null, map[], Running, false;
      all, past := {}, History([], [], [], {}, true);
      AccountedNothing(sets, host);
    }

    // ------------------------------------------------------ one instruction

    /** The thread as the machine sees it from a frame. */
    ghost function View(cf: CallFrame): State
      requires stack.Valid() && Closed(all) && cf in all
      reads `defs, `world, `status, `all, stack, cf`pc, all`locals
    {
      State(cf.pc, stack.Contents(), Chain(all, LocalsOf(all), cf), defs, world, status)
    }

    function Set(cf: CallFrame): InstructionSet
      requires cf.unit < |sets|
    {
      sets[cf.unit]
    }

    ghost predicate InCode(cf: CallFrame)
      reads this, stack, callFrameStack, all`isRemoved, cf`pc
    {
      Valid() && Closed(all) && Alive() && cf in all && cf.unit < |sets| && cf.pc < |Set(cf).code|
    }

    /** The instruction has done what the machine's does. */
    ghost predicate Executed(cf: CallFrame, before: State, i: Instr)
      requires |before.frames| > 0 && before.frames[|before.frames| - 1].unit < |sets|
      reads this, stack, cf`pc, all`locals
    {
      var e := Exec(sets, host, before, i);
      status == e.status && (status == Running ==> stack.Valid() && Closed(all) && cf in all && View(cf) == e)
    }

    method Panic()
      modifies `status
      ensures status == Stuck
    {
      status := Stuck;
    }

    method PushInstruction(cf: CallFrame, i: Instr)
      requires InCode(cf) && Pushed(View(cf).frames[|View(cf).frames| - 1], i).Some?
      modifies stack, cf`pc
      ensures Executed(cf, old(View(cf)), i) && |stack.data| >= old(|stack.data|)
    {
      hide Chain, LocalsOf, Exec, Framed, Closed;
      ghost var before := View(cf);
      var v := match i
        case IPutBool(b) => BoolV(b)
        case IPutString(t) => StrV(t)
        case IPutSelf => cf.self
        case IPutInt(n) => IntV(n)
        case IHasBlock => BoolV(cf.blockFrame != null)
        case _ => NilV;
      ExecPush(sets, host, before, i, v);
      stack.Push(v);
      cf.pc := cf.pc + Len(i);
    }

    method PopInstruction(cf: CallFrame)
      requires InCode(cf)
      modifies `status, stack, cf`pc
      ensures Executed(cf, old(View(cf)), IPop) && |stack.data| >= old(|stack.data|)
    {
      hide Chain, LocalsOf, Exec, Framed, Closed;
      ghost var before := View(cf);
      if stack.pointer == 0 {
        ExecStops(sets, host, before, IPop);
        Panic();
        return;
      }
      ExecPop(sets, host, before, before.stack[..|before.stack| - 1], before.stack[|before.stack| - 1]);
      stack.Discard();
      cf.pc := cf.pc + 1;
    }

    /** Dup, NoOp, Leave and, in a frame that is no block's, Break. */
    method StackInstruction(cf: CallFrame, i: Instr)
      requires InCode(cf) && (i.IDup? || i.INoOp? || i.ILeave? || (i.IBreak? && !cf.isBlock))
      modifies `status, stack, cf`pc
      ensures Executed(cf, old(View(cf)), i) && |stack.data| >= old(|stack.data|)
    {
      hide Chain, LocalsOf, Exec, Framed, Closed;
      ghost var before := View(cf);
      ExecStay(sets, host, before);
      assert Wired(all, cf) by { InClosed(all, cf); }
      if stack.pointer == 0 && i.IDup? {
        ExecStops(sets, host, before, i);
        Panic();
        return;
      }
      if i.IDup? {
        stack.Push(stack.TopValue());
      } else if i.ILeave? {
        cf.StopExecution(|Set(cf).code|);
        return;
      }
      cf.pc := cf.pc + 1;
    }

    method BranchInstruction(cf: CallFrame, i: Instr)
      requires InCode(cf) && (i.IBranchUnless? || i.IBranchIf? || i.IJump?)
      modifies `status, stack, cf`pc
      ensures Executed(cf, old(View(cf)), i) && |stack.data| >= old(|stack.data|)
    {
      hide Chain, LocalsOf, Exec, Framed, Closed;
      ghost var before := View(cf);
      if i.IJump? {
        ExecStay(sets, host, before);
        if i.target < 0 { Panic(); return; }
        cf.pc := i.target;
        return;
      }
      if stack.pointer == 0 {
        ExecStops(sets, host, before, i);
        Panic();
        return;
      }
      ExecPop(sets, host, before, before.stack[..|before.stack| - 1], before.stack[|before.stack| - 1]);
      var v := stack.Pop();
      if Truthy(v) == i.IBranchIf? {
        if i.target < 0 { Panic(); return; }
        cf.pc := i.target;
      } else {
        cf.pc := cf.pc + 2;
      }
    }

    method NewArrayInstruction(cf: CallFrame, argCount: nat)
      requires InCode(cf)
      modifies `status, stack, cf`pc
      ensures Executed(cf, old(View(cf)), INewArray(argCount)) && |stack.data| >= old(|stack.data|)
    {
      hide Chain, LocalsOf, Exec, Framed, Closed;
      ghost var before := View(cf);
      if argCount > stack.pointer {
        ExecStops(sets, host, before, INewArray(argCount));
        Panic();
        return;
      }
      ghost var n := stack.pointer - argCount;
      var elems: seq<Value> := [];
      for i := argCount downto 0
        invariant stack.Valid() && |stack.data| == old(|stack.data|) && stack.pointer == n + i
        invariant stack.Contents() == before.stack[..n + i] && elems == before.stack[n + i..]
        modifies stack
      {
        var v := stack.Pop();
        assert before.stack[..n + i + 1] == stack.Contents() + [v];
        elems := [v] + elems;
      }
      ExecArray(sets, host, before, before.stack[..n], elems);
      stack.Push(ArrV(elems));
      cf.pc := cf.pc + 2;
    }

    method ExpandArrayInstruction(cf: CallFrame, arrLength: nat)
      requires InCode(cf)
      modifies `status, stack, cf`pc
      ensures Executed(cf, old(View(cf)), IExpandArray(arrLength)) && |stack.data| >= old(|stack.data|)
    {
      hide Chain, LocalsOf, Exec, Framed, Closed, Expanded;
      ghost var before := View(cf);
      if stack.pointer == 0 {
        ExecStops(sets, host, before, IExpandArray(arrLength));
        Panic();
        return;
      }
      var arr := stack.Pop();
      ghost var below := stack.Contents();
      ExecExpand(sets, host, before, below, arr, arrLength);
      if !arr.ArrV? {
        status := Raised(TypeError);
        return;
      }
      var elems := Reordered(arr.elems, arrLength);
      for i := 0 to |elems|
        invariant stack.Valid() && |stack.data| >= old(|stack.data|) && stack.Contents() == below + elems[..i]
        modifies stack
      {
        stack.Push(elems[i]);
      }
      assert elems[..|elems|] == elems;
      cf.pc := cf.pc + 2;
    }

    /** Prepending the elements, so that the first is pushed last. */
    static method Reordered(from: seq<Value>, n: nat) returns (elems: seq<Value>)
      ensures elems == Expanded(from, n)
    {
      elems := [];
      for i := 0 to n
        invariant elems == Expanded(from, i)
      {
        elems := [if i < |from| then from[i] else NilV] + elems;
      }
    }

    method DefMethodInstruction(cf: CallFrame, argc: int, name: Name, unit: Option<nat>)
      requires InCode(cf)
      modifies `status, `defs, stack, cf`pc
      ensures Executed(cf, old(View(cf)), IDefMethod(argc, name, unit)) && |stack.data| >= old(|stack.data|)
    {
      hide Chain, LocalsOf, Exec, Framed, Closed;
      ghost var before := View(cf);
      if unit.None? || stack.pointer == 0 {
        ExecStops(sets, host, before, IDefMethod(argc, name, unit));
        Panic();
        return;
      }
      ExecPop(sets, host, before, before.stack[..|before.stack| - 1], before.stack[|before.stack| - 1]);
      var self := stack.Pop();
      defs := defs[(host.classOf(self), name) := unit.value];
      cf.pc := cf.pc + 4;
    }

    /** Integers are operated on directly. */
    method Operate(op: int)
      requires stack.Valid() && stack.pointer >= 2 && stack.At(1).IntV? && stack.At(0).IntV?
      modifies stack
      ensures stack.Valid() && |stack.data| >= old(|stack.data|)
      ensures stack.Contents()
        == old(stack.Contents())[..old(stack.pointer) - 2] + [Arithmetic(op, old(stack.At(1)).n, old(stack.At(0)).n)]
    {
      hide Wrap64;
      var l, r := stack.At(1).n, stack.At(0).n;
      stack.Discard();
      var v := if op == ADD then IntV(Wrap64(l + r))
               else if op == SUBTRACT then IntV(Wrap64(l - r))
               else if op == LESS then BoolV(l < r)
               else if op == GREATER then BoolV(l > r)
               else if op == LESS_EQUAL then BoolV(l <= r)
               else BoolV(l >= r);
      stack.Set(stack.pointer - 1, v);
    }

    method IntegerInstruction(cf: CallFrame, i: Instr)
      requires InCode(cf) && i.IArith? && stack.pointer >= 2 && stack.At(1).IntV? && stack.At(0).IntV?
      modifies stack, cf`pc
      ensures Executed(cf, old(View(cf)), i) && |stack.data| >= old(|stack.data|)
    {
      hide Chain, LocalsOf, Exec, Framed, Closed, Arithmetic;
      ghost var before := View(cf);
      ghost var below, l, r := before.stack[..|before.stack| - 2], stack.At(1).n, stack.At(0).n;
      assert before.stack == below + [IntV(l), IntV(r)];
      ExecArithmetic(sets, host, before, below, l, r, i);
      Operate(i.op);
      cf.pc := cf.pc + 2;
    }

    // --------------------------------------------------------------- locals

    /** getLocal's loop over the environments. */
    method FrameAt(cf: CallFrame, depth: nat) returns (lcf: CallFrame?)
      ensures lcf == Up(cf, depth)
    {
      lcf := cf;
      var d := depth;
      while d > 0
        invariant lcf != null && Up(cf, depth) == Up(lcf, d)
      {
        lcf, d := lcf.ep, d - 1;
        if lcf == null { return; }
      }
    }

    method InsertLocal(cf: CallFrame, index: nat, depth: nat, v: Value) returns (ok: bool)
      requires InCode(cf)
      modifies all`locals
      ensures
        var frames := Insert(old(Chain(all, LocalsOf(all), cf)), index, depth, v);
        ok == frames.Some? && Chain(all, LocalsOf(all), cf) ==
          if ok then frames.value else old(Chain(all, LocalsOf(all), cf))
      ensures forall f :: f in all && f != cf && Unborrowed(all, f) ==> f.locals == old(f.locals)
    {
      hide Framed, Fill, Chain, Insert;
      InsertChain(all, LocalsOf(all), cf, index, depth, v);
      var lcf := FrameAt(cf, depth);
      if lcf == null { return false; }
      if depth > 0 { UpBorrowed(all, cf, depth); }
      var at := if Slot(lcf.locals, index).Some? then lcf else cf;
      var locals := Grown(at.locals, index, v);
      ghost var before := LocalsOf(all);
      at.locals := locals;
      assert LocalsOf(all) == before[at := locals];
      ok := true;
    }

    /** The list of locals grows up to the index. */
    static method Grown(from: Slots<Value>, index: nat, v: Value) returns (locals: Slots<Value>)
      ensures locals == Fill(from, index, v)
    {
      locals := from;
      while index >= |locals|
        invariant |from| <= |locals| && (|locals| > |from| ==> |locals| <= index + 1)
        invariant locals == from + seq(|locals| - |from|, _ => None)
        decreases index - |locals|
      {
        locals := locals + [None];
      }
      locals := locals[index := Some(v)];
    }

    method GetLocalInstruction(cf: CallFrame, depth: nat, index: nat)
      requires InCode(cf)
      modifies `status, stack, cf`pc
      ensures Executed(cf, old(View(cf)), IGetLocal(depth, index)) && |stack.data| >= old(|stack.data|)
    {
      hide Exec, Framed, Closed, Chain, Climb, Up, Slot;
      ghost var before := View(cf);
      ExecLocal(sets, host, before, depth, index);
      ChainClimb(all, LocalsOf(all), cf, before.frames, depth);
      var lcf := FrameAt(cf, depth);
      if lcf == null { Panic(); return; }
      ghost var d := Chain(all, LocalsOf(all), lcf);
      assert before.frames[|d| - 1] == d[|d| - 1];
      var slot := Slot(lcf.locals, index);
      stack.Push(if slot.Some? then slot.value else NilV);
      cf.pc := cf.pc + 3;
    }

    method SetLocalInstruction(cf: CallFrame, depth: nat, index: nat)
      requires InCode(cf) && stack.pointer > 0
      modifies `status, cf`pc, all`locals
      ensures Executed(cf, old(View(cf)), ISetLocal(depth, index))
      ensures forall f :: f in all && f != cf && Unborrowed(all, f) ==> f.locals == old(f.locals)
    {
      hide Exec, Framed, Closed, Chain, Climb, LocalsOf, Insert, Unborrowed, Up;
      ghost var before := View(cf);
      var v := stack.TopValue();
      ExecSetLocal(sets, host, before, depth, index, before.stack[..|before.stack| - 1], v);
      var ok := InsertLocal(cf, index, depth, v);
      if !ok { Panic(); return; }
      cf.pc := cf.pc + 3;
    }

    /** A slot that is set already keeps its value. */
    method InsertMissing(cf: CallFrame, lcf: CallFrame, index: nat, depth: nat, v: Value)
      requires InCode(cf) && Up(cf, depth) == lcf
      modifies all`locals
      ensures
        var c := old(Chain(all, LocalsOf(all), cf));
        var at, frames := Climb(c, |c| - 1, depth), Insert(c, index, depth, v);
        && at.Some? && frames.Some?
        && Chain(all, LocalsOf(all), cf) == if Slot(c[at.value].locals, index).Some? then c else frames.value
      ensures forall f :: f in all && f != cf && Unborrowed(all, f) ==> f.locals == old(f.locals)
    {
      hide Framed, Closed, Chain, Climb;
      ghost var c := Chain(all, LocalsOf(all), cf);
      ChainClimb(all, LocalsOf(all), cf, c, depth);
      ghost var d := Chain(all, LocalsOf(all), lcf);
      assert c[|d| - 1] == d[|d| - 1];
      if Slot(lcf.locals, index).None? {
        var _ := InsertLocal(cf, index, depth, v);
      }
    }

    method SetOptional(cf: CallFrame, depth: nat, index: nat, v: Value)
      requires InCode(cf)
      modifies `status, cf`pc, all`locals
      ensures
        var c := old(Chain(all, LocalsOf(all), cf));
        var at, frames := Climb(c, |c| - 1, depth), Insert(c, index, depth, v);
        if at.None? then status == Stuck
        else
          && status == Running && cf.pc == old(cf.pc) + 3 && frames.Some?
          && Chain(all, LocalsOf(all), cf) == if Slot(c[at.value].locals, index).Some? then c else frames.value
      ensures forall f :: f in all && f != cf && Unborrowed(all, f) ==> f.locals == old(f.locals)
    {
      hide Framed, Closed, Chain, Climb, Insert, Slot, Unborrowed, Up;
      var lcf := FrameAt(cf, depth);
      if lcf == null {
        NoFrame(all, LocalsOf(all), cf, depth);
        Panic();
        return;
      }
      InsertMissing(cf, lcf, index, depth, v);
      cf.pc := cf.pc + 3;
    }

    method SetOptionalInstruction(cf: CallFrame, depth: nat, index: nat)
      requires InCode(cf) && stack.pointer > 0
      modifies `status, stack, cf`pc, all`locals
      ensures Executed(cf, old(View(cf)), ISetOptional(depth, index)) && |stack.data| >= old(|stack.data|)
      ensures forall f :: f in all && f != cf && Unborrowed(all, f) ==> f.locals == old(f.locals)
    {
      hide Exec, Framed, Closed, Chain, Climb, Insert, Slot, Unborrowed, Up, LocalsOf;
      ghost var before := View(cf);
      var v := stack.Pop();
      ExecSetLocal(sets, host, before, depth, index, stack.Contents(), v);
      SetOptional(cf, depth, index, v);
    }

    // ---------------------------------------------------- all but the calls

    predicate IsPlain(cf: CallFrame, i: Instr): (r: bool)
      requires stack.Valid()
      reads this, stack
      ensures r <==> Plain(cf, i, stack.Contents())
    {
      && !i.ISend? && !i.IBinary? && !i.IInvokeBlock? && !i.IDefer? && !(i.IBreak? && cf.isBlock)
      && (i.IArith? ==> stack.pointer >= 2 && stack.At(1).IntV? && stack.At(0).IntV?)
    }

    method PlainInstruction(cf: CallFrame, i: Instr)
      requires InCode(cf) && IsPlain(cf, i)
      modifies `status, `defs, stack, cf`pc, all`locals
      ensures Executed(cf, old(View(cf)), i) && (status == Running ==> |stack.data| >= old(|stack.data|))
      ensures forall f :: f in all && f != cf && Unborrowed(all, f) ==> f.locals == old(f.locals)
    {
      hide Exec, Framed, Closed, Chain, LocalsOf, Unborrowed, Executed;
      if i.IGetLocal? || i.ISetLocal? || i.ISetOptional? {
        LocalInstruction(cf, i);
      } else if i.IOther? || i.IMalformed? || ((i.INewArray? || i.IExpandArray?) && i.n < 0) {
        Stop(cf, i);
      } else if i.INewArray? {
        NewArrayInstruction(cf, i.n);
      } else if i.IExpandArray? {
        ExpandArrayInstruction(cf, i.n);
      } else if i.IBranchUnless? || i.IBranchIf? || i.IJump? {
        BranchInstruction(cf, i);
      } else if i.IDefMethod? {
        DefMethodInstruction(cf, i.argc, i.name, i.unit);
      } else if i.IArith? {
        IntegerInstruction(cf, i);
      } else if i.IPop? {
        PopInstruction(cf);
      } else if i.IDup? || i.INoOp? || i.ILeave? || i.IBreak? {
        StackInstruction(cf, i);
      } else {
        PushInstruction(cf, i);
      }
    }

    method LocalInstruction(cf: CallFrame, i: Instr)
      requires InCode(cf) && (i.IGetLocal? || i.ISetLocal? || i.ISetOptional?)
      modifies `status, stack, cf`pc, all`locals
      ensures Executed(cf, old(View(cf)), i) && |stack.data| >= old(|stack.data|)
      ensures forall f :: f in all && f != cf && Unborrowed(all, f) ==> f.locals == old(f.locals)
    {
      hide Exec, Framed, Closed, Chain, LocalsOf, Unborrowed, Executed;
      if i.depth < 0 || i.index < 0 || (!i.IGetLocal? && stack.pointer == 0) {
        Stop(cf, i);
      } else if i.IGetLocal? {
        GetLocalInstruction(cf, i.depth, i.index);
      } else if i.ISetLocal? {
        SetLocalInstruction(cf, i.depth, i.index);
      } else {
        SetOptionalInstruction(cf, i.depth, i.index);
      }
    }

    method Stop(cf: CallFrame, i: Instr)
      requires InCode(cf) && Stops(View(cf), i)
      modifies `status
      ensures Executed(cf, old(View(cf)), i)
    {
      hide Exec, Framed, Closed, Chain, LocalsOf;
      ExecStops(sets, host, View(cf), i);
      Panic();
    }

    // ------------------------------------------------------- what calls keep

    lemma Seen(cf: CallFrame)
      requires stack.Valid() && Closed(all) && cf in all
      ensures View(cf) == State(cf.pc, stack.Contents(), Chain(all, LocalsOf(all), cf), defs, world, status)
    {
      hide Closed, Chain;
    }

    /** The part of the state that is no frame's. */
    ghost function Here(): State
      requires stack.Valid()
      reads `defs, `world, `status, stack
    {
      State(0, stack.Contents(), [], defs, world, status)
    }

    ghost function Now(): Shot
      reads `all, `past, all`pc, all`isRemoved, all`locals
    {
      Shot(past, map f | f in all :: FrameState(f.pc, f.isRemoved, f.locals))
    }

    lemma Shown(f: CallFrame)
      requires f in all
      ensures Now().frames.Keys == all && Now().frames[f] == FrameState(f.pc, f.isRemoved, f.locals)
    {
    }

    lemma ShownAll()
      ensures Now().frames.Keys == all && Now().past == past
    {
    }

    twostate predicate SameCalls()
      reads this, callFrameStack
    {
      && callFrameStack.Valid() && old(callFrameStack.Valid())
      && callFrameStack.Contents() == old(callFrameStack.Contents()) && currentFrame == old(currentFrame)
    }

    /** The frames stay connected and marked, and what does not run is kept. */
    twostate predicate Went(entered: set<CallFrame>, mine: set<CallFrame>)
      reads this, stack, callFrameStack, all
    {
      && Valid() && fresh(all - old(all)) && |stack.data| >= old(|stack.data|)
      && old(all) <= all && Kept(old(Now()), Now(), entered, mine)
    }

    method Advance(cf: CallFrame, n: nat)
      requires cf in all && Valid()
      modifies cf`pc
      ensures cf.pc == old(cf.pc) + n && Valid() && Kept(old(Now()), Now(), {}, {cf})
    {
      hide Closed, BrokenOff, Unborrowed, Accounted;
      cf.pc := cf.pc + n;
    }

    /** The next instruction takes that many values off. */
    ghost method Note(pops: nat, kept: seq<Value>)
      requires Valid()
      modifies `past
      ensures Valid() && Kept(old(Now()), Now(), {}, {})
      ensures past == old(past).(tidy := old(past).tidy && |kept| + pops <= stack.pointer)
    {
      hide Closed, BrokenOff, Unborrowed, Accounted;
      AccountedNote(sets, host, past, past.tidy && |kept| + pops <= stack.pointer);
      past := past.(tidy := past.tidy && |kept| + pops <= stack.pointer);
    }

    method NewFrame(isBlock: bool, blockFrame: CallFrame?, ep: CallFrame?, unit: nat, self: Value, locals: Slots<Value>)
      returns (cf: CallFrame)
      requires Valid() && (ep != null ==> ep in all)
      requires blockFrame != null ==> blockFrame in all && Template(blockFrame)
      requires if isBlock then ep != null && (blockFrame != null ==> blockFrame.ep == ep) else ep == null
      modifies `all
      ensures Valid() && fresh(cf) && all == old(all) + {cf} && Unborrowed(all, cf)
      ensures cf.isBlock == isBlock && cf.blockFrame == blockFrame && cf.ep == ep && cf.unit == unit && cf.self == self
      ensures cf.locals == locals && cf.pc == 0 && !cf.isRemoved
      ensures NotEntered(past, cf) && Kept(old(Now()), Now(), {}, if ep == null || blockFrame != null then {} else {ep})
    {
      hide Kept, Onward, Closed, BrokenOff, Unborrowed, Accounted;
      ghost var before := Now();
      ShownAll();
      cf := new CallFrame(isBlock, blockFrame, ep, unit, self, locals);
      all := all + {cf};
      ClosedMore(old(all), cf);
      NotBroken(old(all), past.broken, cf);
      assert Now().frames == before.frames[cf := FrameState(0, false, locals)];
      ShownAll();
      KeptMore(before, Now(), cf);
    }

    /** The frame goes on top, and is the current one. */
    method PushFrame(cf: CallFrame)
      requires Valid() && cf in all
      modifies callFrameStack, `currentFrame
      ensures Valid() && callFrameStack.Contents() == old(callFrameStack.Contents()) + [cf] && currentFrame == cf
    {
      hide Closed, BrokenOff, Accounted;
      callFrameStack.Push(cf);
      currentFrame := cf;
    }

    /** The frame on top is taken off. */
    method PopFrame(ghost below: seq<CallFrame?>, ghost cf: CallFrame) returns (frame: CallFrame)
      requires Valid() && callFrameStack.Contents() == below + [cf]
      modifies callFrameStack
      ensures Valid() && callFrameStack.Contents() == below && frame == cf
    {
      hide Closed, BrokenOff, Accounted;
      assert (below + [cf])[..|below|] == below;
      ghost var frames := callFrameStack.Contents();
      assert forall k :: 0 <= k < |below| ==> frames[k] == below[k] && frames[k] in all;
      frame := callFrameStack.Pop();
    }

    /** The Break instruction in a block: the top frame, which is this one, is taken off, stopped and marked. */
    method BreakFrame(cf: CallFrame, ghost below: seq<CallFrame?>, ghost entry: nat)
      requires Open(past, entry, cf)
      requires Valid() && cf in all && cf.isBlock && cf.blockFrame != null && cf.unit < |sets|
      requires callFrameStack.Contents() == below + [cf]
      modifies `past, callFrameStack, cf, cf.blockFrame
      ensures Valid() && callFrameStack.Contents() == below
      ensures cf.isRemoved && cf.blockFrame.isRemoved && cf.pc == |Set(cf).code|
      ensures past == old(past).(broken := old(past).broken + {cf}) && Kept(old(Now()), Now(), {}, {cf})
      ensures LocalsOf(all) == old(LocalsOf(all))
    {
      hide BrokenOff, Closed, Unborrowed, Kept, Accounted;
      InClosed(all, cf);
      ghost var s0 := Now();
      var frame := PopFrame(below, cf);
      StopFrame(frame, |Set(frame).code|);
      ghost var s1 := Now();
      MarkBroken(frame, entry);
      KeptTwice(s0, s1, Now(), {}, {cf}, {}, {cf}, {}, {cf});
    }

    method StopFrame(cf: CallFrame, instructionsCount: nat)
      requires Valid() && cf in all
      modifies cf`pc
      ensures Valid() && cf.pc == instructionsCount && Kept(old(Now()), Now(), {}, {cf})
    {
      hide Closed, BrokenOff, Unborrowed, Accounted;
      cf.StopExecution(instructionsCount);
    }

    /** The frame and its block's frame are marked as ended by a break. */
    method MarkBroken(cf: CallFrame, ghost entry: nat)
      requires Open(past, entry, cf)
      requires Valid() && cf in all && cf.isBlock && cf.blockFrame != null
      modifies `past, cf, cf.blockFrame
      ensures Valid() && cf.isRemoved && cf.blockFrame.isRemoved && cf.pc == old(cf.pc)
      ensures past == old(past).(broken := old(past).broken + {cf}) && Kept(old(Now()), Now(), {}, {cf})
      ensures LocalsOf(all) == old(LocalsOf(all))
    {
      hide BrokenOff, Closed, Unborrowed, Accounted;
      InClosed(all, cf);
      AccountedBreak(sets, host, past, entry, cf);
      cf.SetAsRemoved();
      ghost var broken := past.broken;
      past := past.(broken := broken + {cf});
      forall b | b in all && Template(b) ensures b.isRemoved <==> BrokenOff(b, past.broken) {
        BrokenMore(b, broken, cf);
      }
    }

    method MarkRemoved(cf: CallFrame)
      requires Valid() && cf in all && !Template(cf)
      modifies cf`isRemoved
      ensures Valid() && cf.isRemoved && Kept(old(Now()), Now(), {}, {cf})
    {
      hide Closed, BrokenOff, Unborrowed, Accounted;
      cf.isRemoved := true;
    }

    ghost method Record(cf: CallFrame)
      requires Valid() && cf in all && NotEntered(past, cf)
      modifies `past
      ensures Valid() && Now().frames == old(Now()).frames
      ensures past == old(past).(entered := old(past).entered + [Entered(cf, cf.locals)])
    {
      hide Closed, BrokenOff, Unborrowed, Accounted, NotEntered;
      AccountedEnter(sets, host, past, Entered(cf, cf.locals));
      past := past.(entered := past.entered + [Entered(cf, cf.locals)]);
    }

    ghost method RecordRun(r: Run)
      requires Valid() && RunOk(sets, host, past, r) && (past.entered[r.entry].frame in past.broken <==> r.broke)
      requires r.entry !in Finished(past.runs) && r.last == |past.runs|
      modifies `past
      ensures Valid() && Now().frames == old(Now()).frames && past == old(past).(runs := old(past).runs + [r])
    {
      hide Closed, BrokenOff, Unborrowed, Accounted, RunOk;
      AccountedRun(sets, host, past, r);
      past := past.(runs := past.runs + [r]);
    }

    // --------------------------------------------------------------- frames

    /** Above what was on the stack when the frame was entered, if its code has kept to that. */
    ghost predicate Above(kept: seq<Value>)
      requires stack.Valid()
      reads `past, stack
    {
      past.tidy ==> kept <= stack.Contents()
    }

    /** The frame is on top of its caller's, until a break of its own has taken it off. */
    ghost predicate OnTop(cf: CallFrame, below: seq<CallFrame?>)
      requires callFrameStack.Valid()
      reads callFrameStack, cf`isRemoved
    {
      callFrameStack.Contents() == if cf.isRemoved then below else below + [cf]
    }

    ghost predicate Enterable(cf: CallFrame)
      reads this, stack, callFrameStack, all, cf
    {
      Valid() && Alive() && cf in all && !Template(cf) && !cf.isRemoved && cf.pc == 0
    }

    /** The last run on record is that of the frame entered then, from that state to this one. */
    ghost predicate RunSince(before: History, start: State)
      reads `past, `defs, `world, stack
    {
      && stack.Valid() && |past.runs| > |before.runs|
      && var r := past.runs[|past.runs| - 1];
         && r.entry == |before.entered| && r.from == |before.runs| && r.start == start
         && r.value == stack.TopValue() && r.defs == defs && r.world == world
    }

    /** evaluateNormalFrame: the frame is entered once, its code run from the beginning to the end and
        then what that has registered; it is taken off exactly once, by its own break or here; the frames
        of the callers, and what was on the stack, are as before. */
    method EvaluateNormalFrame(cf: CallFrame)
      requires Enterable(cf) && NotEntered(past, cf)
      modifies this, stack, callFrameStack, all
      ensures budget <= old(budget)
      ensures Alive() ==> Went({cf}, {cf}) && SameCalls() && cf.isRemoved && Above(old(stack.Contents()))
      ensures Alive() ==> EnteredOnce(old(past.entered), past.entered, cf, old(cf.locals))
      ensures Alive() ==> RunSince(old(past), old(View(cf)))
      decreases budget, 1
    {
      hide Framed, Closed, Kept, Now, Unborrowed, EnteredOnce, Onward, Accounted, View, LocalsOf, NotEntered, RunOk;
      hide Open, Finished, RunSince;
      ghost var start := View(cf);
      if budget == 0 { spent := true; return; }
      budget := budget - 1;
      ghost var below, s0 := callFrameStack.Contents(), Now();
      Shown(cf);
      ShownAll();
      var oldFrame := EnterFrame(cf);
      ghost var s1 := Now();
      ShownAll();
      ghost var r := ExecFrame(cf, below, stack.Contents(), |s0.past.entered|);
      if !Alive() { return; }
      ghost var s2 := Now();
      ShownAll();
      KeptTidy(s1, s2, {}, {cf});
      LeaveFrame(cf, below, oldFrame);
      ShownAll();
      KeptTwice(s1, s2, Now(), {}, {cf}, {}, {cf}, {}, {cf});
      Finish(s0, s1, cf, r, start);
      ShownAll();
    }

    /** The run of a frame that was entered is put on record. */
    ghost method Finish(s0: Shot, s1: Shot, cf: CallFrame, r: Run, start: State)
      requires Valid() && cf in s0.frames && Kept(s1, Now(), {}, {cf})
      requires s1 == Shot(s0.past.(entered := s0.past.entered + [Entered(cf, s0.frames[cf].locals)]), s0.frames)
      requires RunOk(sets, host, past, r) && (cf in past.broken <==> r.broke) && past.entered[r.entry].frame == cf
      requires r.entry == |s0.past.entered| && r.from == |s0.past.runs| && r.start == start
      requires r.value == stack.TopValue() && r.defs == defs && r.world == world && Open(s1.past, r.entry, cf)
      requires r.last == |past.runs|
      modifies `past
      ensures Valid() && Kept(s0, Now(), {cf}, {cf}) && past.tidy == old(past).tidy
      ensures EnteredOnce(s0.past.entered, past.entered, cf, s0.frames[cf].locals) && RunSince(s0.past, start)
    {
      hide Framed, Closed, Kept, Now, Accounted, RunOk, EnteredOnce;
      ghost var s3 := Now();
      ShownAll();
      OnceEntered(s0.past.entered, s1, s3, {cf}, cf, s0.frames[cf].locals);
      KeptRuns(s1, s3, {}, {cf});
      StillOpen(s1, s3, {}, {cf}, r.entry, cf);
      RecordRun(r);
      ShownAll();
      KeptRun(s0, s1, s3, Now(), cf, s0.frames[cf].locals, r);
    }

    /** What has not been entered has not been broken off. */
    lemma EntersUnbroken(cf: CallFrame)
      requires Accounted(sets, host, past) && NotEntered(past, cf)
      ensures cf !in past.broken && |past.entered| !in Finished(past.runs)
    {
      hide RunOk;
      forall k | 0 <= k < |past.entered| ensures past.entered[k].frame != cf {
        assert past.entered[k] in past.entered;
      }
    }

    method EnterFrame(cf: CallFrame) returns (oldFrame: CallFrame?)
      requires Valid() && cf in all && NotEntered(past, cf)
      modifies `past, `currentFrame, callFrameStack
      ensures Valid() && callFrameStack.Contents() == old(callFrameStack.Contents()) + [cf] && currentFrame == cf
      ensures oldFrame == old(currentFrame) && (oldFrame != null ==> oldFrame in all)
      ensures past == old(past).(entered := old(past).entered + [Entered(cf, cf.locals)])
      ensures Now().frames == old(Now()).frames
      ensures View(cf) == old(View(cf)) && Open(past, |old(past).entered|, cf) && cf !in past.broken
    {
      hide Framed, Closed, Now, Accounted, NotEntered, View, LocalsOf;
      EntersUnbroken(cf);
      CurrentKnown();
      oldFrame := currentFrame;
      Record(cf);
      PushFrame(cf);
    }

    method LeaveFrame(cf: CallFrame, ghost below: seq<CallFrame?>, oldFrame: CallFrame?)
      requires Valid() && cf in all && !Template(cf) && OnTop(cf, below) && (oldFrame != null ==> oldFrame in all)
      modifies callFrameStack, cf`isRemoved, `currentFrame
      ensures Valid() && cf.isRemoved && callFrameStack.Contents() == below && currentFrame == oldFrame
      ensures Kept(old(Now()), Now(), {}, {cf})
    {
      hide Framed, Closed, Kept, Now, Accounted;
      TakeOff(cf, below);
      Restore(oldFrame);
    }

    /** The frame is popped, unless its own break has done so. */
    method TakeOff(cf: CallFrame, ghost below: seq<CallFrame?>)
      requires Valid() && cf in all && !Template(cf) && OnTop(cf, below)
      modifies callFrameStack, cf`isRemoved
      ensures Valid() && cf.isRemoved && callFrameStack.Contents() == below && Kept(old(Now()), Now(), {}, {cf})
    {
      hide Framed, Closed, Kept, Now, Unborrowed, Accounted;
      KeptSame(Now());
      KeptWider(Now(), Now(), {}, {}, {}, {cf});
      if !cf.isRemoved {
        MarkRemoved(cf);
        var _ := PopFrame(below, cf);
      }
    }

    method Restore(oldFrame: CallFrame?)
      requires Valid() && (oldFrame != null ==> oldFrame in all)
      modifies `currentFrame
      ensures Valid() && currentFrame == oldFrame
    {
      hide Closed, BrokenOff, Accounted;
      currentFrame := oldFrame;
    }

    lemma EnteredKnown()
      requires Valid()
      ensures forall e :: e in past.entered ==> e.frame in all
    {
    }

    lemma CurrentKnown()
      requires Valid()
      ensures currentFrame != null ==> currentFrame in all
    {
    }

    /** execFrame: the code, then the deferred blocks.  Those that the code has registered are
        entered once each, the last one first, with the arguments they were registered with. */
    method ExecFrame(cf: CallFrame, ghost below: seq<CallFrame?>, ghost kept: seq<Value>, ghost entry: nat)
      returns (ghost r: Run)
      requires Enterable(cf) && callFrameStack.Contents() == below + [cf] && kept <= stack.Contents()
      requires Open(past, entry, cf) && |past.entered| == entry + 1 && past.entered[entry].args == cf.locals
      requires cf !in past.broken
      modifies this, stack, callFrameStack, all
      ensures budget <= old(budget)
      ensures Alive() ==> Went({}, {cf}) && currentFrame == old(currentFrame) && OnTop(cf, below) && Above(kept)
      ensures Alive() ==> RunOk(sets, host, past, r) && (cf in past.broken <==> r.broke)
      ensures Alive() ==> past.entered[entry].frame == cf
      ensures Alive() ==> r.entry == entry && r.from == |old(past.runs)| && r.start == old(View(cf))
      ensures Alive() ==> r.last == |past.runs|
      ensures Alive() ==> r.value == stack.TopValue() && r.defs == defs && r.world == world
      decreases budget, 4
    {
      hide Framed, Closed, Kept, Now, Unborrowed, Only, Reversed, Pending, Frames, Accounted, Chain, CodeRun, RunOk;
      hide Deferred, Finished, BlocksRun;
      var deferStack;
      ghost var s0 := Now();
      ShownAll();
      deferStack, r := RunCode(cf, below, kept, entry);
      if !Alive() { return; }
      ghost var s1, registered := Now(), Deferred(r.turns);
      ghost var fs := Frames(registered);
      ShownAll();
      Shown(cf);
      KeptPast(s0, s1, {}, {cf});
      RunDeferred(deferStack, registered);
      if !Alive() { return; }
      ShownAll();
      Shown(cf);
      KeptFrame(s1, Now(), fs, fs, cf);
      KeptPast(s1, Now(), fs, fs);
      KeptTwice(s0, s1, Now(), {}, {cf}, fs, fs, {}, {cf});
      ShownAll();
      OnlyAfter(s0.past.entered, s1.past.entered, past.entered, fs);
      KeptExtends(s1, Now(), fs, fs);
      AccountedRange(sets, host, s1.past);
      r := FinishRun(sets, host, s1.past, past, cf, s0.past.entered[entry].args, r, entry, stack.TopValue(), defs,
                     world);
    }

    /** The loop over the frame's code. */
    method RunCode(cf: CallFrame, ghost below: seq<CallFrame?>, ghost kept: seq<Value>, ghost entry: nat)
      returns (deferStack: seq<CallFrame>, ghost r: Run)
      requires Enterable(cf) && callFrameStack.Contents() == below + [cf] && kept <= stack.Contents()
      requires Open(past, entry, cf) && cf !in past.broken
      modifies this, stack, callFrameStack, all
      ensures budget <= old(budget)
      ensures Alive() ==> Went({}, {cf}) && currentFrame == old(currentFrame) && OnTop(cf, below) && Above(kept)
      ensures Alive() ==> CodeRun(sets, host, past, cf, old(cf.locals), r) && (cf in past.broken <==> r.broke)
      ensures Alive() ==> r.start == old(View(cf)) && r.end == View(cf) && r.from == |old(past.runs)|
      ensures Alive() ==> r.to == |past.runs|
      ensures Alive() ==> Pending(Now(), deferStack, Deferred(r.turns)) && Frames(Deferred(r.turns)) <= all - old(all)
      ensures Alive() ==> NoneEntered(old(past.entered), past.entered, Frames(Deferred(r.turns)))
      decreases budget, 3
    {
      hide Framed, Closed, Kept, Now, Unborrowed, Pending, Frames, NoneEntered, Accounted, View, Open, CodeSoFar;
      hide CodeRun, Deferred;
      hide EndsInBreak, TurnOk, BreakTurn;
      deferStack := [];
      ghost var turns, s0, start := [], Now(), View(cf);
      r := Run(entry, 0, 0, [], start, start, 0, 0, false, NilV, defs, world);
      if cf.unit >= |sets| { Panic(); return; }
      Starts(cf);
      NoCode(sets, host, past, cf, entry, start);
      NothingPending(s0);
      KeptSame(s0);
      KeptWider(s0, s0, {}, {}, {}, {cf});
      ShownAll();
      while cf.pc < |Set(cf).code|
        invariant Alive() && Went({}, {cf}) && currentFrame == old(currentFrame) && OnTop(cf, below) && Above(kept)
        invariant Pending(Now(), deferStack, Deferred(turns)) && Frames(Deferred(turns)) !! s0.frames.Keys
        invariant budget <= old(budget)
        invariant NoneEntered(s0.past.entered, past.entered, Frames(Deferred(turns)))
        invariant CodeSoFar(sets, host, past, cf, entry, start, |s0.past.runs|, turns, View(cf), cf.isRemoved)
        invariant cf.isRemoved ==> cf.pc == |Set(cf).code|
        decreases budget
      {
        if budget == 0 { spent := true; return; }
        budget := budget - 1;
        deferStack, turns := NextTurnOf(cf, below, kept, deferStack, entry, s0, start, turns);
        if !Alive() { return; }
      }
      PendingAll(Now(), deferStack, Deferred(turns));
      ShownAll();
      Seen(cf);
      r := Run(entry, 0, 0, turns, start, View(cf), |s0.past.runs|, |past.runs|, cf.isRemoved, NilV, defs, world);
      AllCode(sets, host, past, cf, old(cf.locals), entry, r);
    }

    /** One turn more since the frame's code was begun. */
    method NextTurnOf(cf: CallFrame, ghost below: seq<CallFrame?>, ghost kept: seq<Value>, deferStack: seq<CallFrame>,
                      ghost entry: nat, ghost first: Shot, ghost start: State, ghost turns: seq<Turn>)
      returns (more: seq<CallFrame>, ghost longer: seq<Turn>)
      requires InCode(cf) && !Template(cf) && !cf.isRemoved && callFrameStack.Contents() == below + [cf] && Above(kept)
      requires Pending(Now(), deferStack, Deferred(turns)) && Frames(Deferred(turns)) !! first.frames.Keys
      requires NoneEntered(first.past.entered, past.entered, Frames(Deferred(turns)))
      requires CodeSoFar(sets, host, past, cf, entry, start, |first.past.runs|, turns, View(cf), false)
      requires Kept(first, Now(), {}, {cf}) && cf in first.frames
      modifies this, stack, callFrameStack, all
      ensures budget <= old(budget)
      ensures Alive() ==> Valid() && fresh(all - old(all)) && |stack.data| >= old(|stack.data|) && old(all) <= all
      ensures Alive() ==> Kept(first, Now(), {}, {cf}) && currentFrame == old(currentFrame) && OnTop(cf, below)
      ensures Alive() ==> Above(kept)
      ensures Alive() ==> Pending(Now(), more, Deferred(longer)) && Frames(Deferred(longer)) !! first.frames.Keys
      ensures Alive() ==> NoneEntered(first.past.entered, past.entered, Frames(Deferred(longer)))
      ensures Alive() ==>
        CodeSoFar(sets, host, past, cf, entry, start, |first.past.runs|, longer, View(cf), cf.isRemoved)
      ensures Alive() ==> (cf.isRemoved ==> cf.pc == |Set(cf).code|)
      decreases budget, 14
    {
      hide Framed, Closed, Kept, Now, Unborrowed, Pending, Frames, NoneEntered, Accounted, View, Open, TurnOk;
      hide BreakTurn;
      hide CodeSoFar, Deferred, With;
      longer := turns;
      ghost var s1, registered := Now(), Deferred(turns);
      ghost var t;
      ShownAll();
      EnteredKnown();
      Continues(cf, entry, start, |first.past.runs|, turns);
      PendingAll(s1, deferStack, registered);
      KeysKept(first, s1, {}, {cf});
      more, t := OneTurn(cf, below, kept, deferStack, registered, entry);
      if !Alive() { return; }
      ShownAll();
      KeptTwice(first, s1, Now(), {}, {cf}, {}, {cf}, {}, {cf});
      NextCode(sets, host, s1, Now(), cf, entry, start, |first.past.runs|, turns, t, false, cf.isRemoved);
      longer := turns + [t];
      NoneLonger(first.past.entered, s1.past.entered, past.entered, Frames(registered), Frames(Deferred(longer)),
                 s1.frames.Keys);
    }

    lemma Continues(cf: CallFrame, entry: nat, start: State, from: nat, turns: seq<Turn>)
      requires Valid() && cf in all
      requires CodeSoFar(sets, host, past, cf, entry, start, from, turns, View(cf), cf.isRemoved)
      ensures Open(past, entry, cf) && (cf in past.broken <==> cf.isRemoved)
    {
      hide Framed, Closed, Accounted, View, Open;
    }

    /** Where a frame's code begins. */
    lemma Starts(cf: CallFrame)
      requires Enterable(cf)
      ensures var s := View(cf); s.pc == 0 && |s.frames| > 0 && s.frames[|s.frames| - 1].locals == cf.locals
    {
      hide Framed, Closed;
    }

    /** The turn leads from that state to this one. */
    ghost predicate TurnSince(from: nat, before: State, cf: CallFrame, t: Turn)
      reads this, stack, callFrameStack, all, cf
    {
      && Valid() && cf in all && t.before == before && t.after == View(cf) && t.from == from && t.to == |past.runs|
      && TurnOk(sets, host, past, cf, t)
    }

    /** One turn of the loop. */
    method OneTurn(cf: CallFrame, ghost below: seq<CallFrame?>, ghost kept: seq<Value>, deferStack: seq<CallFrame>,
                   ghost registered: seq<Entered>, ghost entry: nat)
      returns (more: seq<CallFrame>, ghost t: Turn)
      requires InCode(cf) && !Template(cf) && !cf.isRemoved && callFrameStack.Contents() == below + [cf] && Above(kept)
      requires Pending(Now(), deferStack, registered) && cf !in Frames(registered) && Open(past, entry, cf)
      requires cf !in past.broken
      modifies this, stack, callFrameStack, all
      ensures budget <= old(budget)
      ensures Alive() ==> Went({}, {cf}) && currentFrame == old(currentFrame) && OnTop(cf, below) && Above(kept)
      ensures Alive() ==> TurnSince(|old(past.runs)|, old(View(cf)), cf, t)
      ensures Alive() ==> (cf.isRemoved <==> BreakTurn(sets, cf, t)) && (cf in past.broken <==> cf.isRemoved)
      ensures Alive() ==> (cf.isRemoved ==> cf.pc == |Set(cf).code|)
      ensures Alive() ==> Pending(Now(), more, With(registered, t.deferred))
      ensures Alive() ==> Frames(registered) <= Frames(With(registered, t.deferred))
      ensures Alive() ==> Frames(With(registered, t.deferred)) - Frames(registered) <= all - old(all)
      ensures Alive() ==> NoneEntered(old(past.entered), past.entered, Frames(With(registered, t.deferred)))
      decreases budget, 13
    {
      hide Framed, Closed, Kept, Now, Unborrowed, Pending, Frames, NoneEntered, Accounted, Open, TurnSince, View;
      hide DeferOk, Decode;
      more := deferStack;
      ghost var s0, start := Now(), View(cf);
      t := Turn(start, start, None, NoCallee, 0, 0);
      Seen(cf);
      ShownAll();
      PendingAll(s0, deferStack, registered);
      var i := Decode(Set(cf), cf.pc);
      Note(CallDiscipline.Pops(i), kept);
      ghost var s1 := Now();
      ShownAll();
      StillPending(s0, s1, {}, {}, deferStack, registered);
      if i.IDefer? {
        ghost var deferred;
        more, deferred := Register(cf, i, deferStack, registered, kept);
        if !Alive() { return; }
        t := Turn(start, View(cf), deferred, NoCallee, |past.runs|, |past.runs|);
        DeferTurn(start, cf, i, t);
      } else {
        StillOpen(s0, s1, {}, {}, entry, cf);
        t := Instruction(cf, i, below, kept, entry);
        if !Alive() { return; }
        StillPending(s1, Now(), {}, {cf}, deferStack, registered);
        NoneNew(s1, Now(), {cf}, Frames(registered));
        ShownAll();
      }
      KeptTwice(s0, s1, Now(), {}, {}, {}, {cf}, {}, {cf});
    }

    lemma DeferTurn(start: State, cf: CallFrame, i: Instr, t: Turn)
      requires Valid() && Alive() && cf in all && cf.unit < |sets| && i.IDefer? && DeferOk(cf, i, t)
      requires t.before == start && t.after == View(cf) && t.from == t.to == |past.runs|
      requires start.pc < |Set(cf).code| && i == Decode(Set(cf), start.pc)
      ensures TurnSince(|past.runs|, start, cf, t) && !BreakTurn(sets, cf, t)
    {
      hide Framed, Closed, Accounted, Chain;
    }

    lemma DeferDone(cf: CallFrame, i: Instr, before: State, deferred: Option<Entered>)
      requires stack.Valid() && Closed(all) && cf in all && i.IDefer? && 0 <= i.argc <= |before.stack|
      requires cf.pc == before.pc + 3
      requires stack.Contents() == before.stack[..|before.stack| - i.argc] + [NilV]
      requires Chain(all, LocalsOf(all), cf) == before.frames
      requires defs == before.defs && world == before.world && status == before.status
      requires match i.unit
               case None => deferred.None?
               case Some(unit) => deferred.Some? && DeferEntry(deferred.value, cf, unit, i.argc, before.stack)
      ensures DeferOk(cf, i, Turn(before, View(cf), deferred, NoCallee, |past.runs|, |past.runs|))
    {
      hide Closed, Chain, LocalsOf, DeferEntry;
    }

    /** The Defer instruction: a frame is set aside, with the arguments as they are now. */
    method Register(cf: CallFrame, i: Instr, deferStack: seq<CallFrame>, ghost registered: seq<Entered>,
                    ghost kept: seq<Value>)
      returns (more: seq<CallFrame>, ghost deferred: Option<Entered>)
      requires InCode(cf) && !Template(cf) && i.IDefer? && Pending(Now(), deferStack, registered)
      requires cf !in Frames(registered)
      requires past.tidy ==> |kept| + CallDiscipline.Pops(i) <= stack.pointer && kept <= stack.Contents()
      modifies `status, `all, stack, cf`pc
      ensures Alive() ==> Went({}, {cf}) && Above(kept)
      ensures Alive() ==> DeferOk(cf, i, Turn(old(View(cf)), View(cf), deferred, NoCallee, |past.runs|, |past.runs|))
      ensures Alive() ==> Pending(Now(), more, With(registered, deferred))
      ensures Alive() ==> Frames(registered) <= Frames(With(registered, deferred))
      ensures Alive() ==> Frames(With(registered, deferred)) - Frames(registered) <= all - old(all)
      ensures Alive() ==> NoneEntered(old(past.entered), past.entered, Frames(With(registered, deferred)))
    {
      hide Framed, Closed, Kept, Now, Unborrowed, Pending, Frames, NoneEntered, Accounted, Chain, LocalsOf, View;
      hide DeferOk, DeferEntry, With;
      more, deferred := deferStack, None;
      var argCount := i.argc;
      if argCount < 0 || stack.pointer < argCount || (i.unit.Some? && stack.pointer == argCount) { Panic(); return; }
      ghost var s0, before := Now(), View(cf);
      Seen(cf);
      more, deferred := SetAsideIfAny(cf, i, deferStack, registered);
      ghost var s1 := Now();
      ShownAll();
      PendingAll(s1, more, With(registered, deferred));
      Proceed(cf, stack.pointer - argCount, kept);
      DeferDone(cf, i, before, deferred);
      KeptTwice(s0, s1, Now(), {}, {cf}, {}, {cf}, {}, {cf});
      StillPending(s1, Now(), {}, {cf}, more, With(registered, deferred));
      NoneEnteredIn(past.entered, past.entered, past.entered, Frames(With(registered, deferred)));
    }

    method SetAsideIfAny(cf: CallFrame, i: Instr, deferStack: seq<CallFrame>, ghost registered: seq<Entered>)
      returns (more: seq<CallFrame>, ghost deferred: Option<Entered>)
      requires Valid() && cf in all && !Template(cf) && i.IDefer? && 0 <= i.argc <= stack.pointer
      requires Pending(Now(), deferStack, registered) && cf !in Frames(registered)
      requires i.unit.Some? ==> i.argc < stack.pointer
      modifies `all
      ensures Valid() && fresh(all - old(all)) && old(all) <= all && Kept(old(Now()), Now(), {}, {cf})
      ensures Pending(Now(), more, With(registered, deferred)) && cf !in Frames(With(registered, deferred))
      ensures Frames(registered) <= Frames(With(registered, deferred))
      ensures Frames(With(registered, deferred)) - Frames(registered) <= all - old(all)
      ensures match i.unit
              case None => deferred.None?
              case Some(unit) => deferred.Some? && DeferEntry(deferred.value, cf, unit, i.argc, stack.Contents())
      ensures Chain(all, LocalsOf(all), cf) == old(Chain(all, LocalsOf(all), cf))
    {
      hide Framed, Closed, Kept, Now, Unborrowed, Pending, Frames, Accounted, Chain, LocalsOf, DeferEntry;
      more, deferred := deferStack, None;
      KeptSame(Now());
      KeptWider(Now(), Now(), {}, {}, {}, {cf});
      if i.unit.Some? {
        ghost var e;
        more, e := SetAside(cf, i.unit.value, stack.pointer - i.argc, deferStack, registered);
        deferred := Some(e);
      }
    }

    /** The arguments are dropped, and nil pushed for the next instruction. */
    method Proceed(cf: CallFrame, argPtr: nat, ghost kept: seq<Value>)
      requires Valid() && cf in all && argPtr <= stack.pointer
      requires past.tidy ==> |kept| <= argPtr && kept <= stack.Contents()
      modifies stack, cf`pc
      ensures Valid() && Above(kept) && |stack.data| >= old(|stack.data|) && Kept(old(Now()), Now(), {}, {cf})
      ensures cf.pc == old(cf.pc) + 3 && stack.Contents() == old(stack.Contents())[..argPtr] + [NilV]
    {
      hide Framed, Closed, Kept, Now, Accounted;
      stack.Reset(argPtr);
      stack.Push(NilV);
      Advance(cf, 3);
    }

    /** The frame of a deferred block, with a copy of its arguments. */
    method SetAside(cf: CallFrame, unit: nat, argPtr: nat, deferStack: seq<CallFrame>, ghost registered: seq<Entered>)
      returns (more: seq<CallFrame>, ghost e: Entered)
      requires Valid() && cf in all && !Template(cf) && 0 < argPtr <= stack.pointer
      requires Pending(Now(), deferStack, registered) && cf !in Frames(registered)
      modifies `all
      ensures Valid() && fresh(all - old(all)) && old(all) <= all && Kept(old(Now()), Now(), {}, {cf})
      ensures Pending(Now(), more, registered + [e]) && Frames(registered) <= Frames(registered + [e])
      ensures Frames(registered + [e]) - Frames(registered) <= all - old(all)
      ensures DeferEntry(e, cf, unit, stack.pointer - argPtr, stack.Contents())
      ensures Chain(all, LocalsOf(all), cf) == old(Chain(all, LocalsOf(all), cf))
    {
      hide Framed, Closed, Kept, Now, Unborrowed, Pending, Frames, NoneEntered, Accounted, Chain;
      var receiver := stack.data[argPtr - 1];
      var locals := AsLocals(stack.data[argPtr..stack.pointer]);
      assert stack.data[argPtr..stack.pointer] == stack.Contents()[argPtr..];
      ghost var s0, all0, vars := Now(), all, LocalsOf(all);
      ShownAll();
      PendingAll(s0, deferStack, registered);
      var block := NewFrame(true, null, cf, unit, receiver, []);
      ghost var s1 := Now();
      ShownAll();
      var d := NewFrame(true, block, cf, unit, receiver, locals);
      KeptTwice(s0, s1, Now(), {}, {cf}, {}, {}, {}, {cf});
      ShownAll();
      Shown(d);
      ChainMore(all0, vars, all, LocalsOf(all), cf);
      StillPending(s0, Now(), {}, {cf}, deferStack, registered);
      more := deferStack + [d];
      e := Entered(d, locals);
      PendingMore(Now(), deferStack, registered, d, locals);
    }

    method Instruction(cf: CallFrame, i: Instr, ghost below: seq<CallFrame?>, ghost kept: seq<Value>, ghost entry: nat)
      returns (ghost t: Turn)
      requires InCode(cf) && !Template(cf) && !cf.isRemoved && i == Decode(Set(cf), cf.pc) && !i.IDefer?
      requires callFrameStack.Contents() == below + [cf] && Open(past, entry, cf) && cf !in past.broken
      requires past.tidy ==> |kept| + CallDiscipline.Pops(i) <= stack.pointer && kept <= stack.Contents()
      modifies this, stack, callFrameStack, all
      ensures budget <= old(budget)
      ensures Alive() ==> Went({}, {cf}) && currentFrame == old(currentFrame) && OnTop(cf, below) && Above(kept)
      ensures Alive() ==> (cf.isRemoved ==> cf.pc == |Set(cf).code|)
      ensures Alive() ==> (cf.isRemoved <==> BreakTurn(sets, cf, t)) && (cf in past.broken <==> cf.isRemoved)
      ensures Alive() ==> TurnSince(|old(past.runs)|, old(View(cf)), cf, t) && t.deferred.None?
      decreases budget, 12
    {
      hide Framed, Closed, Kept, Now, Unborrowed, CallDiscipline.Pops, Chain, LocalsOf, Exec, Accounted, Open, CallOk;
      ghost var before, from := View(cf), |past.runs|;
      t := Turn(before, before, None, NoCallee, from, from);
      if i.IBreak? && cf.isBlock {
        InClosed(all, cf);
        BreakFrame(cf, below, entry);
        t := Turn(before, View(cf), None, NoCallee, from, from);
      } else if IsPlain(cf, i) {
        Plainly(cf, i, kept);
        if !Alive() { return; }
        t := Turn(before, View(cf), None, NoCallee, from, from);
      } else {
        ghost var callee := CallInstruction(cf, i, kept);
        if !Alive() { return; }
        t := Turn(before, View(cf), None, callee, from, |past.runs|);
      }
    }

    /** A plain instruction keeps the other frames, and what it does not take off. */
    method Plainly(cf: CallFrame, i: Instr, ghost kept: seq<Value>)
      requires InCode(cf) && IsPlain(cf, i)
      requires past.tidy ==> |kept| + CallDiscipline.Pops(i) <= stack.pointer && kept <= stack.Contents()
      modifies `status, `defs, stack, cf`pc, all`locals
      ensures Alive() ==> Went({}, {cf}) && Above(kept) && Executed(cf, old(View(cf)), i)
    {
      hide Framed, Closed, Unborrowed, Chain, LocalsOf, Exec, CallDiscipline.Pops, Accounted;
      ghost var before := View(cf);
      ShownAll();
      PlainInstruction(cf, i);
      ShownAll();
      if past.tidy { PlainAbove(sets, host, before, i, kept); }
    }

    /** Send, BinaryOperator, integer instructions on other values, InvokeBlock. */
    method CallInstruction(cf: CallFrame, i: Instr, ghost kept: seq<Value>) returns (ghost callee: Callee)
      requires InCode(cf) && !Template(cf) && IsCall(i)
      requires past.tidy ==> |kept| + CallDiscipline.Pops(i) <= stack.pointer && kept <= stack.Contents()
      modifies this, stack, callFrameStack, all
      ensures budget <= old(budget)
      ensures Alive() ==> Went({}, {cf}) && SameCalls() && Above(kept)
      ensures Alive() ==> cf.isRemoved == old(cf.isRemoved) && (cf in past.broken <==> cf in old(past.broken))
      ensures Alive() ==>
                CallOk(sets, host, past, cf, i,
                       Turn(old(View(cf)), View(cf), None, callee, |old(past.runs)|, |past.runs|))
      decreases budget, 11
    {
      hide Framed, Closed, Kept, Now, Unborrowed, CallDiscipline.Pops, Onward, TargetOk, Accounted, CallOk, View;
      hide Replaces, Passed;
      callee := NoCallee;
      var argc := ArgCount(i);
      if argc < 0 { Panic(); return; }
      ghost var s0, here, before := Now(), Here(), View(cf);
      Seen(cf);
      Shown(cf);
      ShownAll();
      var block := Prepare(cf, i);
      ghost var s1, mine := Now(), if block == null then {} else {block};
      Shown(cf);
      ShownAll();
      callee := Dispatch(cf, i, argc, block);
      if !Alive() { return; }
      Shown(cf);
      ShownAll();
      KeptCall(s0, s1, Now(), mine, cf);
      CallTurn(cf, i, here, before, callee, |s0.past.runs|);
      if past.tidy { StillAbove(kept, before.stack, stack.Contents(), argc, i); }
    }

    lemma CallTurn(cf: CallFrame, i: Instr, here: State, before: State, callee: Callee, from: nat)
      requires Valid() && cf in all && IsCall(i) && ArgCount(i) >= 0
      requires Replaces(here.stack, stack.Contents(), ArgCount(i), past.tidy)
      requires TargetOk(sets, host, past, cf, i, callee, from, |past.runs|, here, Here(), stack.TopValue())
      requires before.stack == here.stack && before.defs == here.defs && before.world == here.world
      requires cf.pc == before.pc + Len(i)
      ensures CallOk(sets, host, past, cf, i, Turn(before, View(cf), None, callee, from, |past.runs|))
    {
      hide Framed, Closed, Accounted, TargetOk, View;
      Seen(cf);
      SameTarget(sets, host, past, cf, i, callee, from, |past.runs|, here, Here(), before, View(cf), stack.TopValue());
    }

    /** What the instruction calls. */
    method Dispatch(cf: CallFrame, i: Instr, argCount: nat, block: CallFrame?) returns (ghost callee: Callee)
      requires Valid() && Alive() && cf in all && IsCall(i) && argCount == ArgCount(i) && Passed(block, cf, i)
      requires block != null ==> block in all && Template(block) && !block.isRemoved
      modifies this, stack, callFrameStack, all
      ensures budget <= old(budget)
      ensures Alive() ==> Went({}, if block == null then {} else {block}) && SameCalls()
      ensures Alive() ==> Replaces(old(stack.Contents()), stack.Contents(), argCount, past.tidy)
      ensures Alive() ==>
                TargetOk(sets, host, past, cf, i, callee, |old(past.runs)|, |past.runs|, old(Here()), Here(),
                         stack.TopValue())
      decreases budget, 10
    {
      hide Framed, Closed, Kept, Now, Unborrowed, Found, Accounted, BlockEntry, EntryOf;
      ghost var s0, mine := Now(), if block == null then {} else {block};
      ShownAll();
      if i.IInvokeBlock? {
        callee := InvokeBlock(cf, argCount);
        if !Alive() { return; }
        KeptWider(s0, Now(), {}, {}, {}, mine);
      } else {
        callee := FindAndExecute(CalledName(i), argCount, if i.ISend? then i.args else None, block);
        if !Alive() { return; }
      }
      ShownAll();
      KeptRuns(s0, Now(), {}, mine);
    }

    /** The frame for the block that is passed, if one is, and pc behind the instruction. */
    method Prepare(cf: CallFrame, i: Instr) returns (block: CallFrame?)
      requires Valid() && cf in all && !Template(cf)
      modifies `all, cf`pc
      ensures Valid() && fresh(all - old(all)) && old(all) <= all && Kept(old(Now()), Now(), {}, {cf})
      ensures cf.pc == old(cf.pc) + Len(i) && Passed(block, cf, i)
      ensures block != null ==> block in all - old(all) && Template(block) && !block.isRemoved
    {
      hide Framed, Closed, Kept, Now, Unborrowed, Accounted;
      block := null;
      ghost var s0 := Now();
      ShownAll();
      KeptSame(s0);
      KeptWider(s0, s0, {}, {}, {}, {cf});
      if i.ISend? && i.block.Some? { block := NewFrame(true, null, cf, i.block.value, cf.self, []); }
      ghost var s1 := Now();
      ShownAll();
      Advance(cf, Len(i));
      KeptTwice(s0, s1, Now(), {}, {cf}, {}, {cf}, {}, {cf});
    }

    /** The frame is run, and its value put in the receiver's place. */
    method Call(cf: CallFrame, receiverPtr: nat, ghost block: CallFrame?) returns (ghost callee: Callee)
      requires Enterable(cf) && NotEntered(past, cf) && receiverPtr < stack.pointer
      modifies this, stack, callFrameStack, all
      ensures budget <= old(budget)
      ensures Alive() ==> Went({cf}, {cf}) && SameCalls()
      ensures Alive() ==>
        Replaces(old(stack.Contents()), stack.Contents(), old(stack.pointer) - 1 - receiverPtr, past.tidy)
      ensures Alive() ==>
                && |past.runs| > 0 && callee == FrameRun(|past.runs| - 1, block)
                && Calls(past, callee, |old(past.runs)|, |past.runs|, old(Here()), Here(), stack.TopValue())
                && EntryOf(past, callee.run) == Entered(cf, old(cf.locals))
      decreases budget, 2
    {
      hide Framed, Closed, Kept, Now, Unborrowed, Accounted, NotEntered, Chain;
      callee := NoCallee;
      EvaluateNormalFrame(cf);
      if !Alive() { return; }
      stack.Replace(receiverPtr);
      callee := FrameRun(|past.runs| - 1, block);
    }

    /** InvokeBlock: in a block, the block of the frame it was written in. */
    method InvokeBlock(cf: CallFrame, argCount: nat) returns (ghost callee: Callee)
      requires Valid() && Alive() && cf in all
      modifies this, stack, callFrameStack, all
      ensures budget <= old(budget)
      ensures Alive() ==> Went({}, {}) && SameCalls()
      ensures Alive() ==> Replaces(old(stack.Contents()), stack.Contents(), argCount, past.tidy)
      ensures Alive() ==>
                argCount < |old(stack.Contents())|
                && Yielded(past, cf, argCount, callee, |old(past.runs)|, |past.runs|, old(Here()), Here(),
                           stack.TopValue())
      decreases budget, 3
    {
      hide Framed, Closed, Kept, Now, Unborrowed, Accounted, NotEntered, EntryOf;
      callee := NoCallee;
      if stack.pointer <= argCount { Panic(); return; }
      InClosed(all, cf);
      var argPtr := stack.pointer - argCount;
      if cf.blockFrame == null { status := Raised(InternalError); return; }
      var blockFrame := cf.blockFrame;
      InClosed(all, blockFrame);
      if blockFrame.ep == cf.ep { InClosed(all, cf.ep); blockFrame := cf.ep.blockFrame; }
      if blockFrame == null { status := Raised(InternalError); return; }
      InClosed(all, blockFrame);
      ghost var s0 := Now();
      ShownAll();
      var args := stack.data[argPtr..stack.pointer];
      assert args == stack.Contents()[argPtr..];
      var c := NewFrame(true, blockFrame, blockFrame.ep, blockFrame.unit, stack.data[argPtr - 1], AsLocals(args));
      ghost var s1 := Now();
      callee := Call(c, argPtr - 1, null);
      if !Alive() { return; }
      KeptTwice(s0, s1, Now(), {}, {}, {c}, {c}, {}, {});
    }

    /** FindAndExecute: whatever the method is. */
    method FindAndExecute(name: Name, argCount: nat, given: Option<ArgSet>, block: CallFrame?)
      returns (ghost callee: Callee)
      requires Valid() && Alive() && (block != null ==> block in all && Template(block) && !block.isRemoved)
      modifies this, stack, callFrameStack, all
      ensures budget <= old(budget)
      ensures Alive() ==> Went({}, if block == null then {} else {block}) && SameCalls()
      ensures Alive() ==> Replaces(old(stack.Contents()), stack.Contents(), argCount, past.tidy)
      ensures Alive() ==>
                && argCount < |old(stack.Contents())| && !callee.NoCallee? && callee.block == block
                && Found(sets, host, past, name, argCount, given, callee, |old(past.runs)|, |past.runs|,
                         old(Here()), Here(), stack.TopValue())
      decreases budget, 9
    {
      hide Framed, Closed, Kept, Now, Unborrowed, BuiltinOk, Accounted, Calls, MethodEntry, EntryOf, Replaces;
      callee := NoCallee;
      if stack.pointer <= argCount { Panic(); return; }
      var receiver := stack.data[stack.pointer - argCount - 1];
      match host.find(defs.Keys, receiver, name) {
        case Missing =>
          status := Raised(NoMethodError);
        case Builtin =>
          callee := CallBuiltin(receiver, name, argCount, block);
        case Defined(class_) =>
          if (class_, name) !in defs || defs[(class_, name)] >= |sets| { Panic(); return; }
          callee := CallMethod(receiver, defs[(class_, name)], argCount, given, block);
          if !Alive() { return; }
          KeptWider(old(Now()), Now(), {}, {}, {}, if block == null then {} else {block});
      }
    }

    /** evalMethodCall. */
    method CallMethod(receiver: Value, unit: nat, argCount: nat, given: Option<ArgSet>, block: CallFrame?)
      returns (ghost callee: Callee)
      requires Valid() && Alive() && (block != null ==> block in all && Template(block)) && unit < |sets|
      requires argCount < stack.pointer
      modifies this, stack, callFrameStack, all
      ensures budget <= old(budget)
      ensures Alive() ==> Went({}, {}) && SameCalls()
      ensures Alive() ==> Replaces(old(stack.Contents()), stack.Contents(), argCount, past.tidy)
      ensures Alive() ==>
                && |past.runs| > 0 && callee == FrameRun(|past.runs| - 1, block)
                && Calls(past, callee, |old(past.runs)|, |past.runs|, old(Here()), Here(), stack.TopValue())
                && MethodEntry(sets, EntryOf(past, callee.run), unit, receiver, block, given,
                               old(stack.Contents())[old(stack.pointer) - argCount..])
      decreases budget, 3
    {
      hide Framed, Closed, Kept, Now, Unborrowed, Replaces, BindValues, Accounted, NotEntered, EntryOf, Calls;
      callee := NoCallee;
      var receiverPtr := stack.pointer - argCount - 1;
      var bound := Bind(unit, receiverPtr, argCount, given);
      if !Alive() { return; }
      ghost var s0 := Now();
      ShownAll();
      var cf := NewFrame(false, block, null, unit, receiver, bound);
      ghost var s1 := Now();
      callee := Call(cf, receiverPtr, block);
      if !Alive() { return; }
      KeptTwice(s0, s1, Now(), {}, {}, {cf}, {cf}, {}, {});
    }

    /** The arguments on the stack, bound to the method's parameters. */
    method Bind(unit: nat, receiverPtr: nat, argCount: nat, given: Option<ArgSet>) returns (locals: Slots<Value>)
      requires stack.Valid() && Alive() && unit < |sets| && receiverPtr + 1 + argCount == stack.pointer
      modifies `status
      ensures
        var params, args := sets[unit].params, stack.Contents()[receiverPtr + 1..];
        Alive() ==> WellSized(params) && Matches(given, args) && BindValues(params, given, args) == Ok(locals)
    {
      hide BindValues, Framed;
      locals := [];
      var params := sets[unit].params;
      var values := stack.data[..stack.pointer];
      var args := values[receiverPtr + 1..];
      if !WellSized(params) || !Matches(given, args) { Panic(); return; }
      var c := new CallObjects.CallObject(params, given, receiverPtr, argCount);
      assert c.Args(values) == args;
      var bound := c.BindArguments(values);
      match bound {
        case Ok(bound') => locals := bound';
        case Err(e) => status := Raised(e);
      }
    }

    /** evalBuiltinMethod. */
    method CallBuiltin(receiver: Value, name: Name, argCount: nat, block: CallFrame?) returns (ghost callee: Callee)
      requires Valid() && Alive() && argCount < stack.pointer
      requires block != null ==> block in all && Template(block) && !block.isRemoved
      modifies this, stack, callFrameStack, all
      ensures budget <= old(budget)
      ensures Alive() ==> Went({}, if block == null then {} else {block}) && SameCalls()
      ensures Alive() ==> Replaces(old(stack.Contents()), stack.Contents(), argCount, past.tidy)
      ensures Alive() ==>
                && callee.BuiltinRun? && callee.block == block
                && BuiltinOk(sets, host, past, receiver, name, old(stack.Contents())[old(stack.pointer) - argCount..],
                             callee, |old(past.runs)|, |past.runs|, old(Here()), Here(), stack.TopValue())
      decreases budget, 8
    {
      hide Framed, Closed, Kept, Now, Unborrowed, BuiltinOk, Accounted;
      var argPtr := stack.pointer - argCount;
      var args := stack.data[argPtr..stack.pointer];
      assert args == stack.Contents()[argPtr..];
      ghost var s0, here := Now(), Here();
      ShownAll();
      var cf := NewFrame(false, block, null, 0, receiver, []);
      ghost var s1, mine := Now(), if block == null then {} else {block};
      callee := EvaluateGoFrame(cf, name, args);
      if !Alive() { return; }
      KeptTwice(s0, s1, Now(), {}, {}, {}, mine, {}, mine);
      ghost var after, v := Here(), stack.TopValue();
      stack.Replace(argPtr - 1);
      SameBuiltin(sets, host, past, receiver, name, args, callee, |s0.past.runs|, |past.runs|, here, after, here,
                  Here(), v);
    }

    /** evaluateGoFrame: the builtin's frame is taken off exactly once, its result pushed. */
    method EvaluateGoFrame(cf: CallFrame, name: Name, args: seq<Value>) returns (ghost callee: Callee)
      requires Enterable(cf)
      requires cf.blockFrame != null ==> cf.blockFrame in all && Template(cf.blockFrame) && !cf.blockFrame.isRemoved
      modifies this, stack, callFrameStack, all
      ensures budget <= old(budget)
      ensures Alive() ==> Went({}, if cf.blockFrame == null then {} else {cf.blockFrame}) && SameCalls()
      ensures Alive() ==> Above(old(stack.Contents()))
      ensures Alive() ==>
                && stack.pointer > 0 && callee.BuiltinRun? && callee.block == cf.blockFrame
                && BuiltinOk(sets, host, past, cf.self, name, args, callee, |old(past.runs)|, |past.runs|,
                             old(Here()), Here(), stack.TopValue())
      decreases budget, 7
    {
      hide Framed, Closed, Kept, Now, Unborrowed, BuiltinOk, Accounted;
      ghost var below, s0, here, from := callFrameStack.Contents(), Now(), Here(), |past.runs|;
      ghost var mine := if cf.blockFrame == null then {} else {cf.blockFrame};
      Shown(cf);
      var oldFrame := currentFrame;
      CurrentKnown();
      PushFrame(cf);
      var reply;
      reply, callee := Method(cf.self, name, args);
      if !Alive() { return; }
      Shown(cf);
      KeptFrame(s0, Now(), {}, mine, cf);
      KeptTidy(s0, Now(), {}, mine);
      ghost var after := Here();
      LeaveGoFrame(cf, below, oldFrame, reply);
      SameBuiltin(sets, host, past, cf.self, name, args, callee, from, |past.runs|, here, after, here, Here(), reply);
    }

    method LeaveGoFrame(cf: CallFrame, ghost below: seq<CallFrame?>, oldFrame: CallFrame?, reply: Value)
      requires Valid() && cf in all && !cf.isRemoved && callFrameStack.Contents() == below + [cf]
      requires oldFrame != null ==> oldFrame in all
      modifies stack, callFrameStack, `currentFrame
      ensures Valid() && callFrameStack.Contents() == below && currentFrame == oldFrame
      ensures stack.Contents() == old(stack.Contents()) + [reply] && |stack.data| >= old(|stack.data|)
    {
      hide Framed, Closed, Accounted;
      PushValue(reply);
      if !cf.isRemoved { var _ := PopFrame(below, cf); }
      Restore(oldFrame);
    }

    method PushValue(v: Value)
      requires Valid()
      modifies stack
      ensures Valid() && stack.Contents() == old(stack.Contents()) + [v] && |stack.data| >= old(|stack.data|)
    {
      hide Closed, Accounted, BrokenOff;
      stack.Push(v);
    }

    /** The builtin's own code, in its frame. */
    method Method(self: Value, name: Name, args: seq<Value>) returns (result: Value, ghost callee: Callee)
      requires Yielding()
      modifies this, stack, callFrameStack, all
      ensures budget <= old(budget)
      ensures var b := old(currentFrame).blockFrame;
              Alive() ==> Went({}, if b == null then {} else {b}) && SameCalls() && Above(old(stack.Contents()))
      ensures Alive() ==>
                && callee.BuiltinRun? && callee.block == old(currentFrame).blockFrame
                && BuiltinOk(sets, host, past, self, name, args, callee, |old(past.runs)|, |past.runs|, old(Here()),
                             Here(), result)
      decreases budget, 6
    {
      hide Framed, Closed, Kept, Now, Unborrowed, Onward, RoundsOf, Visits, EmptyBlock, RoundsOk, Accounted, Mapped;
      var reply: Reply := Got(NilV);
      ghost var rs, rounds := [], |past.rounds|;
      result, callee := NilV, NoCallee;
      if self.ArrV? && name == EACH_NAME {
        if args != [] { status := Raised(ArgumentError); return; }
        reply, rs := Each(self.elems);
      } else if self.ArrV? && name == MAP_NAME {
        reply, rs := MapElements(self.elems);
      } else if currentFrame.blockFrame != null {
        Panic();     // another builtin that may run the block
      } else {
        KeptSame(Now());
        var (w, r) := host.builtin(world, self, name, args);
        world, reply := w, r;
      }
      if !Alive() { return; }
      match reply {
        case Got(v) => result := v;
        case Fails(e) => status := Raised(e);
      }
      if Alive() {
        assert past.rounds[rounds..|past.rounds|] == past.rounds[rounds..];
        callee := BuiltinRun(rounds, |past.rounds|, currentFrame.blockFrame);
      }
    }

    /** IsEmpty: no code, or code that begins with Leave. */
    method IsEmpty(blockFrame: CallFrame) returns (r: bool)
      requires blockFrame.unit < |sets|
      ensures r <==> EmptyBlock(sets, blockFrame)
    {
      r := |Set(blockFrame).code| == 0 || Set(blockFrame).code[0] == LEAVE;
    }

    /** A builtin's frame is the current one; its block has not been removed. */
    ghost predicate Yielding()
      reads this, stack, callFrameStack, all
    {
      && Valid() && Alive() && currentFrame != null
      && (currentFrame.blockFrame != null ==>
            currentFrame.blockFrame in all && Template(currentFrame.blockFrame) && !currentFrame.blockFrame.isRemoved)
    }

    /** These rounds are what has been run since, and on record. */
    twostate predicate Rounds(new rs: seq<Round>, b: CallFrame)
      reads `past, `defs, `world
    {
      && old(past.rounds) <= past.rounds && RoundsOf(past.rounds[|old(past.rounds)|..], b) == rs
      && RoundsOk(past, rs, |old(past.runs)|, |past.runs|, old(defs), old(world), defs, world)
    }

    /** Array#each: the block is run for the elements in turn, up to the one it breaks at. */
    method Each(elems: seq<Value>) returns (reply: Reply, ghost rs: seq<Round>)
      requires Yielding()
      modifies this, stack, callFrameStack, all
      ensures budget <= old(budget)
      ensures var b := old(currentFrame).blockFrame;
              Alive() ==> Went({}, if b == null then {} else {b}) && SameCalls() && Above(old(stack.Contents()))
      ensures var b := old(currentFrame).blockFrame;
              Alive() ==>
                if b == null then reply == Fails(InternalError)
                else
                  && reply == Got(ArrV(elems)) && Rounds(rs, b)
                  && if EmptyBlock(sets, b) then rs == [] else Visits(rs, b, elems)
      decreases budget, 5
    {
      hide Framed, Closed, Kept, Now, Unborrowed, Onward, RoundsOf, Visits, Looped, Ran, RoundsOk, Leads, Accounted;
      hide Extends, EmptyBlock;
      rs := [];
      ghost var s0 := Now();
      ShownAll();
      KeptSame(s0);
      reply := Fails(InternalError);
      var blockFrame := currentFrame.blockFrame;
      if blockFrame == null { return; }
      KeptWider(s0, s0, {}, {}, {}, {blockFrame});
      reply := Got(ArrV(elems));
      NoRounds(past.rounds, blockFrame);
      NothingRun(past, defs, world);
      if blockFrame.unit >= |sets| { Panic(); return; }
      var empty := IsEmpty(blockFrame);
      if empty { return; }
      for i := 0 to |elems|
        invariant Alive() && Went({}, {blockFrame}) && SameCalls() && Above(old(stack.Contents()))
          && budget <= old(budget)
        invariant !blockFrame.isRemoved && Looped(s0.past.rounds, past.rounds, blockFrame, elems[..i], rs, false)
        invariant RoundsOk(past, rs, |old(past.runs)|, |past.runs|, old(defs), old(world), defs, world)
      {
        ghost var before, defs1, world1 := past, defs, world;
        AccountedRange(sets, host, past);
        var _, r := YieldOn(blockFrame, elems[i], s0, old(stack.Contents()));
        if !Alive() { return; }
        NextRound(before, past, rs, r, |s0.past.runs|, |before.runs|, |past.runs|, old(defs), old(world), defs1, world1,
                  defs, world);
        rs := Visited(s0.past.rounds, before.rounds, past.rounds, blockFrame, elems, i, rs, r);
        if blockFrame.isRemoved {
          LoopedVisits(s0.past.rounds, past.rounds, blockFrame, elems[..i + 1], rs, true, elems);
          return;
        }
      }
      LoopedVisits(s0.past.rounds, past.rounds, blockFrame, elems[..|elems|], rs, false, elems);
    }

    /** Array#map: nil for the element the block breaks at and every later one. */
    method MapElements(elems: seq<Value>) returns (reply: Reply, ghost rs: seq<Round>)
      requires Yielding()
      modifies this, stack, callFrameStack, all
      ensures budget <= old(budget)
      ensures var b := old(currentFrame).blockFrame;
              Alive() ==> Went({}, if b == null then {} else {b}) && SameCalls() && Above(old(stack.Contents()))
      ensures var b := old(currentFrame).blockFrame;
              Alive() ==>
                if b == null then reply == Fails(InternalError)
                else
                  && reply == Got(ArrV(Mapped(rs, |elems|))) && Rounds(rs, b)
                  && if EmptyBlock(sets, b) then rs == [] else Visits(rs, b, elems)
      decreases budget, 5
    {
      hide Framed, Closed, Kept, Now, Unborrowed, Onward, RoundsOf, Visits, Looped, Ran, RoundsOk, Leads, Accounted;
      hide Extends, EmptyBlock;
      rs := [];
      ghost var s0 := Now();
      ShownAll();
      KeptSame(s0);
      reply := Fails(InternalError);
      var blockFrame := currentFrame.blockFrame;
      if blockFrame == null { return; }
      KeptWider(s0, s0, {}, {}, {}, {blockFrame});
      NoRounds(past.rounds, blockFrame);
      NothingRun(past, defs, world);
      if blockFrame.unit >= |sets| { Panic(); return; }
      var elements: seq<Value> := [];
      var empty := IsEmpty(blockFrame);
      if empty {
        elements := seq(|elems|, j => NilV);
        assert elements == Mapped([], |elems|);
        reply := Got(ArrV(elements));
        return;
      }
      ghost var last := 0;
      for i := 0 to |elems|
        invariant Alive() && Went({}, {blockFrame}) && SameCalls() && Above(old(stack.Contents()))
          && budget <= old(budget)
        invariant last <= i && (last < i ==> blockFrame.isRemoved)
        invariant Looped(s0.past.rounds, past.rounds, blockFrame, elems[..last], rs, blockFrame.isRemoved)
        invariant elements == Mapped(rs, i) && |rs| == last
        invariant RoundsOk(past, rs, |old(past.runs)|, |past.runs|, old(defs), old(world), defs, world)
      {
        ghost var before, defs1, world1, removed := past, defs, world, blockFrame.isRemoved;
        AccountedRange(sets, host, past);
        var result, r := YieldOn(blockFrame, elems[i], s0, old(stack.Contents()));
        if !Alive() { return; }
        if !removed {
          NextRound(before, past, rs, r, |s0.past.runs|, |before.runs|, |past.runs|, old(defs), old(world), defs1,
                    world1, defs, world);
          rs := Visited(s0.past.rounds, before.rounds, past.rounds, blockFrame, elems, i, rs, r);
          last := i + 1;
        }
        elements := elements + [result];
        assert elements == Mapped(rs, i + 1);
      }
      LoopedVisits(s0.past.rounds, past.rounds, blockFrame, elems[..last], rs, blockFrame.isRemoved, elems);
      reply := Got(ArrV(elements));
    }

    /** The block has been run with x, and that is all that has been run; or, if it was removed, nothing has. */
    twostate predicate Tried(blockFrame: CallFrame, x: Value, new r: Round, v: Value)
      requires stack.Valid()
      reads this, stack, blockFrame
    {
      if old(blockFrame.isRemoved) then
        v == NilV && past == old(past) && defs == old(defs) && world == old(world) && blockFrame.isRemoved
      else
        && r.block == blockFrame && r.x == x && (r.broke <==> blockFrame.isRemoved)
        && Ran(old(past.rounds), past.rounds, r) && v == (if blockFrame.isRemoved then NilV else r.value)
        && Leads(past, r, |old(past.runs)|, |past.runs|, old(defs), old(world), defs, world)
    }

    /** A removed block gives nil without running; one that breaks gives nil. */
    method Yield(blockFrame: CallFrame, x: Value) returns (v: Value, ghost r: Round)
      requires Valid() && Alive() && blockFrame in all && Template(blockFrame)
      modifies this, stack, callFrameStack, all
      ensures budget <= old(budget)
      ensures Alive() ==> Went({}, {blockFrame}) && SameCalls() && Above(old(stack.Contents()))
      ensures Alive() ==> Tried(blockFrame, x, r, v)
      decreases budget, 3
    {
      hide Framed, Closed, Kept, Now, Unborrowed, Onward, Ran, Accounted, RoundOk;
      v, r := NilV, Round(blockFrame, x, false, NilV, 0, 0);
      ghost var s0 := Now();
      ShownAll();
      KeptSame(s0);
      KeptWider(s0, s0, {}, {}, {}, {blockFrame});
      if blockFrame.isRemoved { return; }
      r := RunBlock(blockFrame, x);
      if !Alive() { return; }
      ghost var s1 := Now();
      ShownAll();
      RecordRound(r);
      KeptTwice(s0, s1, Now(), {}, {}, {}, {blockFrame}, {}, {blockFrame});
      RanAfter(s0.past.rounds, s1.past.rounds, r);
      v := if blockFrame.isRemoved then NilV else stack.TopValue();
    }

    /** The block is run, in a frame of its own. */
    method RunBlock(blockFrame: CallFrame, x: Value) returns (ghost r: Round)
      requires Valid() && Alive() && blockFrame in all && Template(blockFrame) && !blockFrame.isRemoved
      modifies this, stack, callFrameStack, all
      ensures budget <= old(budget)
      ensures Alive() ==> Went({}, {}) && SameCalls() && Above(old(stack.Contents()))
      ensures Alive() ==> Leads(past, r, |old(past.runs)|, |past.runs|, old(defs), old(world), defs, world)
      ensures Alive() ==> r.block == blockFrame && r.x == x && (r.broke <==> blockFrame.isRemoved)
      ensures Alive() ==> r.value == stack.TopValue()
      ensures Alive() ==>
                && old(past.rounds) <= past.rounds
                && forall j {:trigger past.rounds[j]} :: |old(past.rounds)| <= j < |past.rounds| ==>
                  past.rounds[j].block != blockFrame
      decreases budget, 2
    {
      hide Framed, Closed, Kept, Now, Unborrowed, Onward, Accounted, NotEntered, RoundOk, View;
      r := Round(blockFrame, x, false, NilV, 0, 0);
      ghost var s0 := Now();
      ShownAll();
      InClosed(all, blockFrame);
      Marked(blockFrame);
      var c := NewFrame(true, blockFrame, blockFrame.ep, blockFrame.unit, blockFrame.self, AsLocals([x]));
      ghost var s1 := Now();
      ShownAll();
      Seen(c);
      EvaluateNormalFrame(c);
      if !Alive() { return; }
      ShownAll();
      RoundsKept(s1, Now(), {c}, {c}, blockFrame);
      KeptTwice(s0, s1, Now(), {}, {}, {c}, {c}, {}, {});
      r := Round(blockFrame, x, blockFrame.isRemoved, stack.TopValue(), |s0.past.runs|, |past.runs| - 1);
      RanRound(s0, c, r);
    }

    lemma Marked(b: CallFrame)
      requires Valid() && b in all && Template(b)
      ensures b.isRemoved <==> BrokenOff(b, past.broken)
      ensures forall e :: e in past.entered ==> e.frame in all
    {
    }

    /** What has been run since is the block, in that frame. */
    lemma RanRound(s0: Shot, c: CallFrame, r: Round)
      requires Valid() && Accounted(sets, host, s0.past) && Kept(s0, Now(), {}, {})
      requires (forall e :: e in s0.past.entered ==> e.frame in s0.frames) && !BrokenOff(r.block, s0.past.broken)
      requires r.block in all && Template(r.block) && c.isBlock && c.blockFrame == r.block && c.ep == r.block.ep
      requires c.unit == r.block.unit && c.self == r.block.self
      requires |past.runs| > |s0.past.runs| == r.first == past.runs[|past.runs| - 1].from && r.run == |past.runs| - 1
      requires past.runs[r.run].entry < |past.entered| && EntryOf(past, r.run) == Entered(c, AsLocals([r.x]))
      requires r.value == past.runs[r.run].value && (r.broke <==> r.block.isRemoved)
      ensures RoundOk(past, r)
    {
      hide Kept, Accounted, Framed, Now, RunOk;
      ShownAll();
      Marked(r.block);
      BreaksFound(sets, host, s0, Now(), r.block);
    }

    /** One more call of the block in a builtin's loop that began at `start`. */
    method YieldOn(blockFrame: CallFrame, x: Value, ghost start: Shot, ghost kept: seq<Value>)
      returns (v: Value, ghost r: Round)
      requires Valid() && Alive() && blockFrame in all && Template(blockFrame) && Above(kept)
      requires Kept(start, Now(), {}, {blockFrame})
      modifies this, stack, callFrameStack, all
      ensures budget <= old(budget)
      ensures Alive() ==> Valid() && fresh(all - old(all)) && |stack.data| >= old(|stack.data|) && old(all) <= all
      ensures Alive() ==> Kept(start, Now(), {}, {blockFrame}) && SameCalls() && Above(kept)
      ensures Alive() ==> Extends(old(past), past) && Tried(blockFrame, x, r, v)
      decreases budget, 4
    {
      hide Framed, Closed, Kept, Now, Unborrowed, Onward, Ran, Tried, Accounted, Extends;
      ghost var s1 := Now();
      ShownAll();
      v, r := Yield(blockFrame, x);
      if !Alive() { return; }
      ShownAll();
      KeptTidy(s1, Now(), {}, {blockFrame});
      KeptExtends(s1, Now(), {}, {blockFrame});
      KeptTwice(start, s1, Now(), {}, {blockFrame}, {}, {blockFrame}, {}, {blockFrame});
    }

    ghost method RecordRound(r: Round)
      requires Valid() && r.block in all && RoundOk(past, r)
      modifies `past
      ensures Valid() && Kept(old(Now()), Now(), {}, {r.block}) && past == old(past).(rounds := old(past).rounds + [r])
      ensures RoundOk(past, r)
    {
      hide Closed, BrokenOff, Unborrowed, Accounted, RoundOk;
      AccountedRange(sets, host, past);
      RoundLater(past, past.(rounds := past.rounds + [r]), r);
      AccountedRound(sets, host, past, r);
      past := past.(rounds := past.rounds + [r]);
    }

    /** ExecInstructions: the program's set in a frame of its own; afterwards no frame is left. */
    method ExecInstructions(main: nat, self: Value)
      requires Valid() && Alive() && callFrameStack.Contents() == []
      modifies this, stack, callFrameStack, all
      ensures Alive() ==> Valid() && SameCalls() && Above(old(stack.Contents())) && Settled(old(past), past)
      ensures Alive() ==>
                && |old(past.runs)| < |past.runs|
                && past.runs[|past.runs| - 1].entry == |old(past.entered)| < |past.entered|
                && RunOk(sets, host, past, past.runs[|past.runs| - 1])
                && var e := past.entered[|old(past.entered)|];
                   e.frame.unit == main && e.frame.self == self && !e.frame.isBlock && e.frame.blockFrame == null
                     && e.args == []
    {
      hide Framed, Closed, Now, Unborrowed, NotEntered, RunOk, Onward, Settled, Untouched;
      var cf := NewFrame(false, null, null, main, self, []);
      ShownAll();
      EvaluateNormalFrame(cf);
      ShownAll();
    }

    /** The last run on record is of what was entered then, and leads from those methods and that world to these. */
    ghost predicate RunLast(before: History, defs0: map<MethodKey, nat>, world0: World)
      reads `past, `defs, `world
    {
      && |past.runs| > 0
      && var r := past.runs[|past.runs| - 1];
         && r.entry == |before.entered| && r.from == |before.runs| && r.start.defs == defs0 && r.start.world == world0
         && r.defs == defs && r.world == world
    }

    /** One deferred block. */
    method RunOne(d: CallFrame)
      requires Enterable(d) && NotEntered(past, d)
      modifies this, stack, callFrameStack, all
      ensures budget <= old(budget)
      ensures Alive() ==> Went({d}, {d}) && SameCalls()
      ensures Alive() ==> EnteredOnce(old(past.entered), past.entered, d, old(d.locals))
      ensures Alive() ==> stack.pointer == old(stack.pointer)
      ensures Alive() ==> (past.tidy ==> stack.Contents() == old(stack.Contents()))
      ensures Alive() ==> RunLast(old(past), old(defs), old(world))
      decreases budget, 2
    {
      hide Framed, Closed, Kept, Now, Unborrowed, EnteredOnce, Accounted, NotEntered, View;
      var stackPtr := stack.pointer;
      ghost var s0 := Now();
      ShownAll();
      stack.Push(NilV);
      Seen(d);
      EvaluateNormalFrame(d);
      if !Alive() { return; }
      ShownAll();
      KeptPast(s0, Now(), {d}, {d});
      stack.Reset(stackPtr);
    }

    /** The deferred function of execFrame: the last registered block first, each on top of the
        frame's values, and the stack pointer put back behind it. */
    method RunDeferred(deferStack: seq<CallFrame>, ghost registered: seq<Entered>)
      requires Valid() && Alive() && Pending(Now(), deferStack, registered)
      modifies this, stack, callFrameStack, all
      ensures budget <= old(budget)
      ensures Alive() ==> Went(Frames(registered), Frames(registered)) && SameCalls()
      ensures Alive() ==> stack.pointer == old(stack.pointer)
      ensures Alive() ==> (past.tidy ==> stack.Contents() == old(stack.Contents()))
      ensures Alive() ==> Only(past.entered[|old(past.entered)|..], Frames(registered)) == Reversed(registered)
      ensures Alive() ==>
                BlocksRun(past, Reversed(registered), |old(past.runs)|, |past.runs|, old(defs), old(world), defs, world)
      decreases budget, 3
    {
      hide Framed, Closed, Kept, Now, Unborrowed, Only, Reversed, EnteredOnce, Frames, Pending, Accounted, NotEntered;
      hide BlocksRun, Extends;
      var i := |deferStack|;
      ghost var fs, s0 := Frames(registered), Now();
      ShownAll();
      KeptSame(s0);
      KeptWider(s0, s0, {}, {}, fs, fs);
      PendingFrames(s0, deferStack, registered);
      NoneYet(past.entered, fs, registered);
      NoBlocks(past, defs, world);
      NoneReversed(registered);
      while i > 0
        invariant 0 <= i <= |deferStack| && Alive() && Went(fs, fs) && SameCalls() && budget <= old(budget)
        invariant stack.pointer == old(stack.pointer) && (past.tidy ==> stack.Contents() == old(stack.Contents()))
        invariant Pending(Now(), deferStack[..i], registered[..i]) && old(past.entered) <= past.entered
        invariant Only(past.entered[|old(past.entered)|..], fs) == Reversed(registered[i..])
        invariant BlocksRun(past, Reversed(registered[i..]), |old(past.runs)|, |past.runs|, old(defs), old(world),
                            defs, world)
      {
        i := i - 1;
        var d := deferStack[i];
        ghost var s1 := Now();
        ShownAll();
        PendingLast(s1, deferStack[..i + 1], registered[..i + 1]);
        assert deferStack[..i + 1][..i] == deferStack[..i] && registered[..i + 1][..i] == registered[..i];
        assert registered[..i + 1][i] == registered[i];
        InFrames(registered, i);
        Shown(d);
        RunOne(d);
        if !Alive() { return; }
        ShownAll();
        KeptPast(s1, Now(), {d}, {d});
        KeptTwice(s0, s1, Now(), fs, fs, {d}, {d}, fs, fs);
        OneMore(s0.past.entered, s1.past.entered, past.entered, s1.frames.Keys, registered, i);
        StillPending(s1, Now(), {d}, {d}, deferStack[..i], registered[..i]);
        KeptExtends(s1, Now(), {d}, {d});
        AccountedRange(sets, host, s1.past);
        FirstReversed(registered, i);
        FirstEntered(s1.past.entered, past.entered, d, registered[i].args);
        NextBlock(s1.past, past, Reversed(registered[i + 1..]), registered[i], |s0.past.runs|, old(defs), old(world),
                  defs, world);
      }
      assert registered[0..] == registered;
    }
  }

  lemma StillAbove(kept: seq<Value>, before: seq<Value>, after: seq<Value>, argCount: nat, i: Instr)
    requires IsCall(i) && argCount == ArgCount(i)
    requires kept <= before && |kept| + CallDiscipline.Pops(i) <= |before| && Replaces(before, after, argCount, true)
    ensures kept <= after
  {
    assert after[..|kept|] == after[..|after| - 1][..|kept|] == before[..|after| - 1][..|kept|] == before[..|kept|];
  }

  /** A plain instruction that does not reach below what is kept keeps it. */
  lemma PlainAbove(p: seq<InstructionSet>, h: Host, s: State, i: Instr, kept: seq<Value>)
    requires |s.frames| > 0 && s.frames[|s.frames| - 1].unit < |p| && kept <= s.stack
    requires |kept| + CallDiscipline.Pops(i) <= |s.stack|
    ensures kept <= Exec(p, h, s, i).stack
  {
    hide Exec, CallDiscipline.Pops;
    CallDiscipline.ExecLocal(p, h, s, i, |kept|);
  }
}
