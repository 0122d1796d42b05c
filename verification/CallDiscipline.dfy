/**
 Calls over whole runs of arbitrary code: as long as the code run inside a call
 does not reach below the receiver, the call that comes back has replaced
 receiver and arguments by one value, and the caller's frames and everything
 below are as they were, whatever the callee and its own calls and yields did.
 */
module CallDiscipline {
  import opened Wrappers
  import opened Ast
  import opened Bytecode
  import opened Binding
  import opened Machine

  /** How many of the top values an instruction takes off. */
  function Pops(i: Instr): nat {
    match i
    case ISetOptional(_, _) => 1
    case INewArray(k) => if k >= 0 then k else 0
    case IExpandArray(_) => 1
    case IBranchUnless(_) => 1
    case IBranchIf(_) => 1
    case IDefMethod(_, _, _) => 1
    case ISend(_, argc, _, _) => if argc >= 0 then argc + 1 else 0
    case IBinary(_) => 2
    case IArith(_, _) => 2
    case IInvokeBlock(argc) => if argc >= 0 then argc + 1 else 0
    case IDefer(argc, _) => if argc >= 0 then argc + 1 else 0
    case IPop => 1
    case _ => 0
  }

  /** And not one less: with fewer values on the stack the instruction cannot go on. */
  lemma PopsNeeded(p: seq<InstructionSet>, h: Host, s: State, i: Instr)
    requires |s.frames| > 0 && s.frames[|s.frames| - 1].unit < |p| && |s.stack| < Pops(i)
    ensures Exec(p, h, s, i) == Stop(s)
  {
    hide Insert, Climb, Slot, Expanded, Arithmetic, Fill, Truthy, BindValues;
  }

  /** The next step reads and writes at height b and above only. */
  ghost predicate StaysAbove(p: seq<InstructionSet>, s: State, b: nat) {
    |s.frames| > 0 && s.frames[|s.frames| - 1].unit < |p| && !AtEnd(p, s) ==>
      b + Pops(Decode(p[s.frames[|s.frames| - 1].unit], s.pc)) <= |s.stack|
  }

  ghost predicate SameBelow(a: seq<Value>, c: seq<Value>, b: nat) {
    b <= |a| && b <= |c| && a[..b] == c[..b]
  }

  ghost predicate SameFrame(f: Frame, g: Frame) {
    g == f.(locals := g.locals)
  }

  ghost predicate SameUpTo(a: seq<Frame>, c: seq<Frame>, d: nat) {
    d <= |a| && d <= |c| && forall j {:trigger a[j]} {:trigger c[j]} :: 0 <= j < d ==> SameFrame(a[j], c[j])
  }

  /** What one instruction does to the stack and the frames: the values below it
      stay, and the frames stay but for locals, or one is added on top. */
  ghost predicate Local(s: State, t: State, b: nat) {
    && SameBelow(s.stack, t.stack, b) && SameUpTo(s.frames, t.frames, |s.frames|)
    && (|t.frames| == |s.frames| || (|t.frames| == |s.frames| + 1 && t.frames[|s.frames|].base >= b))
  }

  lemma InvokeLocal(p: seq<InstructionSet>, h: Host, s: State, next: nat, name: Name, argc: nat, given: Option<ArgSet>,
                    block: Option<BlockRef>, b: nat)
    requires b + argc + 1 <= |s.stack|
    ensures Local(s, Invoke(p, h, s, next, name, argc, given, block), b)
  {
    hide BindValues;
    var base := |s.stack| - argc - 1;
    assert s.stack[..base][..b] == s.stack[..b];
  }

  lemma InsertLocal(s: State, t: State, frames: seq<Frame>, index: nat, depth: nat, v: Value, b: nat)
    requires |s.frames| > 0 && Insert(s.frames, index, depth, v) == Some(frames) && t.frames == frames
    requires SameBelow(s.stack, t.stack, b)
    ensures Local(s, t, b)
  {
    hide Fill, Climb, Slot;
  }

  lemma YieldLocal(s: State, next: nat, argc: nat, b: nat)
    requires |s.frames| > 0 && b + argc + 1 <= |s.stack|
    ensures Local(s, YieldTo(s, next, argc), b)
  {
  }

  /** The instructions that neither call nor store. */
  lemma QuietLocal(p: seq<InstructionSet>, h: Host, s: State, i: Instr, b: nat)
    requires |s.frames| > 0 && s.frames[|s.frames| - 1].unit < |p| && b + Pops(i) <= |s.stack|
    requires !i.ISend? && !i.IBinary? && !i.IArith? && !i.IInvokeBlock? && !i.ISetLocal? && !i.ISetOptional?
    ensures Local(s, Exec(p, h, s, i), b)
  {
    hide Invoke, YieldTo, Insert, Climb, Slot, Expanded, Arithmetic, Fill, Truthy;
    var t := Exec(p, h, s, i);
    assert t.frames == s.frames;
    if i.INewArray? && 0 <= i.n <= |s.stack| { assert s.stack[..|s.stack| - i.n][..b] == s.stack[..b]; }
    if |s.stack| > 0 && b < |s.stack| { assert s.stack[..|s.stack| - 1][..b] == s.stack[..b]; }
  }

  lemma ExecLocal(p: seq<InstructionSet>, h: Host, s: State, i: Instr, b: nat)
    requires |s.frames| > 0 && s.frames[|s.frames| - 1].unit < |p| && b + Pops(i) <= |s.stack|
    ensures Local(s, Exec(p, h, s, i), b)
  {
    hide Invoke, YieldTo, Insert, Climb, Slot, Expanded, Arithmetic, Fill, Truthy, Local;
    match i
    case ISend(_, _, _, _) => SendLocal(p, h, s, i, b);
    case IBinary(name) => InvokeLocal(p, h, s, s.pc + 2, name, 1, None, None, b);
    case IArith(_, _) => ArithLocal(p, h, s, i, b);
    case IInvokeBlock(argc) => if argc >= 0 { YieldLocal(s, s.pc + 2, argc, b); } else { NothingLocal(s, Stop(s), b); }
    case ISetLocal(_, _) => SetLocalLocal(p, h, s, i, b);
    case ISetOptional(_, _) => SetLocalLocal(p, h, s, i, b);
    case _ => QuietLocal(p, h, s, i, b);
  }

  lemma NothingLocal(s: State, t: State, b: nat)
    requires b <= |s.stack| && t.stack == s.stack && t.frames == s.frames
    ensures Local(s, t, b)
  {
  }

  lemma SendLocal(p: seq<InstructionSet>, h: Host, s: State, i: Instr, b: nat)
    requires |s.frames| > 0 && s.frames[|s.frames| - 1].unit < |p| && b + Pops(i) <= |s.stack| && i.ISend?
    ensures Local(s, Exec(p, h, s, i), b)
  {
    hide Invoke, Local;
    if i.argc >= 0 {
      InvokeLocal(p, h, s, s.pc + 5, i.name, i.argc, i.args,
                  if i.block.Some? then Some(BlockRef(i.block.value, |s.frames| - 1)) else None, b);
    } else {
      NothingLocal(s, Stop(s), b);
    }
  }

  lemma ArithLocal(p: seq<InstructionSet>, h: Host, s: State, i: Instr, b: nat)
    requires |s.frames| > 0 && s.frames[|s.frames| - 1].unit < |p| && b + Pops(i) <= |s.stack| && i.IArith?
    ensures Local(s, Exec(p, h, s, i), b)
  {
    hide Invoke, Arithmetic;
    InvokeLocal(p, h, s, s.pc + 2, i.name, 1, None, None, b);
    assert s.stack[..|s.stack| - 2][..b] == s.stack[..b];
  }

  lemma SetLocalLocal(p: seq<InstructionSet>, h: Host, s: State, i: Instr, b: nat)
    requires |s.frames| > 0 && s.frames[|s.frames| - 1].unit < |p| && b + Pops(i) <= |s.stack|
    requires i.ISetLocal? || i.ISetOptional?
    ensures Local(s, Exec(p, h, s, i), b)
  {
    hide Insert, Climb, Slot, Fill, Invoke;
    if |s.stack| > 0 {
      if b < |s.stack| { assert s.stack[..|s.stack| - 1][..b] == s.stack[..b]; }
      if i.depth >= 0 && i.index >= 0 {
        var r := Insert(s.frames, i.index, i.depth, s.stack[|s.stack| - 1]);
        var t := Exec(p, h, s, i);
        if r.Some? && t.frames == r.value { InsertLocal(s, t, r.value, i.index, i.depth, s.stack[|s.stack| - 1], b); }
      }
    }
  }

  /** s is a state inside the call whose frame is number d of s0, with its receiver at b. */
  ghost predicate Inside(s0: State, s: State, d: nat, b: nat) {
    && |s0.frames| == d + 1 && |s.frames| > d
    && SameUpTo(s0.frames, s.frames, d + 1) && SameBelow(s0.stack, s.stack, b)
    && s0.frames[d].base == b
    && forall j {:trigger s.frames[j]} :: d <= j < |s.frames| ==> s.frames[j].base >= b
  }

  /** The call has come back. */
  ghost predicate CameBack(s0: State, s: State, t: State, d: nat, b: nat) {
    && |s0.frames| == d + 1 && |t.frames| == d && SameUpTo(s0.frames, t.frames, d)
    && t.pc == s0.frames[d].ret && t.status == Running
    && |s.stack| > 0 && SameBelow(s0.stack, t.stack, b) && t.stack == s0.stack[..b] + [s.stack[|s.stack| - 1]]
  }

  lemma StepInside(p: seq<InstructionSet>, h: Host, s0: State, s: State, d: nat, b: nat)
    requires d > 0 && Inside(s0, s, d, b) && StaysAbove(p, s, b) && !Halted(p, s)
    ensures var t := Step(p, h, s); Inside(s0, t, d, b) || CameBack(s0, s, t, d, b)
  {
    hide Exec, Decode;
    var t := Step(p, h, s);
    var top := |s.frames| - 1;
    if s.frames[top].unit < |p| {
      if AtEnd(p, s) {
        if s.frames[top].base < |s.stack| {
          assert s.stack[..s.frames[top].base][..b] == s.stack[..b];
        }
      } else {
        ExecLocal(p, h, s, Decode(p[s.frames[top].unit], s.pc), b);
      }
    }
  }

  /** The theorem.  From the state in which a call's frame has just been entered: if no step
      up to the n-th reaches below the receiver, and the call has not come back before, then
      after n steps the machine is still inside the call, with everything below untouched, or
      the call has just come back with exactly one value in the place of receiver and
      arguments, the caller's frames as they were and the program counter behind the call. */
  lemma {:induction false} CallKeepsCaller(p: seq<InstructionSet>, h: Host, s0: State, n: nat)
    requires |s0.frames| > 1 && s0.frames[|s0.frames| - 1].base < |s0.stack|
    requires
      var d, b := |s0.frames| - 1, s0.frames[|s0.frames| - 1].base;
      forall i: nat {:trigger Run(p, h, s0, i)} :: i < n ==>
        var s := Run(p, h, s0, i);
        |s.frames| > d && !Halted(p, s) && StaysAbove(p, s, b)
    ensures
      var d, b := |s0.frames| - 1, s0.frames[|s0.frames| - 1].base;
      || Inside(s0, Run(p, h, s0, n), d, b)
      || (n > 0 && CameBack(s0, Run(p, h, s0, n - 1), Run(p, h, s0, n), d, b))
    decreases n
  {
    hide Step, StaysAbove, Halted, Iterate;
    var d, b := |s0.frames| - 1, s0.frames[|s0.frames| - 1].base;
    if n == 0 {
      assert Run(p, h, s0, 0) == s0 by { RunNothing(p, h, s0); }
    } else {
      CallKeepsCaller(p, h, s0, n - 1);
      var s := Run(p, h, s0, n - 1);
      assert |s.frames| > d && !Halted(p, s) && StaysAbove(p, s, b);
      StepInside(p, h, s0, s, d, b);
      RunSplit(p, h, s0, n - 1, 1);
      RunOnce(p, h, s);
    }
  }
}
