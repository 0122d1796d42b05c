/**
 Instruction boundaries: walking code by the operand-count table.
 */
module Boundaries {
  import opened Wrappers
  import opened Ast
  import opened Bytecode
  import opened Binding
  import opened Machine

  /** Walking from boundary a by operand counts comes to b. */
  ghost predicate Reaches(code: seq<int>, a: nat, b: nat)
    decreases b - a
  {
    a == b || (a < b && a < |code| && IsOpcode(code[a]) && Reaches(code, a + 1 + ParamCount(code[a]), b))
  }

  ghost predicate Boundary(code: seq<int>, pc: nat) {
    Reaches(code, 0, pc)
  }

  lemma {:induction false} ReachesTrans(code: seq<int>, a: nat, b: nat, c: nat)
    requires Reaches(code, a, b) && Reaches(code, b, c)
    ensures Reaches(code, a, c)
    decreases b - a
  {
    if a < b {
      ReachesTrans(code, a + 1 + ParamCount(code[a]), b, c);
    }
  }

  /** Two places on one walk are in walking order. */
  lemma {:induction false} ReachesSplit(code: seq<int>, a: nat, b: nat, c: nat)
    requires Reaches(code, a, b) && Reaches(code, a, c) && b <= c
    ensures Reaches(code, b, c)
    decreases b - a
  {
    if a < b {
      ReachesSplit(code, a + 1 + ParamCount(code[a]), b, c);
    }
  }

  /** No boundary lies among an instruction's operands. */
  lemma BetweenBoundaries(code: seq<int>, i: nat, j: nat)
    requires Boundary(code, i) && Boundary(code, j) && i < |code| && IsOpcode(code[i])
    ensures j <= i || j >= i + 1 + ParamCount(code[i])
  {
    if i < j {
      ReachesSplit(code, 0, i, j);
    }
  }

  lemma NextBoundary(code: seq<int>, i: nat)
    requires Boundary(code, i) && i < |code| && IsOpcode(code[i])
    ensures Boundary(code, i + 1 + ParamCount(code[i]))
  {
    assert Reaches(code, i + 1 + ParamCount(code[i]), i + 1 + ParamCount(code[i]));
    ReachesTrans(code, 0, i, i + 1 + ParamCount(code[i]));
  }

  /** The target of a jump or branch. */
  function TargetOf(i: Instr): Option<int> {
    match i
    case IJump(t) => Some(t)
    case IBranchIf(t) => Some(t)
    case IBranchUnless(t) => Some(t)
    case _ => None
  }

  ghost predicate TargetIn(i: Instr, targets: int -> bool) {
    TargetOf(i).Some? ==> targets(TargetOf(i).value)
  }

  /** The instructions from a up to b can be read, and their targets are among those given. */
  ghost predicate Span(ins: InstructionSet, a: nat, b: nat, targets: int -> bool)
    decreases b - a
  {
    a == b
    || (&& a < b && a < |ins.code| && IsOpcode(ins.code[a])
        && !Decode(ins, a).IMalformed? && TargetIn(Decode(ins, a), targets)
        && Span(ins, a + 1 + ParamCount(ins.code[a]), b, targets))
  }

  lemma {:induction false} SpanReaches(ins: InstructionSet, a: nat, b: nat, targets: int -> bool)
    requires Span(ins, a, b, targets)
    ensures Reaches(ins.code, a, b)
    decreases b - a
  {
    if a < b {
      SpanReaches(ins, a + 1 + ParamCount(ins.code[a]), b, targets);
    }
  }

  lemma {:induction false} SpanTrans(ins: InstructionSet, a: nat, b: nat, c: nat, targets: int -> bool)
    requires Span(ins, a, b, targets) && Span(ins, b, c, targets)
    ensures Span(ins, a, c, targets)
    decreases b - a
  {
    if a < b {
      SpanTrans(ins, a + 1 + ParamCount(ins.code[a]), b, c, targets);
    }
  }

  /** What a span says of a boundary inside it. */
  lemma {:induction false} SpanAt(ins: InstructionSet, a: nat, b: nat, pc: nat, targets: int -> bool)
    requires Span(ins, a, b, targets) && Reaches(ins.code, a, pc) && pc < b
    ensures pc < |ins.code| && IsOpcode(ins.code[pc]) && !Decode(ins, pc).IMalformed?
    ensures TargetIn(Decode(ins, pc), targets)
    ensures Reaches(ins.code, pc, pc + 1 + ParamCount(ins.code[pc]))
    decreases b - a
  {
    if a < pc {
      SpanAt(ins, a + 1 + ParamCount(ins.code[a]), b, pc, targets);
    }
  }

  ghost function Marks(code: seq<int>): int -> bool {
    t => 0 <= t && Boundary(code, t)
  }

  /** The walk by operand counts ends exactly at the end of the code, every
      operand read from the pool is in range, and every target is a boundary or the end. */
  ghost predicate Aligned(ins: InstructionSet) {
    Span(ins, 0, |ins.code|, Marks(ins.code))
  }

  ghost predicate AllAligned(sets: seq<InstructionSet>) {
    forall k {:trigger Aligned(sets[k])} :: 0 <= k < |sets| ==> Aligned(sets[k])
  }

  lemma LenOfDecoded(ins: InstructionSet, pc: nat)
    requires pc < |ins.code|
    ensures var i := Decode(ins, pc); i.IMalformed? || i.IOther? || Len(i) == 1 + ParamCount(ins.code[pc])
  {
  }

  // ---------------------------------------------- every reached pc is one

  /** The place frame i goes on at. */
  function ResumeAt(s: State, i: nat): nat
    requires i < |s.frames|
  {
    if i == |s.frames| - 1 then s.pc else s.frames[i + 1].ret
  }

  ghost predicate PcOk(sets: seq<InstructionSet>, s: State, i: nat)
    requires i < |s.frames|
  {
    s.frames[i].unit < |sets| ==> Boundary(sets[s.frames[i].unit].code, ResumeAt(s, i))
  }

  /** Every frame is at, or will resume at, an instruction boundary or the end of its code. */
  ghost predicate PcsOk(sets: seq<InstructionSet>, s: State) {
    forall i {:trigger PcOk(sets, s, i)} :: 0 <= i < |s.frames| ==> PcOk(sets, s, i)
  }

  /** Steps that stay in their frame. */
  lemma StayOk(sets: seq<InstructionSet>, s: State, t: State)
    requires PcsOk(sets, s) && |s.frames| > 0 && |t.frames| == |s.frames|
    requires forall i {:trigger t.frames[i]} :: 0 <= i < |s.frames| ==>
      t.frames[i] == s.frames[i].(locals := t.frames[i].locals)
    requires var f := s.frames[|s.frames| - 1]; f.unit < |sets| ==> Boundary(sets[f.unit].code, t.pc)
    ensures PcsOk(sets, t)
  {
    hide Boundary;
    forall i | 0 <= i < |t.frames| ensures PcOk(sets, t, i) {
      assert PcOk(sets, s, i);
      assert t.frames[i].unit == s.frames[i].unit;
      if i + 1 < |t.frames| { assert t.frames[i + 1].ret == s.frames[i + 1].ret; }
    }
  }

  lemma EnterOk(sets: seq<InstructionSet>, s: State, f: Frame)
    requires PcsOk(sets, s) && |s.frames| > 0
    requires var g := s.frames[|s.frames| - 1]; g.unit < |sets| ==> Boundary(sets[g.unit].code, f.ret)
    ensures PcsOk(sets, Enter(s, f))
  {
    var t := Enter(s, f);
    forall i | 0 <= i < |t.frames| ensures PcOk(sets, t, i) {
      if i < |s.frames| { assert PcOk(sets, s, i); }
    }
  }

  lemma LeaveOk(sets: seq<InstructionSet>, s: State)
    requires PcsOk(sets, s) && |s.frames| > 1
    ensures PcsOk(sets, Leaving(s))
  {
    hide Boundary;
    var t := Leaving(s);
    forall i | 0 <= i < |t.frames| ensures PcOk(sets, t, i) {
      assert PcOk(sets, s, i);
    }
  }

  /** One step keeps every pc at a boundary. */
  lemma StepKeepsPcs(sets: seq<InstructionSet>, h: Host, s: State)
    requires AllAligned(sets) && PcsOk(sets, s)
    ensures PcsOk(sets, Step(sets, h, s))
  {
    hide Exec, Boundary, Span, Decode;
    if Halted(sets, s) || |s.frames| == 0 || s.frames[|s.frames| - 1].unit >= |sets| {
      SameOk(sets, s, Step(sets, h, s));
    } else if AtEnd(sets, s) {
      LeaveOk(sets, s);
    } else {
      ExecKeepsPcs(sets, h, s);
    }
  }

  lemma SameOk(sets: seq<InstructionSet>, s: State, t: State)
    requires PcsOk(sets, s) && t.frames == s.frames && t.pc == s.pc
    ensures PcsOk(sets, t)
  {
    forall i | 0 <= i < |t.frames| ensures PcOk(sets, t, i) {
      assert PcOk(sets, s, i);
    }
  }

  /** The boundaries an instruction at s can go to. */
  lemma GoalsOk(sets: seq<InstructionSet>, s: State)
    requires AllAligned(sets) && PcsOk(sets, s) && |s.frames| > 0 && s.frames[|s.frames| - 1].unit < |sets|
    requires !AtEnd(sets, s)
    ensures
      var ins := sets[s.frames[|s.frames| - 1].unit];
      var i := Decode(ins, s.pc);
      && Boundary(ins.code, |ins.code|)
      && (!i.IOther? ==> Boundary(ins.code, s.pc + Len(i)))
      && (TargetOf(i).Some? ==> TargetOf(i).value >= 0 && Boundary(ins.code, TargetOf(i).value))
  {
    hide Decode;
    var top := |s.frames| - 1;
    var ins := sets[s.frames[top].unit];
    assert PcOk(sets, s, top) && Aligned(ins);
    SpanReaches(ins, 0, |ins.code|, Marks(ins.code));
    SpanAt(ins, 0, |ins.code|, s.pc, Marks(ins.code));
    ReachesTrans(ins.code, 0, s.pc, s.pc + 1 + ParamCount(ins.code[s.pc]));
    LenOfDecoded(ins, s.pc);
  }

  /** What one instruction may do to frames and pc: nothing, go on behind itself,
      jump to its target, finish the frame, or enter a new frame. */
  ghost predicate Effect(s: State, t: State, i: Instr, size: nat)
    requires |s.frames| > 0
  {
    || (t.frames == s.frames && t.pc == s.pc)
    || (&& |t.frames| == |s.frames|
        && (forall j {:trigger t.frames[j]} :: 0 <= j < |s.frames| ==>
            t.frames[j] == s.frames[j].(locals := t.frames[j].locals))
        && ((t.pc == s.pc + Len(i) && !i.IOther?) || t.pc == size || (TargetOf(i).Some? && t.pc == TargetOf(i).value)))
    || (|t.frames| == |s.frames| + 1 && !i.IOther?
        && t.frames == s.frames + [t.frames[|s.frames|]] && t.pc == 0 && t.frames[|s.frames|].ret == s.pc + Len(i))
  }

  lemma InvokeEffect(sets: seq<InstructionSet>, h: Host, s: State, i: Instr, size: nat, name: Name, argc: nat,
                     given: Option<ArgSet>, block: Option<BlockRef>)
    requires |s.frames| > 0 && !i.IOther?
    ensures Effect(s, Invoke(sets, h, s, s.pc + Len(i), name, argc, given, block), i, size)
  {
    hide BindValues;
  }

  lemma YieldEffect(s: State, i: Instr, size: nat, argc: nat)
    requires |s.frames| > 0 && !i.IOther?
    ensures Effect(s, YieldTo(s, s.pc + Len(i), argc), i, size)
  {
  }

  lemma InsertEffect(sets: seq<InstructionSet>, h: Host, s: State, i: Instr, size: nat)
    requires |s.frames| > 0 && s.frames[|s.frames| - 1].unit < |sets| && (i.ISetLocal? || i.ISetOptional?)
    ensures Effect(s, Exec(sets, h, s, i), i, size)
  {
    hide Climb, Slot, Fill, Invoke, YieldTo;
  }

  /** The instructions that leave the frames alone. */
  lemma QuietEffect(sets: seq<InstructionSet>, h: Host, s: State, i: Instr)
    requires |s.frames| > 0 && s.frames[|s.frames| - 1].unit < |sets|
    requires !i.ISetLocal? && !i.ISetOptional? && !i.ISend? && !i.IBinary? && !i.IArith? && !i.IInvokeBlock?
    ensures var t := Exec(sets, h, s, i);
      && t.frames == s.frames
      && (t.pc == s.pc || (t.pc == s.pc + Len(i) && !i.IOther?) || t.pc == |sets[s.frames[|s.frames| - 1].unit].code|
          || (TargetOf(i).Some? && t.pc == TargetOf(i).value))
  {
    hide Invoke, YieldTo, Climb, Slot, Expanded, Truthy, Insert;
  }

  lemma ExecEffect(sets: seq<InstructionSet>, h: Host, s: State, i: Instr)
    requires |s.frames| > 0 && s.frames[|s.frames| - 1].unit < |sets|
    ensures Effect(s, Exec(sets, h, s, i), i, |sets[s.frames[|s.frames| - 1].unit].code|)
  {
    hide Invoke, YieldTo, Insert, Arithmetic;
    var size := |sets[s.frames[|s.frames| - 1].unit].code|;
    match i
    case ISend(name, argc, unit, given) =>
      if argc >= 0 {
        InvokeEffect(sets, h, s, i, size, name, argc, given,
                     if unit.Some? then Some(BlockRef(unit.value, |s.frames| - 1)) else None);
      }
    case IBinary(name) => InvokeEffect(sets, h, s, i, size, name, 1, None, None);
    case IArith(op, name) => InvokeEffect(sets, h, s, i, size, name, 1, None, None);
    case IInvokeBlock(argc) => if argc >= 0 { YieldEffect(s, i, size, argc); }
    case ISetLocal(_, _) => InsertEffect(sets, h, s, i, size);
    case ISetOptional(_, _) => InsertEffect(sets, h, s, i, size);
    case _ => QuietEffect(sets, h, s, i);
  }

  lemma ExecKeepsPcs(sets: seq<InstructionSet>, h: Host, s: State)
    requires AllAligned(sets) && PcsOk(sets, s) && |s.frames| > 0 && s.frames[|s.frames| - 1].unit < |sets|
    requires !AtEnd(sets, s)
    ensures PcsOk(sets, Exec(sets, h, s, Decode(sets[s.frames[|s.frames| - 1].unit], s.pc)))
  {
    hide Boundary, Span, Decode, AllAligned, PcsOk, Exec;
    var i := Decode(sets[s.frames[|s.frames| - 1].unit], s.pc);
    GoalsOk(sets, s);
    ExecEffect(sets, h, s, i);
    var t := Exec(sets, h, s, i);
    if t.frames == s.frames && t.pc == s.pc {
      SameOk(sets, s, t);
    } else if |t.frames| == |s.frames| {
      StayOk(sets, s, t);
    } else {
      EnterOk(sets, s, t.frames[|s.frames|]);
      SameOk(sets, Enter(s, t.frames[|s.frames|]), t);
    }
  }

  /** Every pc of every run is a boundary or the end of its code. */
  lemma {:induction false} RunKeepsPcs(sets: seq<InstructionSet>, h: Host, s: State, n: nat)
    requires AllAligned(sets) && PcsOk(sets, s)
    ensures PcsOk(sets, Run(sets, h, s, n))
    decreases n
  {
    hide Step, AllAligned, PcsOk;
    if n > 0 {
      StepKeepsPcs(sets, h, s);
      RunKeepsPcs(sets, h, Step(sets, h, s), n - 1);
    }
  }
}
