/**
 Which block `yield` runs (InvokeBlock in vm/instruction.go), over whole runs of
 arbitrary code: the block of the method the text stands in, as long as at most
 one block stands between the two; any deeper, the enclosing block itself.
 */
module Yields {
  import opened Wrappers
  import opened Ast
  import opened Bytecode
  import opened Binding
  import opened Machine
  import Correctness
  import Interpreters
  import Relation

  /** A frame that runs a block has the block's environment, and every link points down. */
  ghost predicate LinkedDown(frames: seq<Frame>, i: nat)
    requires i < |frames|
  {
    var f := frames[i];
    && (f.block.Some? ==> f.block.value.ep < i)
    && (f.ep.Some? ==> f.block == Some(BlockRef(f.unit, f.ep.value)))
  }

  ghost predicate AllLinked(frames: seq<Frame>) {
    forall i {:trigger LinkedDown(frames, i)} :: 0 <= i < |frames| ==> LinkedDown(frames, i)
  }

  /** The frame of the method or program that the text of frame i stands in. */
  function HomeOf(frames: seq<Frame>, i: nat): (r: nat)
    requires i < |frames|
    ensures r <= i
    decreases i
  {
    if frames[i].ep.Some? && frames[i].ep.value < i then HomeOf(frames, frames[i].ep.value) else i
  }

  /** How many blocks stand between them. */
  function Nesting(frames: seq<Frame>, i: nat): nat
    requires i < |frames|
    decreases i
  {
    if frames[i].ep.Some? && frames[i].ep.value < i then Nesting(frames, frames[i].ep.value) + 1 else 0
  }

  lemma KeepsLinks(before: seq<Frame>, after: seq<Frame>)
    requires AllLinked(before) && |before| <= |after| <= |before| + 1
    requires forall i :: 0 <= i < |before| ==> after[i] == before[i].(locals := after[i].locals)
    requires |after| > |before| ==> LinkedDown(after, |before|)
    ensures AllLinked(after)
  {
    forall i | 0 <= i < |after| ensures LinkedDown(after, i) {
      if i < |before| { assert LinkedDown(before, i); }
    }
  }

  lemma InvokeLinked(p: seq<InstructionSet>, h: Host, s: State, next: nat, name: Name, argc: nat, given: Option<ArgSet>,
                     block: Option<BlockRef>)
    requires AllLinked(s.frames) && (block.Some? ==> block.value.ep < |s.frames|)
    ensures AllLinked(Invoke(p, h, s, next, name, argc, given, block).frames)
  {
    hide AllLinked, BindValues;
    KeepsLinks(s.frames, Invoke(p, h, s, next, name, argc, given, block).frames);
  }

  lemma YieldLinked(s: State, next: nat, argc: nat)
    requires |s.frames| > 0 && AllLinked(s.frames)
    ensures AllLinked(YieldTo(s, next, argc).frames)
  {
    assert LinkedDown(s.frames, |s.frames| - 1);
    var f := s.frames[|s.frames| - 1];
    if f.block.Some? { assert LinkedDown(s.frames, f.block.value.ep); }
    KeepsLinks(s.frames, YieldTo(s, next, argc).frames);
  }

  lemma PlainLinked(p: seq<InstructionSet>, h: Host, s: State, i: Instr)
    requires |s.frames| > 0 && s.frames[|s.frames| - 1].unit < |p| && AllLinked(s.frames)
    requires !i.ISend? && !i.IBinary? && !i.IInvokeBlock? && !i.IArith?
    ensures AllLinked(Exec(p, h, s, i).frames)
  {
    hide Exec, AllLinked;
    Interpreters.PlainExecFrames(p, h, s, i);
    KeepsLinks(s.frames, Exec(p, h, s, i).frames);
  }

  lemma InitialLinked(k: nat, self: Value, world: World)
    ensures AllLinked(Correctness.Initial(k, self, world).frames)
  {
  }

  lemma ExecLinked(p: seq<InstructionSet>, h: Host, s: State, i: Instr)
    requires |s.frames| > 0 && s.frames[|s.frames| - 1].unit < |p| && AllLinked(s.frames)
    ensures AllLinked(Exec(p, h, s, i).frames)
  {
    hide Invoke, YieldTo, AllLinked, Climb, Slot, Fill, Insert, Expanded, Arithmetic, Truthy;
    match i
    case ISend(name, argc, unit, given) =>
      if argc >= 0 {
        InvokeLinked(p, h, s, s.pc + 5, name, argc, given,
                     if unit.Some? then Some(BlockRef(unit.value, |s.frames| - 1)) else None);
      }
    case IBinary(name) => InvokeLinked(p, h, s, s.pc + 2, name, 1, None, None);
    case IArith(_, name) =>
      if !Interpreters.TwoIntegers(s.stack) { InvokeLinked(p, h, s, s.pc + 2, name, 1, None, None); }
    case IInvokeBlock(argc) => if argc >= 0 { YieldLinked(s, s.pc + 2, argc); }
    case _ => PlainLinked(p, h, s, i);
  }

  lemma StepLinked(p: seq<InstructionSet>, h: Host, s: State)
    requires AllLinked(s.frames)
    ensures AllLinked(Step(p, h, s).frames)
  {
    hide Exec, Decode;
    if |s.frames| > 0 && s.frames[|s.frames| - 1].unit < |p| {
      if AtEnd(p, s) {
        var left := s.frames[..|s.frames| - 1];
        forall i | 0 <= i < |left| ensures LinkedDown(left, i) {
          assert LinkedDown(s.frames, i);
        }
      } else {
        ExecLinked(p, h, s, Decode(p[s.frames[|s.frames| - 1].unit], s.pc));
      }
    }
  }

  /** In every state of every run of any code, links point down. */
  lemma {:induction false} RunLinked(p: seq<InstructionSet>, h: Host, k: nat, self: Value, world: World, n: nat)
    ensures AllLinked(Run(p, h, Correctness.Initial(k, self, world), n).frames)
    decreases n
  {
    hide Step, AllLinked, Iterate;
    var s := Correctness.Initial(k, self, world);
    if n == 0 {
      RunNothing(p, h, s);
      InitialLinked(k, self, world);
    } else {
      RunLinked(p, h, k, self, world, n - 1);
      RunSplit(p, h, s, n - 1, 1);
      RunOnce(p, h, Run(p, h, s, n - 1));
      StepLinked(p, h, Run(p, h, s, n - 1));
    }
  }

  /** t is s with the block entered, or, of no block, with the error raised. */
  predicate Yielded(s: State, t: State, block: Option<BlockRef>) {
    match block
    case None => t == s.(status := Raised(InternalError))
    case Some(b) =>
      && |t.frames| == |s.frames| + 1 && t.frames[..|s.frames|] == s.frames && t.status == s.status && t.pc == 0
      && t.frames[|s.frames|].unit == b.unit && t.frames[|s.frames|].ep == Some(b.ep)
      && t.frames[|s.frames|].block == block
  }

  lemma {:induction false} HomeIsMethod(frames: seq<Frame>, i: nat)
    requires AllLinked(frames) && i < |frames|
    ensures frames[HomeOf(frames, i)].ep.None?
    ensures frames[i].ep.Some? ==> HomeOf(frames, i) <= frames[i].ep.value
    decreases i
  {
    assert LinkedDown(frames, i);
    if frames[i].ep.Some? { HomeIsMethod(frames, frames[i].ep.value); }
  }

  /** In every state a run of any code comes to: yield runs the block of the method its text
      stands in if and only if the text stands at most one block deep; any deeper, it runs
      the block that encloses it once more. */
  lemma YieldRunsHomeBlock(p: seq<InstructionSet>, h: Host, k: nat, self: Value, world: World, n: nat, next: nat,
                           argc: nat)
    requires
      var s := Run(p, h, Correctness.Initial(k, self, world), n);
      s.status == Running && |s.frames| > 0 && argc < |s.stack|
    ensures
      var s := Run(p, h, Correctness.Initial(k, self, world), n);
      var t, top := YieldTo(s, next, argc), |s.frames| - 1;
      && (Yielded(s, t, s.frames[HomeOf(s.frames, top)].block) <==> Nesting(s.frames, top) <= 1)
      && (Nesting(s.frames, top) > 1 ==>
            var e := s.frames[top].ep.value;
            e < top && s.frames[e].ep.Some? && Yielded(s, t, Some(BlockRef(s.frames[e].unit, s.frames[e].ep.value))))
  {
    hide Run;
    RunLinked(p, h, k, self, world, n);
    YieldTarget(Run(p, h, Correctness.Initial(k, self, world), n), next, argc);
  }

  lemma YieldTarget(s: State, next: nat, argc: nat)
    requires AllLinked(s.frames) && s.status == Running && |s.frames| > 0 && argc < |s.stack|
    ensures
      var t, top := YieldTo(s, next, argc), |s.frames| - 1;
      && (Yielded(s, t, s.frames[HomeOf(s.frames, top)].block) <==> Nesting(s.frames, top) <= 1)
      && (Nesting(s.frames, top) > 1 ==>
            var e := s.frames[top].ep.value;
            e < top && s.frames[e].ep.Some? && Yielded(s, t, Some(BlockRef(s.frames[e].unit, s.frames[e].ep.value))))
  {
    var top := |s.frames| - 1;
    var f := s.frames[top];
    assert LinkedDown(s.frames, top);
    if f.ep.Some? {
      var e := f.ep.value;
      assert LinkedDown(s.frames, e);
      HomeIsMethod(s.frames, e);
      assert LinkedDown(s.frames, HomeOf(s.frames, e));
    }
  }
}
