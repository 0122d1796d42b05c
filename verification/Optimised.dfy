/**
 Running elided code.  A set with one jump rewritten takes the same steps as
 before, except that two of them may have become one; from there to whole
 passes over all sets, and to any number of passes, is a matter of chaining.
 */
module Optimised {
  import opened Wrappers
  import opened Ast
  import opened Bytecode
  import opened Binding
  import opened Machine
  import opened Boundaries
  import opened Elide

  /** Sets that differ in code only, slot for slot. */
  ghost predicate SameShape(a: seq<InstructionSet>, b: seq<InstructionSet>) {
    && |a| == |b|
    && forall k {:trigger a[k]} {:trigger b[k]} :: 0 <= k < |a| ==>
         a[k].params == b[k].params && |a[k].code| == |b[k].code|
  }

  /** An instruction does the same whatever the other code of the program is. */
  lemma ExecSame(a: seq<InstructionSet>, b: seq<InstructionSet>, h: Host, s: State, i: Instr)
    requires SameShape(a, b) && |s.frames| > 0 && s.frames[|s.frames| - 1].unit < |a|
    ensures Exec(a, h, s, i) == Exec(b, h, s, i)
  {
    hide Climb, Insert, YieldTo, Expanded, BindValues, Arithmetic, Fill, Slot;
  }

  function RewriteSet(sets: seq<InstructionSet>, k: nat, i: nat): seq<InstructionSet>
    requires k < |sets| && i < |sets[k].code|
  {
    sets[k := Rewritten(sets[k], i)]
  }

  /** One step of the rewritten code is one or two steps of the code as it was. */
  lemma RewriteStep(sets: seq<InstructionSet>, h: Host, k: nat, i: nat, s: State) returns (m: nat)
    requires AllAligned(sets) && PcsOk(sets, s) && k < |sets| && i < |sets[k].code| && Boundary(sets[k].code, i)
    ensures m == 1 || m == 2
    ensures Step(RewriteSet(sets, k, i), h, s) == if m == 1 then Step(sets, h, s) else Step(sets, h, Step(sets, h, s))
  {
    hide Exec, Decode, Aligned, Threaded, Boundary;
    var now := RewriteSet(sets, k, i);
    assert SameShape(sets, now);
    m := 1;
    if !Halted(sets, s) && |s.frames| > 0 && s.frames[|s.frames| - 1].unit < |sets| && !AtEnd(sets, s) {
      var u := s.frames[|s.frames| - 1].unit;
      assert PcOk(sets, s, |s.frames| - 1) && Aligned(sets[u]) && Aligned(sets[k]);
      RewrittenThere(sets[k], i);
      AlignedAt(sets[u], s.pc);
      ExecSame(sets, now, h, s, Decode(now[u], s.pc));
      if u == k && s.pc == i && !Kept(sets[k], i) {
        m := JumpStep(sets, h, k, i, s);
      } else if u == k && s.pc != i {
        DecodeElsewhere(sets[k], i, s.pc);
      }
    }
  }

  /** At the rewritten jump itself. */
  lemma JumpStep(sets: seq<InstructionSet>, h: Host, k: nat, i: nat, s: State) returns (m: nat)
    requires k < |sets| && i < |sets[k].code| && (Left(sets[k], i) || Passed(sets[k], i)) && Aligned(sets[k])
    requires !Halted(sets, s) && |s.frames| > 0 && s.frames[|s.frames| - 1].unit == k && s.pc == i
    ensures m == 1 || m == 2
    ensures Exec(sets, h, s, Decode(Rewritten(sets[k], i), i)) ==
            if m == 1 then Step(sets, h, s) else Step(sets, h, Step(sets, h, s))
  {
    hide Decode, Boundary, Threaded, Aligned;
    var t := Decode(sets[k], i).target;
    if Passed(sets[k], i) { AlignedAt(sets[k], t); }
    m := if t == |sets[k].code| then 1 else 2;
  }

  lemma RewriteKeeps(sets: seq<InstructionSet>, k: nat, i: nat, s: State)
    requires AllAligned(sets) && PcsOk(sets, s) && k < |sets| && i < |sets[k].code| && Boundary(sets[k].code, i)
    ensures AllAligned(RewriteSet(sets, k, i)) && PcsOk(RewriteSet(sets, k, i), s)
  {
    hide Boundary, Span, Aligned, Threaded;
    var now := RewriteSet(sets, k, i);
    assert Aligned(sets[k]);
    RewrittenAligned(sets[k], i);
    forall j | 0 <= j < |now| ensures Aligned(now[j]) {
      assert Aligned(sets[j]);
    }
    forall j | 0 <= j < |s.frames| ensures PcOk(now, s, j) {
      assert PcOk(sets, s, j);
      if s.frames[j].unit == k { BoundaryKept(sets[k], i, ResumeAt(s, j)); }
    }
  }

  /** n steps of the rewritten code are at least n steps of the code as it was. */
  lemma {:induction false} RewriteRun(sets: seq<InstructionSet>, h: Host, k: nat, i: nat, s: State, n: nat)
    returns (m: nat)
    requires AllAligned(sets) && PcsOk(sets, s) && k < |sets| && i < |sets[k].code| && Boundary(sets[k].code, i)
    ensures m >= n && Run(RewriteSet(sets, k, i), h, s, n) == Run(sets, h, s, m)
    decreases n
  {
    hide Step, AllAligned, PcsOk, Boundary, RewriteSet;
    m := 0;
    if n > 0 {
      var d := RewriteStep(sets, h, k, i, s);
      StepKeepsPcs(sets, h, s);
      var t := Step(sets, h, s);
      if d == 2 {
        StepKeepsPcs(sets, h, t);
        t := Step(sets, h, t);
      }
      var r := RewriteRun(sets, h, k, i, t, n - 1);
      m := d + r;
      RunSplit(sets, h, s, d, r);
      RunSplit(RewriteSet(sets, k, i), h, s, 1, n - 1);
      RunOnce(RewriteSet(sets, k, i), h, s);
      RunOnce(sets, h, s);
      if d == 2 { RunOnce(sets, h, Step(sets, h, s)); RunSplit(sets, h, s, 1, 1); }
    }
  }

  // ------------------------------------------------------------- the passes

  function SetElidedFrom(sets: seq<InstructionSet>, k: nat, i: nat): seq<InstructionSet>
    requires k < |sets|
  {
    sets[k := sets[k].(code := ElidedFrom(sets[k].code, i))]
  }

  function SetElided(sets: seq<InstructionSet>, k: nat): (e: seq<InstructionSet>)
    ensures |e| == |sets|
  {
    if k < |sets| then SetElidedFrom(sets, k, 0) else sets
  }

  /** The pass over the listed sets in turn.  GenerateInstructions runs it over
      all complete sets each time it is called, so a set may be listed often. */
  function SetsElided(sets: seq<InstructionSet>, order: seq<nat>): (e: seq<InstructionSet>)
    ensures |e| == |sets|
  {
    if order == [] then sets else SetElided(SetsElided(sets, order[..|order| - 1]), order[|order| - 1])
  }

  /** The pass over one set, from boundary i on. */
  lemma {:induction false} SetRun(sets: seq<InstructionSet>, h: Host, k: nat, i: nat, s: State, n: nat) returns (m: nat)
    requires AllAligned(sets) && PcsOk(sets, s) && k < |sets| && Boundary(sets[k].code, i)
    ensures m >= n && Run(SetElidedFrom(sets, k, i), h, s, n) == Run(sets, h, s, m)
    ensures AllAligned(SetElidedFrom(sets, k, i)) && PcsOk(SetElidedFrom(sets, k, i), s)
    ensures SameShape(sets, SetElidedFrom(sets, k, i))
    decreases |sets[k].code| - i
  {
    hide Aligned, PcsOk, Boundary, Threaded, Step, Iterate, Decode, ParamCount;
    if i >= |sets[k].code| {
      AtTheEnd(sets[k].code, i);
      assert SetElidedFrom(sets, k, i) == sets;
      m := n;
    } else {
      var now := RewriteSet(sets, k, i);
      assert Aligned(sets[k]);
      RewriteKeeps(sets, k, i, s);
      AlignedAt(sets[k], i);
      BoundaryKept(sets[k], i, i + 1 + ParamCount(sets[k].code[i]));
      ElidedNext(sets[k].code, i);
      assert SetElidedFrom(sets, k, i) == SetElidedFrom(now, k, i + 1 + ParamCount(sets[k].code[i]));
      m := SetRun(now, h, k, i + 1 + ParamCount(sets[k].code[i]), s, n);
      m := RewriteRun(sets, h, k, i, s, m);
    }
  }

  lemma SameShapeTrans(a: seq<InstructionSet>, b: seq<InstructionSet>, c: seq<InstructionSet>)
    requires SameShape(a, b) && SameShape(b, c)
    ensures SameShape(a, c)
  {
  }

  /** However often and in whatever order sets are elided: n steps of the elided
      code are at least n steps of the code as it was. */
  lemma {:induction false} SetsRun(sets: seq<InstructionSet>, h: Host, order: seq<nat>, s: State, n: nat)
    returns (m: nat)
    requires AllAligned(sets) && PcsOk(sets, s)
    ensures m >= n && Run(SetsElided(sets, order), h, s, n) == Run(sets, h, s, m)
    ensures AllAligned(SetsElided(sets, order)) && PcsOk(SetsElided(sets, order), s)
    ensures SameShape(sets, SetsElided(sets, order))
    decreases |order|
  {
    hide Aligned, AllAligned, PcsOk, Boundary, Iterate, Step, ElidedFrom;
    m := n;
    if order != [] {
      var rest, k := order[..|order| - 1], order[|order| - 1];
      var before := SetsElided(sets, rest);
      m := SetsRun(sets, h, rest, s, 0);
      m := n;
      if k < |before| {
        ReachedBoundary(before[k].code, 0);
        m := SetRun(before, h, k, 0, s, n);
        SameShapeTrans(sets, before, SetElidedFrom(before, k, 0));
      }
      m := SetsRun(sets, h, rest, s, m);
    }
  }

  lemma StaysAligned(sets: seq<InstructionSet>, order: seq<nat>)
    requires AllAligned(sets)
    ensures AllAligned(SetsElided(sets, order))
  {
    hide AllAligned, SetsElided;
    var h := Host(v => 0, (k, v, x) => Missing, (w, v, x, args) => (w, Got(NilV)));
    var m := SetsRun(sets, h, order, State(0, [], [], map[], map[], Running), 0);
  }

  lemma NoSuchSet(sets: seq<InstructionSet>, k: nat)
    requires k >= |sets|
    ensures SetElided(sets, k) == sets
  {
  }

  /** Halting depends on the lengths of the code only. */
  lemma HaltedSame(a: seq<InstructionSet>, b: seq<InstructionSet>, s: State)
    requires SameShape(a, b)
    ensures Halted(a, s) <==> Halted(b, s)
  {
  }

  /** The theorem: from any state at boundaries, elided code halts exactly when
      the original does, in the very same state: same stack, locals and world. */
  lemma ElidedSame(sets: seq<InstructionSet>, h: Host, order: seq<nat>, s: State)
    requires AllAligned(sets) && PcsOk(sets, s)
    ensures forall n: nat {:trigger Run(sets, h, s, n)} :: Halted(sets, Run(sets, h, s, n)) ==>
              Run(SetsElided(sets, order), h, s, n) == Run(sets, h, s, n)
    ensures (exists n: nat :: Halted(sets, Run(sets, h, s, n)))
       <==> (exists n: nat :: Halted(SetsElided(sets, order), Run(SetsElided(sets, order), h, s, n)))
  {
    hide AllAligned, PcsOk, SetsElided, Iterate, Run, Halted;
    var now := SetsElided(sets, order);
    forall n: nat | Halted(sets, Run(sets, h, s, n))
      ensures Run(now, h, s, n) == Run(sets, h, s, n) && Halted(now, Run(now, h, s, n))
    {
      var m := SetsRun(sets, h, order, s, n);
      HaltedStays(sets, h, s, n, m);
      HaltedSame(sets, now, Run(sets, h, s, n));
    }
    if n: nat :| Halted(now, Run(now, h, s, n)) {
      var m := SetsRun(sets, h, order, s, n);
      HaltedSame(sets, now, Run(now, h, s, n));
    }
  }
}
