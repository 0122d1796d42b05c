/**
 The jump-threading pass over finished code (elide in
 compiler/bytecode/instruction.go).  Each rewriting replaces two steps of the
 machine by one or changes nothing, so however often the pass runs, elided code
 does what the code it was made from does.
 */
module Elide {
  import opened Wrappers
  import opened Ast
  import opened Bytecode
  import opened Binding
  import opened Machine
  import opened Boundaries

  /** What the pass does at the instruction at i.  On aligned code the slots read
      here exist; on other code the original may panic instead. */
  function Threaded(code: seq<int>, i: nat): (r: seq<int>)
    requires i < |code|
    ensures |r| == |code|
  {
    if code[i] != JUMP || i + 1 == |code| || code[i + 1] < 0 then code
    else
      var target := code[i + 1];
      if target >= |code| || code[target] == LEAVE then code[i := LEAVE][i + 1 := NO_OP]
      else if code[target] == JUMP && target + 1 < |code| then code[i + 1 := code[target + 1]]
      else code
  }

  /** The pass from i on: code already rewritten is read again as a target. */
  function ElidedFrom(code: seq<int>, i: nat): (r: seq<int>)
    ensures |r| == |code|
    decreases |code| - i
  {
    if i >= |code| then code else ElidedFrom(Threaded(code, i), i + 1 + ParamCount(code[i]))
  }

  function Elided(code: seq<int>): seq<int> {
    ElidedFrom(code, 0)
  }

  /** What the pass may read: every jump has its operand, which is a boundary or beyond the end. */
  ghost predicate Readable(code: seq<int>, i: nat)
    requires i < |code|
  {
    && IsOpcode(code[i])
    && (code[i] == JUMP ==>
        i + 1 < |code| && 0 <= code[i + 1] && (code[i + 1] < |code| ==> Boundary(code, code[i + 1])))
  }

  /** The pass, in place. */
  method ElideInPlace(a: array<int>)
    requires forall i: nat {:trigger Boundary(a[..], i)} :: i < a.Length && Boundary(a[..], i) ==> Readable(a[..], i)
    modifies a
    ensures a[..] == Elided(old(a[..]))
  {
    hide Boundary, Elided, ElidedFrom, ParamCount;
    assert Elided(a[..]) == ElidedFrom(a[..], 0) && Boundary(a[..], 0) by { Start(a[..]); }
    ghost var was := a[..];
    var i := 0;
    while i < a.Length
      invariant 0 <= i
      invariant ElidedFrom(a[..], i) == Elided(was)
      invariant forall j :: i <= j < a.Length ==> a[j] == was[j]
      invariant Boundary(was, i)
      invariant forall j: nat {:trigger Boundary(was, j)} :: Boundary(was, j) && j < a.Length && a[j] == JUMP ==>
        was[j] == JUMP
    {
      var op := a[i];
      ghost var before := a[..];
      assert Readable(was, i);
      NextBoundary(was, i);
      if op == JUMP {
        assert ParamCount(JUMP) == 1 by { OneOperand(); }
        forall j: nat | Boundary(was, j) ensures j != i + 1 { BetweenBoundaries(was, i, j); }
        var target := a[i + 1];
        if target >= a.Length || a[target] == LEAVE {
          a[i] := LEAVE;
          a[i + 1] := NO_OP;
        } else if a[target] == JUMP {
          assert Readable(was, target);
          a[i + 1] := a[target + 1];
        }
      }
      assert a[..] == Threaded(before, i);
      ElidedNext(before, i);
      i := i + 1 + ParamCount(op);
    }
    AtTheEnd(a[..], i);
  }

  lemma ElidedNext(code: seq<int>, i: nat)
    requires i < |code|
    ensures ElidedFrom(code, i) == ElidedFrom(Threaded(code, i), i + 1 + ParamCount(code[i]))
  {
    hide Threaded;
  }

  lemma AtTheEnd(code: seq<int>, i: nat)
    requires i >= |code|
    ensures ElidedFrom(code, i) == code
  {
  }

  lemma OneOperand()
    ensures ParamCount(JUMP) == 1
  {
  }

  lemma Start(code: seq<int>)
    ensures Elided(code) == ElidedFrom(code, 0) && Boundary(code, 0)
  {
  }

  // -------------------------------------------------- what the pass achieves

  /** What stands at k when the pass comes to the instruction at i: behind it everything is rewritten already. */
  function Meanwhile(code: seq<int>, done: seq<int>, i: nat, k: nat): int
    requires |code| == |done| && k < |code|
  {
    if k < i then done[k] else code[k]
  }

  /** The instruction at i as the pass leaves it: a jump to the end or to a Leave leaves by itself; a jump to a jump
      goes where that one goes; anything else is as it was. */
  ghost predicate Achieved(code: seq<int>, done: seq<int>, i: nat)
    requires i < |code| == |done|
  {
    if code[i] != JUMP then
      forall k :: i <= k <= i + ParamCount(code[i]) && k < |code| ==> done[k] == code[k]
    else
      && i + 1 < |code| && code[i + 1] >= 0
      && var t := code[i + 1];
         if t >= |code| || Meanwhile(code, done, i, t) == LEAVE then done[i] == LEAVE && done[i + 1] == NO_OP
         else if Meanwhile(code, done, i, t) == JUMP then
           t + 1 < |code| && done[i] == JUMP && done[i + 1] == Meanwhile(code, done, i, t + 1)
         else done[i] == JUMP && done[i + 1] == t
  }

  lemma {:induction false} BehindKept(code: seq<int>, i: nat, k: nat)
    requires k < i && k < |code|
    ensures ElidedFrom(code, i)[k] == code[k]
    decreases |code| - i
  {
    if i < |code| {
      BehindKept(Threaded(code, i), i + 1 + ParamCount(code[i]), k);
      assert Threaded(code, i)[k] == code[k];
    }
  }

  /** A jump the jump goes to has its operand. */
  predicate JumpsWell(code: seq<int>, i: nat)
    requires i < |code|
  {
    code[i] == JUMP && i + 1 < |code| && 0 <= code[i + 1] < |code| && code[code[i + 1]] == JUMP ==>
      code[i + 1] + 1 < |code|
  }

  lemma AchievedHere(code: seq<int>, cur: seq<int>, i: nat)
    requires i < |code| == |cur| && Readable(code, i) && (forall k :: i <= k < |code| ==> cur[k] == code[k])
    requires JumpsWell(code, i)
    ensures Achieved(code, ElidedFrom(cur, i), i)
  {
    hide ElidedFrom, Threaded, ParamCount;
    var n, next := i + 1 + ParamCount(code[i]), Threaded(cur, i);
    ElidedNext(cur, i);
    forall k | 0 <= k < n && k < |code| ensures ElidedFrom(cur, i)[k] == next[k] { BehindKept(next, n, k); }
    forall k | 0 <= k < i ensures ElidedFrom(cur, i)[k] == cur[k] { BehindKept(cur, i, k); }
    OneOperand();
    ThreadedHere(cur, i);
  }

  lemma ThreadedHere(cur: seq<int>, i: nat)
    requires i < |cur|
    ensures cur[i] != JUMP ==> Threaded(cur, i) == cur
    ensures cur[i] == JUMP && i + 1 < |cur| && cur[i + 1] >= 0 ==>
              var t, r := cur[i + 1], Threaded(cur, i);
              if t >= |cur| || cur[t] == LEAVE then r[i] == LEAVE && r[i + 1] == NO_OP
              else if cur[t] == JUMP && t + 1 < |cur| then r[i] == JUMP && r[i + 1] == cur[t + 1]
              else r[i] == JUMP && r[i + 1] == t
  {
  }

  lemma {:induction false} AchievedFrom(code: seq<int>, cur: seq<int>, i: nat, j: nat)
    requires |code| == |cur| && Reaches(code, i, j) && j < |code| && (forall k :: i <= k < |code| ==> cur[k] == code[k])
    requires forall k: nat {:trigger Reaches(code, i, k)} :: Reaches(code, i, k) && k < |code| ==> Readable(code, k)
    requires JumpsWell(code, j)
    ensures Achieved(code, ElidedFrom(cur, i), j)
    decreases j - i
  {
    assert Reaches(code, i, i) && Readable(code, i);
    if i == j {
      AchievedHere(code, cur, i);
    } else {
      hide Achieved, ElidedFrom;
      var n, next := i + 1 + ParamCount(code[i]), Threaded(cur, i);
      ElidedNext(cur, i);
      forall k: nat | Reaches(code, n, k) ensures Reaches(code, i, k) {
        assert Reaches(code, i, n) by { assert Reaches(code, n, n); }
        ReachesTrans(code, i, n, k);
      }
      AchievedFrom(code, next, n, j);
    }
  }

  /** What one pass over aligned code achieves, at each of its instructions. */
  lemma ElideAchieves(code: seq<int>, i: nat)
    requires forall k: nat {:trigger Boundary(code, k)} :: Boundary(code, k) && k < |code| ==> Readable(code, k)
    requires Boundary(code, i) && i < |code|
    ensures Achieved(code, Elided(code), i)
  {
    hide Achieved, ElidedFrom;
    assert Readable(code, i);
    if code[i] == JUMP && code[i + 1] < |code| { assert Readable(code, code[i + 1]); }
    forall k: nat | Reaches(code, 0, k) && k < |code| ensures Readable(code, k) { assert Boundary(code, k); }
    AchievedFrom(code, code, 0, i);
  }

  // ------------------------------------------------- one rewriting is sound

  function Rewritten(ins: InstructionSet, i: nat): InstructionSet
    requires i < |ins.code|
  {
    ins.(code := Threaded(ins.code, i))
  }

  /** Nothing but the two slots of the jump changes. */
  lemma DecodeElsewhere(ins: InstructionSet, i: nat, pc: nat)
    requires Boundary(ins.code, i) && Boundary(ins.code, pc) && i < |ins.code| && pc < |ins.code| && pc != i
    requires IsOpcode(ins.code[i]) && IsOpcode(ins.code[pc])
    ensures Rewritten(ins, i).code[pc] == ins.code[pc] && Decode(Rewritten(ins, i), pc) == Decode(ins, pc)
  {
    hide Boundary;
    BetweenBoundaries(ins.code, i, pc);
    BetweenBoundaries(ins.code, pc, i);
    var c := Rewritten(ins, i).code;
    assert forall j :: pc <= j <= pc + ParamCount(ins.code[pc]) && j < |c| ==> c[j] == ins.code[j];
  }

  ghost predicate Kept(ins: InstructionSet, i: nat)
    requires i < |ins.code|
  {
    Rewritten(ins, i) == ins
  }

  /** A jump to a Leave or to the end has become Leave and NoOp. */
  ghost predicate Left(ins: InstructionSet, i: nat)
    requires i < |ins.code|
  {
    && Decode(ins, i).IJump? && i + 1 < |ins.code|
    && Rewritten(ins, i).code[i] == LEAVE && Rewritten(ins, i).code[i + 1] == NO_OP
    && Decode(Rewritten(ins, i), i) == ILeave
    && var t := Decode(ins, i).target;
       (t == |ins.code| || (0 <= t < |ins.code| && Decode(ins, t) == ILeave))
  }

  /** A jump to a jump has taken over its target. */
  ghost predicate Passed(ins: InstructionSet, i: nat)
    requires i < |ins.code|
  {
    && Decode(ins, i).IJump? && Decode(Rewritten(ins, i), i).IJump? && Rewritten(ins, i).code[i] == JUMP
    && var t := Decode(ins, i).target;
       0 <= t < |ins.code| && Boundary(ins.code, t) && Decode(ins, t) == Decode(Rewritten(ins, i), i)
  }

  /** What an aligned set has at i, and what the pass makes of it. */
  lemma RewrittenThere(ins: InstructionSet, i: nat)
    requires Aligned(ins) && Boundary(ins.code, i) && i < |ins.code|
    ensures IsOpcode(ins.code[i]) && IsOpcode(Rewritten(ins, i).code[i])
    ensures Kept(ins, i) || Left(ins, i) || Passed(ins, i)
  {
    hide Boundary, Aligned;
    AlignedAt(ins, i);
    if ins.code[i] == JUMP {
      var t := ins.code[i + 1];
      if t < |ins.code| { AlignedAt(ins, t); }
    }
  }

  lemma BeyondEnd(code: seq<int>, t: nat)
    requires Boundary(code, t) && Boundary(code, |code|)
    ensures t <= |code|
  {
    if t > |code| { ReachesSplit(code, 0, |code|, t); }
  }

  /** Boundaries stay boundaries. */
  lemma {:induction false} ReachesKept(ins: InstructionSet, i: nat, a: nat, b: nat)
    requires Aligned(ins) && Boundary(ins.code, i) && i < |ins.code| && Boundary(ins.code, a) && Reaches(ins.code, a, b)
    ensures Reaches(Rewritten(ins, i).code, a, b)
    decreases b - a
  {
    hide Boundary, Aligned, Threaded, Decode;
    if a < b {
      var c := Rewritten(ins, i).code;
      RewrittenThere(ins, i);
      NextBoundary(ins.code, a);
      ReachesKept(ins, i, a + 1 + ParamCount(ins.code[a]), b);
      if a != i {
        DecodeElsewhere(ins, i, a);
      } else if Left(ins, i) {
        JumpHere(ins, i);
        assert Reaches(c, a + 1, b);
      } else if Passed(ins, i) {
        JumpHere(ins, i);
      }
    }
  }

  lemma JumpHere(ins: InstructionSet, i: nat)
    requires i < |ins.code| && Decode(ins, i).IJump?
    ensures ins.code[i] == JUMP
  {
  }

  lemma BoundaryKept(ins: InstructionSet, i: nat, q: nat)
    requires Aligned(ins) && Boundary(ins.code, i) && i < |ins.code| && Boundary(ins.code, q)
    ensures Boundary(Rewritten(ins, i).code, q)
  {
    hide Aligned;
    ReachesKept(ins, i, 0, q);
  }

  lemma {:induction false} SpanKept(ins: InstructionSet, i: nat, a: nat)
    requires Aligned(ins) && Boundary(ins.code, i) && i < |ins.code| && Boundary(ins.code, a) && a <= |ins.code|
    ensures Span(Rewritten(ins, i), a, |ins.code|, Marks(Rewritten(ins, i).code))
    decreases |ins.code| - a
  {
    hide Boundary, Aligned, Threaded, Decode, Reaches;
    if a < |ins.code| {
      var now := Rewritten(ins, i);
      var next := a + 1 + ParamCount(ins.code[a]);
      AlignedAt(ins, a);
      SpanKept(ins, i, next);
      RewrittenThere(ins, i);
      if a != i {
        DecodeElsewhere(ins, i, a);
        if TargetOf(Decode(ins, a)).Some? { BoundaryKept(ins, i, TargetOf(Decode(ins, a)).value); }
      } else {
        if Kept(ins, i) {
          if TargetOf(Decode(ins, a)).Some? { BoundaryKept(ins, i, TargetOf(Decode(ins, a)).value); }
        } else {
          JumpHere(ins, i);
          if Left(ins, i) {
            NoOpThere(now, a + 1);
            assert Span(now, a + 1, |ins.code|, Marks(now.code));
          } else {
            AlignedAt(ins, Decode(ins, i).target);
            BoundaryKept(ins, i, Decode(now, i).target);
          }
        }
      }
    }
  }

  lemma NoOpThere(ins: InstructionSet, pc: nat)
    requires pc < |ins.code| && ins.code[pc] == NO_OP
    ensures Decode(ins, pc) == INoOp
  {
  }

  /** What alignment says of one boundary. */
  lemma AlignedAt(ins: InstructionSet, pc: nat)
    requires Aligned(ins) && Boundary(ins.code, pc) && pc < |ins.code|
    ensures IsOpcode(ins.code[pc]) && !Decode(ins, pc).IMalformed? && pc + 1 + ParamCount(ins.code[pc]) <= |ins.code|
    ensures Boundary(ins.code, pc + 1 + ParamCount(ins.code[pc])) && Boundary(ins.code, |ins.code|)
    ensures var t := TargetOf(Decode(ins, pc)); t.Some? ==> 0 <= t.value <= |ins.code| && Boundary(ins.code, t.value)
  {
    hide Boundary, Span, Decode;
    SpanReaches(ins, 0, |ins.code|, Marks(ins.code));
    assert Boundary(ins.code, |ins.code|) by { ReachedBoundary(ins.code, |ins.code|); }
    SpanAt(ins, 0, |ins.code|, pc, Marks(ins.code)) by { ReachedBoundary(ins.code, pc); }
    NextBoundary(ins.code, pc);
    BeyondEnd(ins.code, pc + 1 + ParamCount(ins.code[pc]));
    var t := TargetOf(Decode(ins, pc));
    if t.Some? { BeyondEnd(ins.code, t.value); }
  }

  lemma ReachedBoundary(code: seq<int>, pc: nat)
    ensures Reaches(code, 0, pc) <==> Boundary(code, pc)
  {
  }

  lemma RewrittenAligned(ins: InstructionSet, i: nat)
    requires Aligned(ins) && Boundary(ins.code, i) && i < |ins.code|
    ensures Aligned(Rewritten(ins, i))
  {
    hide Span, Threaded;
    SpanKept(ins, i, 0);
  }

  /** Aligned code has everything the pass reads. */
  lemma AlignedReadable(ins: InstructionSet)
    requires Aligned(ins)
    ensures forall i: nat {:trigger Boundary(ins.code, i)} :: i < |ins.code| && Boundary(ins.code, i) ==>
      Readable(ins.code, i)
  {
    hide Aligned, Boundary;
    forall i: nat | i < |ins.code| && Boundary(ins.code, i) ensures Readable(ins.code, i) {
      AlignedAt(ins, i);
    }
  }
}
