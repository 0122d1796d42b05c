/**
 What `yield`, `defer`, `each` and `map` have done, said of the finished runs on
 record: which block is run, with which self and which arguments in which order,
 for which elements, and what is given.
 */
module Builtins {
  import opened Wrappers
  import opened Ast
  import opened Bytecode
  import opened Binding
  import opened Machine
  import opened CallFrames
  import opened Events
  import opened Traces

  /** Where run j of the block begins to count: behind the run before it. */
  function FirstOf(runs: seq<nat>, from: nat, j: nat): nat
    requires j < |runs|
  {
    if j == 0 then from else runs[j - 1] + 1
  }

  /** That run is one of the block, complete, with x as its only local and the block's self. */
  ghost predicate RunOfBlock(past: History, k: nat, block: CallFrame, x: Value) {
    && k < |past.runs| && past.runs[k].entry < |past.entered|
    && var e := past.entered[past.runs[k].entry];
       && e.frame.isBlock && e.frame.blockFrame == block && e.frame.ep == block.ep && e.frame.unit == block.unit
       && e.frame.self == block.self && e.args == [Some(x)]
  }

  /** A run of the block that was finished in run j of it, or that run itself, has been ended by a break. */
  ghost predicate BrokeIn(past: History, block: CallFrame, runs: seq<nat>, from: nat, j: nat)
    requires j < |runs|
  {
    exists k: nat :: FirstOf(runs, from, j) <= k <= runs[j] && k < |past.runs| && BreakAt(past, block, k)
  }

  /** Run j is one with element j, and begins where the one before it ends; only the last can have a break in it. */
  ghost predicate VisitedAt(past: History, block: CallFrame, elems: seq<Value>, runs: seq<nat>, from: nat, j: nat)
    requires j < |runs| <= |elems|
  {
    && FirstOf(runs, from, j) <= runs[j] && RunOfBlock(past, runs[j], block, elems[j])
    && past.runs[runs[j]].from == FirstOf(runs, from, j)
    && (j < |runs| - 1 ==> !BrokeIn(past, block, runs, from, j))
  }

  /** The block was run for the first elements in turn, up to the last or to the first run with a break in it,
      and nothing else was. */
  ghost predicate Visited(past: History, block: CallFrame, elems: seq<Value>, runs: seq<nat>, from: nat, to: nat) {
    && |runs| <= |elems| && to == (if runs == [] then from else runs[|runs| - 1] + 1)
    && (forall j :: 0 <= j < |runs| ==> VisitedAt(past, block, elems, runs, from, j))
    && (|runs| < |elems| ==> |runs| > 0 && BrokeIn(past, block, runs, from, |runs| - 1))
  }

  function RunsOf(rs: seq<Round>): (runs: seq<nat>)
    ensures |runs| == |rs|
  {
    seq(|rs|, j requires 0 <= j < |rs| => rs[j].run)
  }

  lemma {:induction false} RoundsInRow(past: History, rs: seq<Round>, from: nat, to: nat, defs: map<MethodKey, nat>,
                                       world: World, defs': map<MethodKey, nat>, world': World)
    requires RoundsOk(past, rs, from, to, defs, world, defs', world')
    ensures to == if rs == [] then from else rs[|rs| - 1].run + 1
    ensures forall j {:trigger rs[j]} :: 0 <= j < |rs| ==>
              RoundOk(past, rs[j]) && rs[j].first == if j == 0 then from else rs[j - 1].run + 1
    decreases |rs|
  {
    hide RoundOk;
    if rs != [] {
      var r, before := rs[|rs| - 1], rs[..|rs| - 1];
      var mid := past.runs[r.run].start;
      RoundsInRow(past, before, from, r.first, defs, world, mid.defs, mid.world);
      forall j | 0 <= j < |rs|
        ensures RoundOk(past, rs[j]) && rs[j].first == if j == 0 then from else rs[j - 1].run + 1
      {
        if j < |rs| - 1 { assert before[j] == rs[j]; }
      }
    }
  }

  /** One round, said of its run. */
  lemma RoundIs(past: History, rs: seq<Round>, from: nat, j: nat, x: Value)
    requires j < |rs| && RoundOk(past, rs[j]) && rs[j].x == x
    requires rs[j].first == if j == 0 then from else rs[j - 1].run + 1
    ensures
      var runs := RunsOf(rs);
      && FirstOf(runs, from, j) <= runs[j] && RunOfBlock(past, runs[j], rs[j].block, x)
      && past.runs[runs[j]].from == FirstOf(runs, from, j) && past.runs[runs[j]].value == rs[j].value
      && (rs[j].broke <==> BrokeIn(past, rs[j].block, runs, from, j))
  {
    hide BreakAt;
  }

  /** `each` and `map` of an array whose block has code: the runs of the block are those of Visited; `each` gives the
      array, `map` the values these runs have left, and nil for the element of a run with a break and
      every later one. */
  lemma BlockVisited(sets: seq<InstructionSet>, host: Host, past: History, elems: seq<Value>, name: Name,
                     args: seq<Value>, callee: Callee, from: nat, to: nat, before: State, after: State, v: Value)
    returns (runs: seq<nat>)
    requires BuiltinOk(sets, host, past, ArrV(elems), name, args, callee, from, to, before, after, v)
    requires name == EACH_NAME || name == MAP_NAME
    requires callee.BuiltinRun? && callee.block != null && callee.block.unit < |sets|
    requires sets[callee.block.unit].code != [] && sets[callee.block.unit].code[0] != LEAVE
    ensures Visited(past, callee.block, elems, runs, from, to)
    ensures name == EACH_NAME ==> v == ArrV(elems)
    ensures name == MAP_NAME ==>
              && v.ArrV? && |v.elems| == |elems|
              && (forall j :: 0 <= j < |elems| ==>
                    if j < |runs| && !BrokeIn(past, callee.block, runs, from, j)
                    then runs[j] < |past.runs| && v.elems[j] == past.runs[runs[j]].value
                    else v.elems[j] == NilV)
  {
    hide RoundsOk, RoundOk, BrokeIn, BuiltinOk, Visits, Visited;
    var rs := RoundsMade(sets, host, past, elems, name, args, callee, from, to, before, after, v);
    var block: CallFrame := callee.block;
    runs := RunsOf(rs);
    RoundsInRow(past, rs, from, to, before.defs, before.world, after.defs, after.world);
    VisitedBy(past, block, elems, rs, from, to);
    forall j | 0 <= j < |elems| && name == MAP_NAME
      ensures if j < |runs| && !BrokeIn(past, block, runs, from, j)
              then runs[j] < |past.runs| && v.elems[j] == past.runs[runs[j]].value
              else v.elems[j] == NilV
    {
      if j < |rs| { VisitIs(past, block, elems, rs, from, j); }
    }
  }

  lemma VisitIs(past: History, block: CallFrame, elems: seq<Value>, rs: seq<Round>, from: nat, j: nat)
    requires j < |rs| && RoundOk(past, rs[j]) && rs[j].first == (if j == 0 then from else rs[j - 1].run + 1)
    requires Visits(rs, block, elems)
    ensures
      var runs := RunsOf(rs);
      && FirstOf(runs, from, j) <= runs[j] < |past.runs| && RunOfBlock(past, runs[j], block, elems[j])
      && past.runs[runs[j]].from == FirstOf(runs, from, j) && past.runs[runs[j]].value == rs[j].value
      && (rs[j].broke <==> BrokeIn(past, block, runs, from, j))
  {
    hide RoundOk, RunOfBlock, BrokeIn;
    RoundIs(past, rs, from, j, elems[j]);
    InRuns(past, RunsOf(rs)[j], block, elems[j]);
  }

  lemma VisitedBy(past: History, block: CallFrame, elems: seq<Value>, rs: seq<Round>, from: nat, to: nat)
    requires Visits(rs, block, elems) && to == if rs == [] then from else rs[|rs| - 1].run + 1
    requires forall j {:trigger rs[j]} :: 0 <= j < |rs| ==>
               RoundOk(past, rs[j]) && rs[j].first == if j == 0 then from else rs[j - 1].run + 1
    ensures Visited(past, block, elems, RunsOf(rs), from, to)
    ensures forall j :: 0 <= j < |rs| ==> RunsOf(rs)[j] < |past.runs|
  {
    hide RoundOk, RunOfBlock, BrokeIn, VisitedAt, Visits;
    VisitsEnd(rs, block, elems);
    var runs := RunsOf(rs);
    forall j | 0 <= j < |runs| ensures VisitedAt(past, block, elems, runs, from, j) && runs[j] < |past.runs| {
      assert rs[j].run == runs[j];
      VisitIs(past, block, elems, rs, from, j);
      VisitAtIs(past, block, elems, rs, from, j);
    }
    if |rs| < |elems| { VisitIs(past, block, elems, rs, from, |rs| - 1); }
  }

  lemma VisitsEnd(rs: seq<Round>, block: CallFrame, elems: seq<Value>)
    requires Visits(rs, block, elems)
    ensures |rs| <= |elems| && (|rs| < |elems| ==> |rs| > 0 && rs[|rs| - 1].broke)
  {
  }

  lemma VisitAtIs(past: History, block: CallFrame, elems: seq<Value>, rs: seq<Round>, from: nat, j: nat)
    requires j < |rs| && Visits(rs, block, elems)
    requires
      var runs := RunsOf(rs);
      && FirstOf(runs, from, j) <= runs[j] < |past.runs| && RunOfBlock(past, runs[j], block, elems[j])
      && past.runs[runs[j]].from == FirstOf(runs, from, j)
      && (rs[j].broke <==> BrokeIn(past, block, runs, from, j))
    ensures VisitedAt(past, block, elems, RunsOf(rs), from, j)
  {
    hide RunOfBlock, BrokeIn;
  }

  /** The rounds a builtin's record stands for. */
  lemma RoundsMade(sets: seq<InstructionSet>, host: Host, past: History, elems: seq<Value>, name: Name,
                   args: seq<Value>, callee: Callee, from: nat, to: nat, before: State, after: State, v: Value)
    returns (rs: seq<Round>)
    requires BuiltinOk(sets, host, past, ArrV(elems), name, args, callee, from, to, before, after, v)
    requires name == EACH_NAME || name == MAP_NAME
    requires callee.BuiltinRun? && callee.block != null && callee.block.unit < |sets|
    requires sets[callee.block.unit].code != [] && sets[callee.block.unit].code[0] != LEAVE
    ensures Visits(rs, callee.block, elems)
    ensures RoundsOk(past, rs, from, to, before.defs, before.world, after.defs, after.world)
    ensures name == EACH_NAME ==> v == ArrV(elems)
    ensures name == MAP_NAME ==>
              v.ArrV? && |v.elems| == |elems| && forall j :: 0 <= j < |elems| ==>
                v.elems[j] == if j < |rs| && !rs[j].broke then rs[j].value else NilV
  {
    hide RoundsOk, RoundsOf, Visits;
    rs := RoundsOf(past.rounds[callee.first..callee.last], callee.block);
  }

  lemma InRuns(past: History, k: nat, block: CallFrame, x: Value)
    requires RunOfBlock(past, k, block, x)
    ensures k < |past.runs|
  {
  }

  /** A block without code, or whose code begins with Leave, is not run. */
  lemma EmptyNotRun(sets: seq<InstructionSet>, host: Host, past: History, elems: seq<Value>, name: Name,
                    args: seq<Value>, callee: Callee, from: nat, to: nat, before: State, after: State, v: Value)
    requires BuiltinOk(sets, host, past, ArrV(elems), name, args, callee, from, to, before, after, v)
    requires name == EACH_NAME || name == MAP_NAME
    requires callee.BuiltinRun? && callee.block != null && callee.block.unit < |sets|
    requires sets[callee.block.unit].code == [] || sets[callee.block.unit].code[0] == LEAVE
    ensures from == to && after.defs == before.defs && after.world == before.world
    ensures v == if name == EACH_NAME then ArrV(elems) else ArrV(seq(|elems|, _ => NilV))
  {
    hide RoundsOf;
    assert Mapped([], |elems|) == seq(|elems|, _ => NilV);
  }

  // --------------------------------------------------------- yield and defer

  /** In a block's frame `yield` runs the block of the frame its text stands in, in a method's its own. */
  lemma TargetIs(all: set<CallFrame>, cf: CallFrame)
    requires Closed(all) && cf in all
    ensures cf.isBlock ==> cf.ep != null
    ensures YieldTarget(cf) == if cf.isBlock && cf.blockFrame != null then cf.ep.blockFrame else cf.blockFrame
  {
    InClosed(all, cf);
  }

  /** What `yield` has run: that block, with the receiver as self and the arguments, in order, as its first locals. */
  lemma YieldRuns(all: set<CallFrame>, past: History, cf: CallFrame, argCount: nat, callee: Callee, from: nat, to: nat,
                  before: State, after: State, v: Value)
    requires Closed(all) && cf in all
    requires argCount < |before.stack| && Yielded(past, cf, argCount, callee, from, to, before, after, v)
    ensures from < to <= |past.runs| && past.runs[to - 1].entry < |past.entered| && (cf.isBlock ==> cf.ep != null)
    ensures
      var r := past.runs[to - 1];
      var e, base := past.entered[r.entry], |before.stack| - argCount;
      && r.from == from && r.value == v && e.frame.isBlock
      && e.frame.blockFrame == (if cf.isBlock && cf.blockFrame != null then cf.ep.blockFrame else cf.blockFrame)
      && e.frame.blockFrame != null && e.frame.unit == e.frame.blockFrame.unit && e.frame.ep == e.frame.blockFrame.ep
      && e.frame.self == before.stack[base - 1]
      && |e.args| == argCount && forall k :: 0 <= k < argCount ==> e.args[k] == Some(before.stack[base + k])
  {
    TargetIs(all, cf);
  }

  /** What is set aside for a deferred block: the block, with the receiver as self and the arguments as they are
      then. */
  lemma DeferKeeps(e: Entered, cf: CallFrame, unit: nat, argCount: nat, stack: seq<Value>)
    requires DeferEntry(e, cf, unit, argCount, stack)
    ensures argCount < |stack| && e.frame.isBlock && e.frame.unit == unit && e.frame.ep == cf
    ensures e.frame.self == stack[|stack| - argCount - 1]
    ensures |e.args| == argCount && forall k :: 0 <= k < argCount ==> e.args[k] == Some(stack[|stack| - argCount + k])
  {
  }
}
