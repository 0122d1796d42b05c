/**
 What it means that a frame has been run: its code from the first instruction on,
 turn by turn, up to its end, each turn justified by its instruction, each call by
 the run of the frame called; then the deferred blocks.  The thread records every
 run; nothing here looks at the thread.
 */
module Traces {
  import opened Wrappers
  import opened Ast
  import opened Bytecode
  import opened Binding
  import opened Machine
  import opened CallFrames
  import opened Events

  const EACH_NAME: Name := 9      // `each`
  const MAP_NAME: Name := 10      // `map`

  /** Arguments as the first locals of a frame. */
  function AsLocals(args: seq<Value>): Slots<Value> {
    seq(|args|, k requires 0 <= k < |args| => Some(args[k]))
  }

  predicate IsCall(i: Instr) {
    i.ISend? || i.IBinary? || i.IArith? || i.IInvokeBlock?
  }

  function ArgCount(i: Instr): int
    requires IsCall(i)
  {
    if i.ISend? || i.IInvokeBlock? then i.argc else 1
  }

  function CalledName(i: Instr): Name
    requires i.ISend? || i.IBinary? || i.IArith?
  {
    match i
    case ISend(name, _, _, _) => name
    case IBinary(name) => name
    case IArith(_, name) => name
  }

  /** The instructions that call nothing and change no frame but its pc and locals. */
  ghost predicate Plain(cf: CallFrame, i: Instr, stack: seq<Value>) {
    && !i.ISend? && !i.IBinary? && !i.IInvokeBlock? && !i.IDefer? && !(i.IBreak? && cf.isBlock)
    && (i.IArith? ==> |stack| >= 2 && stack[|stack| - 2].IntV? && stack[|stack| - 1].IntV?)
  }

  /** The block `yield` runs in a frame: the frame's own, in a block's frame that of its environment. */
  ghost function YieldTarget(cf: CallFrame): CallFrame? {
    if cf.blockFrame != null && cf.ep != null && cf.blockFrame.ep == cf.ep then cf.ep.blockFrame else cf.blockFrame
  }

  /** The frame made for the block an instruction passes, if it passes one. */
  ghost predicate Passed(block: CallFrame?, cf: CallFrame, i: Instr) {
    if i.ISend? && i.block.Some?
    then block != null && block.isBlock && block.unit == i.block.value && block.ep == cf && block.self == cf.self
    else block == null
  }

  /** IsEmpty: no code, or code that begins with Leave. */
  ghost predicate EmptyBlock(sets: seq<InstructionSet>, b: CallFrame) {
    b.unit < |sets| && (sets[b.unit].code == [] || sets[b.unit].code[0] == LEAVE)
  }

  // ---------------------------------------------------------------- entries

  /** A block's frame, with its arguments. */
  ghost predicate BlockEntry(e: Entered, block: CallFrame, self: Value, args: seq<Value>) {
    && e.frame.isBlock && e.frame.blockFrame == block && e.frame.ep == block.ep && e.frame.unit == block.unit
    && e.frame.self == self && e.args == AsLocals(args)
  }

  /** A method's frame, with its arguments bound and the block that was passed. */
  ghost predicate MethodEntry(sets: seq<InstructionSet>, e: Entered, unit: nat, receiver: Value, block: CallFrame?,
                              given: Option<ArgSet>, args: seq<Value>)
  {
    && unit < |sets| && !e.frame.isBlock && e.frame.blockFrame == block && e.frame.unit == unit
    && e.frame.self == receiver
    && WellSized(sets[unit].params) && Matches(given, args) && BindValues(sets[unit].params, given, args) == Ok(e.args)
  }

  /** A deferred block's frame, with copies of the receiver and the arguments on the stack. */
  ghost predicate DeferEntry(e: Entered, cf: CallFrame, unit: nat, argCount: nat, stack: seq<Value>) {
    && argCount < |stack| && e.frame.isBlock && e.frame.unit == unit && e.frame.ep == cf
    && e.frame.self == stack[|stack| - argCount - 1] && e.args == AsLocals(stack[|stack| - argCount..])
  }

  ghost function EntryOf(past: History, run: nat): Entered
    requires run < |past.runs| && past.runs[run].entry < |past.entered|
  {
    past.entered[past.runs[run].entry]
  }

  /** That run began with this stack, these methods and this world, and left these, with this value. */
  ghost predicate Led(past: History, run: nat, before: State, v: Value, defs: map<MethodKey, nat>, world: World) {
    && run < |past.runs|
    && var r := past.runs[run];
       && r.entry < |past.entered| && r.value == v && r.defs == defs && r.world == world
       && r.start.stack == before.stack && r.start.defs == before.defs && r.start.world == before.world
  }

  // -------------------------------------------------------- runs of blocks

  /** A run of the block ended by a break, among these. */
  ghost predicate SomeBreak(past: History, block: CallFrame, first: nat, last: nat) {
    exists j :: first <= j <= last && BreakAt(past, block, j)
  }

  ghost predicate BreakAt(past: History, block: CallFrame, j: nat) {
    && j < |past.runs| && past.runs[j].broke && past.runs[j].entry < |past.entered|
    && past.entered[past.runs[j].entry].frame.blockFrame == block
  }

  /** The round is a run of the block with the element, its value is what the block left, and it
      counts as broken exactly if a run of the block that was finished in it was ended by a break. */
  ghost predicate RoundOk(past: History, r: Round) {
    && r.first <= r.run < |past.runs| && past.runs[r.run].entry < |past.entered|
    && BlockEntry(EntryOf(past, r.run), r.block, r.block.self, [r.x])
    && r.value == past.runs[r.run].value && r.first == past.runs[r.run].from
    && (r.broke <==> SomeBreak(past, r.block, r.first, r.run))
  }

  /** The round is what has been run in between, and has led from these methods and this world to those. */
  ghost predicate Leads(past: History, r: Round, from: nat, to: nat,
                        defs: map<MethodKey, nat>, world: World, defs': map<MethodKey, nat>, world': World)
  {
    && RoundOk(past, r) && r.first == from && r.run + 1 == to
    && past.runs[r.run].start.defs == defs && past.runs[r.run].start.world == world
    && past.runs[r.run].defs == defs' && past.runs[r.run].world == world'
  }

  /** These rounds, one after the other, are what has been run in between. */
  ghost predicate RoundsOk(past: History, rs: seq<Round>, from: nat, to: nat,
                           defs: map<MethodKey, nat>, world: World, defs': map<MethodKey, nat>, world': World)
  {
    if rs == [] then from == to && defs == defs' && world == world'
    else
      var r := rs[|rs| - 1];
      && r.run < |past.runs|
      && var mid := past.runs[r.run].start;
         && Leads(past, r, r.first, to, mid.defs, mid.world, defs', world')
         && RoundsOk(past, rs[..|rs| - 1], from, r.first, defs, world, mid.defs, mid.world)
  }

  /** What `each` and `map` of an array, and other builtins, have done.  `each` gives its receiver, `map` the
      values the block left; both run the block as far as it does not break. */
  ghost predicate BuiltinOk(sets: seq<InstructionSet>, host: Host, past: History, receiver: Value, name: Name,
                            args: seq<Value>, t: Callee, from: nat, to: nat, before: State, after: State, v: Value)
  {
    && t.BuiltinRun?
    && if receiver.ArrV? && (name == EACH_NAME || name == MAP_NAME) then
         && t.block != null && (name == EACH_NAME ==> args == []) && t.first <= t.last <= |past.rounds|
         && var rs := RoundsOf(past.rounds[t.first..t.last], t.block);
            && (if EmptyBlock(sets, t.block) then rs == [] else Visits(rs, t.block, receiver.elems))
            && RoundsOk(past, rs, from, to, before.defs, before.world, after.defs, after.world)
            && v == if name == EACH_NAME then receiver else ArrV(Mapped(rs, |receiver.elems|))
       else
         && t.block == null && from == to && after.defs == before.defs
         && host.builtin(before.world, receiver, name, args) == (after.world, Got(v))
  }

  // ------------------------------------------------------------------ turns

  /** One value in the place of receiver and arguments, if no code has reached too far down. */
  ghost predicate Replaces(before: seq<Value>, after: seq<Value>, argCount: nat, tidy: bool) {
    && argCount < |before| && |after| == |before| - argCount
    && (tidy ==> after[..|after| - 1] == before[..|after| - 1])
  }

  /** What has been run in between is the frame called, which began and ended as the call did. */
  ghost predicate Calls(past: History, callee: Callee, from: nat, to: nat, before: State, after: State, v: Value) {
    && callee.FrameRun? && from <= callee.run == to - 1 && Led(past, callee.run, before, v, after.defs, after.world)
    && past.runs[callee.run].from == from
  }

  /** `yield` has run its block with the receiver as self and the arguments as locals. */
  ghost predicate Yielded(past: History, cf: CallFrame, argCount: nat, callee: Callee, from: nat, to: nat,
                          before: State, after: State, v: Value)
    requires argCount < |before.stack|
  {
    var n := |before.stack|;
    && Calls(past, callee, from, to, before, after, v) && YieldTarget(cf) != null && callee.block == null
    && BlockEntry(EntryOf(past, callee.run), YieldTarget(cf), before.stack[n - argCount - 1],
                  before.stack[n - argCount..])
  }

  /** The method that was found has been run, or the builtin. */
  ghost predicate Found(sets: seq<InstructionSet>, host: Host, past: History, name: Name, argCount: nat,
                        given: Option<ArgSet>, callee: Callee, from: nat, to: nat, before: State, after: State,
                        v: Value)
    requires argCount < |before.stack|
  {
    var n := |before.stack|;
    var receiver, args := before.stack[n - argCount - 1], before.stack[n - argCount..];
    match host.find(before.defs.Keys, receiver, name)
    case Missing => false
    case Builtin =>
      BuiltinOk(sets, host, past, receiver, name, args, callee, from, to, before, after, v)
    case Defined(class_) =>
      && Calls(past, callee, from, to, before, after, v) && (class_, name) in before.defs
      && MethodEntry(sets, EntryOf(past, callee.run), before.defs[(class_, name)], receiver, callee.block, given, args)
  }

  ghost predicate TargetOk(sets: seq<InstructionSet>, host: Host, past: History, cf: CallFrame, i: Instr,
                           callee: Callee, from: nat, to: nat, before: State, after: State, v: Value)
    requires IsCall(i)
  {
    && from <= to && 0 <= ArgCount(i) < |before.stack| && !callee.NoCallee?
    && if i.IInvokeBlock? then Yielded(past, cf, ArgCount(i), callee, from, to, before, after, v)
       else
         && Passed(callee.block, cf, i)
         && Found(sets, host, past, CalledName(i), ArgCount(i), if i.ISend? then i.args else None, callee, from, to,
                  before, after, v)
  }

  /** A call instruction has run the block, the method found or the builtin, and replaced receiver and arguments. */
  ghost predicate CallOk(sets: seq<InstructionSet>, host: Host, past: History, cf: CallFrame, i: Instr, t: Turn)
    requires IsCall(i)
  {
    && ArgCount(i) >= 0 && Replaces(t.before.stack, t.after.stack, ArgCount(i), past.tidy)
    && t.after.pc == t.before.pc + Len(i) && t.deferred.None?
    && TargetOk(sets, host, past, cf, i, t.callee, t.from, t.to, t.before, t.after, t.after.stack[|t.after.stack| - 1])
  }

  ghost predicate DeferOk(cf: CallFrame, i: Instr, t: Turn)
    requires i.IDefer?
  {
    && 0 <= i.argc <= |t.before.stack| && t.callee.NoCallee? && t.from == t.to
    && t.after == t.before.(pc := t.before.pc + 3, stack := t.before.stack[..|t.before.stack| - i.argc] + [NilV])
    && match i.unit
       case None => t.deferred == None
       case Some(unit) => t.deferred.Some? && DeferEntry(t.deferred.value, cf, unit, i.argc, t.before.stack)
  }

  /** A break in a block. */
  ghost predicate BreakTurn(sets: seq<InstructionSet>, cf: CallFrame, t: Turn) {
    && cf.unit < |sets| && t.before.pc < |sets[cf.unit].code|
    && Decode(sets[cf.unit], t.before.pc).IBreak? && cf.isBlock
  }

  /** The turn does what its instruction says. */
  ghost predicate TurnOk(sets: seq<InstructionSet>, host: Host, past: History, cf: CallFrame, t: Turn) {
    && cf.unit < |sets| && t.before.pc < |sets[cf.unit].code| && t.before.status == Running == t.after.status
    && |t.before.frames| > 0 && t.before.frames[|t.before.frames| - 1].unit == cf.unit
    && var i := Decode(sets[cf.unit], t.before.pc);
       if i.IDefer? then DeferOk(cf, i, t)
       else if i.IBreak? && cf.isBlock then
         cf in past.broken && t.after == t.before.(pc := |sets[cf.unit].code|) && t.deferred.None?
           && t.callee.NoCallee? && t.from == t.to
       else if Plain(cf, i, t.before.stack) then
         t.after == Exec(sets, host, t.before, i) && t.deferred.None? && t.callee.NoCallee? && t.from == t.to
       else IsCall(i) && CallOk(sets, host, past, cf, i, t)
  }

  ghost predicate TurnsOk(sets: seq<InstructionSet>, host: Host, past: History, cf: CallFrame, turns: seq<Turn>) {
    forall j {:trigger turns[j]} :: 0 <= j < |turns| ==> TurnOk(sets, host, past, cf, turns[j])
  }

  /** One turn after the other, with nothing in between. */
  ghost predicate Chained(start: State, from: nat, turns: seq<Turn>, end: State, to: nat) {
    if turns == [] then start == end && from == to
    else
      var t := turns[|turns| - 1];
      t.after == end && t.to == to && Chained(start, from, turns[..|turns| - 1], t.before, t.from)
  }

  /** What the turns have registered, in order. */
  ghost function Deferred(turns: seq<Turn>): seq<Entered> {
    if turns == [] then [] else With(Deferred(turns[..|turns| - 1]), turns[|turns| - 1].deferred)
  }

  // ------------------------------------------------------------------- runs

  ghost predicate EndsInBreak(sets: seq<InstructionSet>, cf: CallFrame, turns: seq<Turn>) {
    turns != [] && BreakTurn(sets, cf, turns[|turns| - 1])
  }

  /** The frame's code has been run, from the beginning, with the arguments as first locals, to its end. */
  ghost predicate CodeRun(sets: seq<InstructionSet>, host: Host, past: History, cf: CallFrame, args: Slots<Value>,
                          r: Run)
  {
    && cf.unit < |sets| && r.start.pc == 0 && |r.start.frames| > 0
    && r.start.frames[|r.start.frames| - 1].locals == args
    && Chained(r.start, r.from, r.turns, r.end, r.to) && TurnsOk(sets, host, past, cf, r.turns)
    && r.end.pc >= |sets[cf.unit].code| && (r.broke <==> EndsInBreak(sets, cf, r.turns))
  }

  /** Frames entered so, one after the other, are what has been run in between, each beginning with the
      methods and the world the one before it has left. */
  ghost predicate BlocksRun(past: History, es: seq<Entered>, from: nat, to: nat,
                            defs: map<MethodKey, nat>, world: World, defs': map<MethodKey, nat>, world': World)
  {
    if es == [] then from == to && defs == defs' && world == world'
    else
      && 0 < to <= |past.runs|
      && var r := past.runs[to - 1];
         && r.entry < |past.entered| && past.entered[r.entry] == es[|es| - 1] && r.defs == defs' && r.world == world'
         && BlocksRun(past, es[..|es| - 1], from, r.from, defs, world, r.start.defs, r.start.world)
  }

  /** A finished run: the code, then what it has registered, once each, the last first, which leaves the value. */
  ghost predicate RunOk(sets: seq<InstructionSet>, host: Host, past: History, r: Run) {
    && r.entry < r.until <= |past.entered|
    && CodeRun(sets, host, past, past.entered[r.entry].frame, past.entered[r.entry].args, r)
    && Only(past.entered[r.entry + 1..r.until], Frames(Deferred(r.turns))) == Reversed(Deferred(r.turns))
    && BlocksRun(past, Reversed(Deferred(r.turns)), r.to, r.last, r.end.defs, r.end.world, r.defs, r.world)
    && (past.tidy && r.end.stack != [] ==> r.value == r.end.stack[|r.end.stack| - 1])
  }

  /** Every run on record is one and has its place, frames are entered and finished once each, and only frames
      that were entered, and of those that are finished only the ones a break has ended, are in the set of those
      broken off. */
  ghost predicate Accounted(sets: seq<InstructionSet>, host: Host, past: History) {
    && (forall r :: r in past.runs ==> RunOk(sets, host, past, r))
    && (forall r :: r in past.runs ==>
        r.entry < |past.entered| && (past.entered[r.entry].frame in past.broken <==> r.broke))
    && (forall j, k :: 0 <= j < k < |past.entered| ==> past.entered[j].frame != past.entered[k].frame)
    && (forall j, k :: 0 <= j < k < |past.runs| ==> past.runs[j].entry != past.runs[k].entry)
    && (forall k :: 0 <= k < |past.runs| ==> past.runs[k].last == k)
    && (forall f :: f in past.broken ==> exists k :: 0 <= k < |past.entered| && past.entered[k].frame == f)
  }

  // -------------------------------------------------- what happens later on

  ghost predicate Extends(a: History, b: History) {
    && a.entered <= b.entered && a.runs <= b.runs && a.rounds <= b.rounds && a.broken <= b.broken
    && (b.tidy ==> a.tidy)
  }

  ghost predicate InRange(past: History) {
    forall j {:trigger past.runs[j]} :: 0 <= j < |past.runs| ==> past.runs[j].entry < |past.entered|
  }

  lemma EntryLater(a: History, b: History, j: nat)
    requires Extends(a, b) && InRange(a) && j < |a.runs|
    ensures j < |b.runs| && b.runs[j] == a.runs[j] && a.runs[j].entry < |a.entered| && EntryOf(b, j) == EntryOf(a, j)
  {
  }

  lemma RoundLater(a: History, b: History, r: Round)
    requires Extends(a, b) && InRange(a) && RoundOk(a, r)
    ensures RoundOk(b, r)
  {
    EntryLater(a, b, r.run);
    forall j | r.first <= j <= r.run ensures BreakAt(b, r.block, j) <==> BreakAt(a, r.block, j) {
      EntryLater(a, b, j);
    }
  }

  lemma LeadsLater(a: History, b: History, r: Round, from: nat, to: nat,
                   defs: map<MethodKey, nat>, world: World, defs': map<MethodKey, nat>, world': World)
    requires Extends(a, b) && InRange(a) && Leads(a, r, from, to, defs, world, defs', world')
    ensures Leads(b, r, from, to, defs, world, defs', world')
  {
    hide RoundOk;
    RoundLater(a, b, r);
    assert r.run < |a.runs| && r.run < |b.runs| by { RoundKnown(a, r); RoundKnown(b, r); }
    EntryLater(a, b, r.run);
  }

  lemma RoundKnown(a: History, r: Round)
    requires RoundOk(a, r)
    ensures r.run < |a.runs|
  {
  }

  lemma {:induction false} RoundsLater(a: History, b: History, rs: seq<Round>, from: nat, to: nat,
                    defs: map<MethodKey, nat>, world: World, defs': map<MethodKey, nat>, world': World)
    requires Extends(a, b) && InRange(a) && RoundsOk(a, rs, from, to, defs, world, defs', world')
    ensures RoundsOk(b, rs, from, to, defs, world, defs', world')
    decreases |rs|
  {
    hide Leads;
    if rs != [] {
      var r := rs[|rs| - 1];
      var mid := a.runs[r.run].start;
      EntryLater(a, b, r.run);
      LeadsLater(a, b, r, r.first, to, mid.defs, mid.world, defs', world');
      RoundsLater(a, b, rs[..|rs| - 1], from, r.first, defs, world, mid.defs, mid.world);
    }
  }

  /** One round more. */
  lemma NextRound(a: History, b: History, rs: seq<Round>, r: Round, from: nat, mid: nat, to: nat,
                  defs: map<MethodKey, nat>, world: World, defs': map<MethodKey, nat>, world': World,
                  defs'': map<MethodKey, nat>, world'': World)
    requires Extends(a, b) && InRange(a) && RoundsOk(a, rs, from, mid, defs, world, defs', world')
    requires Leads(b, r, mid, to, defs', world', defs'', world'')
    ensures RoundsOk(b, rs + [r], from, to, defs, world, defs'', world'')
  {
    hide RoundOk;
    RoundsLater(a, b, rs, from, mid, defs, world, defs', world');
    RoundKnown(b, r);
    assert (rs + [r])[..|rs|] == rs;
  }

  lemma BuiltinLater(sets: seq<InstructionSet>, host: Host, a: History, b: History, receiver: Value, name: Name,
                     args: seq<Value>, t: Callee, from: nat, to: nat, before: State, after: State, v: Value)
    requires Extends(a, b) && InRange(a)
    requires BuiltinOk(sets, host, a, receiver, name, args, t, from, to, before, after, v)
    ensures BuiltinOk(sets, host, b, receiver, name, args, t, from, to, before, after, v)
  {
    hide RoundsOk, Visits, RoundsOf, EmptyBlock, Mapped;
    if receiver.ArrV? && (name == EACH_NAME || name == MAP_NAME) {
      assert b.rounds[t.first..t.last] == a.rounds[t.first..t.last];
      var rs := RoundsOf(a.rounds[t.first..t.last], t.block);
      RoundsLater(a, b, rs, from, to, before.defs, before.world, after.defs, after.world);
    }
  }

  lemma CallsLater(a: History, b: History, callee: Callee, from: nat, to: nat, before: State, after: State, v: Value)
    requires Extends(a, b) && InRange(a) && Calls(a, callee, from, to, before, after, v)
    ensures Calls(b, callee, from, to, before, after, v) && EntryOf(b, callee.run) == EntryOf(a, callee.run)
  {
    EntryLater(a, b, callee.run);
  }

  lemma CallLater(sets: seq<InstructionSet>, host: Host, a: History, b: History, cf: CallFrame, i: Instr, t: Turn)
    requires Extends(a, b) && InRange(a) && IsCall(i) && CallOk(sets, host, a, cf, i, t)
    ensures CallOk(sets, host, b, cf, i, t)
  {
    hide BuiltinOk, Calls, BlockEntry, MethodEntry, EntryOf, InRange, Extends;
    var n := |t.before.stack|;
    var receiver, args, v := t.before.stack[n - ArgCount(i) - 1], t.before.stack[n - ArgCount(i)..],
      t.after.stack[|t.after.stack| - 1];
    StillTidy(a, b);
    if i.IInvokeBlock? {
      CallsLater(a, b, t.callee, t.from, t.to, t.before, t.after, v);
    } else {
      match host.find(t.before.defs.Keys, receiver, CalledName(i))
      case Builtin => BuiltinLater(sets, host, a, b, receiver, CalledName(i), args, t.callee, t.from, t.to, t.before,
                                   t.after, v);
      case Defined(_) => CallsLater(a, b, t.callee, t.from, t.to, t.before, t.after, v);
    }
  }

  lemma StillTidy(a: History, b: History)
    requires Extends(a, b)
    ensures b.tidy ==> a.tidy
    ensures a.broken <= b.broken
  {
  }

  lemma TurnLater(sets: seq<InstructionSet>, host: Host, a: History, b: History, cf: CallFrame, t: Turn)
    requires Extends(a, b) && InRange(a) && TurnOk(sets, host, a, cf, t)
    ensures TurnOk(sets, host, b, cf, t)
  {
    hide CallOk, DeferOk, Plain, Exec, Decode, InRange, Extends;
    StillTidy(a, b);
    var i := Decode(sets[cf.unit], t.before.pc);
    if !i.IDefer? && !(i.IBreak? && cf.isBlock) && !Plain(cf, i, t.before.stack) {
      CallLater(sets, host, a, b, cf, i, t);
    }
  }

  lemma TurnsLater(sets: seq<InstructionSet>, host: Host, a: History, b: History, cf: CallFrame, turns: seq<Turn>)
    requires Extends(a, b) && InRange(a) && TurnsOk(sets, host, a, cf, turns)
    ensures TurnsOk(sets, host, b, cf, turns)
  {
    hide TurnOk, InRange, Extends;
    forall j | 0 <= j < |turns| ensures TurnOk(sets, host, b, cf, turns[j]) {
      TurnLater(sets, host, a, b, cf, turns[j]);
    }
  }

  lemma {:induction false} BlocksLater(a: History, b: History, es: seq<Entered>, from: nat, to: nat,
                                       defs: map<MethodKey, nat>, world: World,
                                       defs': map<MethodKey, nat>, world': World)
    requires Extends(a, b) && InRange(a) && BlocksRun(a, es, from, to, defs, world, defs', world')
    ensures BlocksRun(b, es, from, to, defs, world, defs', world')
    decreases |es|
  {
    if es != [] {
      var r := a.runs[to - 1];
      EntryLater(a, b, to - 1);
      BlocksLater(a, b, es[..|es| - 1], from, r.from, defs, world, r.start.defs, r.start.world);
    }
  }

  lemma NoBlocks(past: History, defs: map<MethodKey, nat>, world: World)
    ensures BlocksRun(past, [], |past.runs|, |past.runs|, defs, world, defs, world)
  {
  }

  /** One frame more. */
  lemma NextBlock(a: History, b: History, es: seq<Entered>, e: Entered, from: nat,
                  defs: map<MethodKey, nat>, world: World, defs': map<MethodKey, nat>, world': World)
    requires Extends(a, b) && InRange(a) && |b.runs| > 0
    requires
      var r := b.runs[|b.runs| - 1];
      && r.entry < |b.entered| && b.entered[r.entry] == e && r.from == |a.runs| && r.defs == defs' && r.world == world'
      && BlocksRun(a, es, from, |a.runs|, defs, world, r.start.defs, r.start.world)
    ensures BlocksRun(b, es + [e], from, |b.runs|, defs, world, defs', world')
  {
    hide Extends, InRange;
    var r := b.runs[|b.runs| - 1];
    BlocksLater(a, b, es, from, |a.runs|, defs, world, r.start.defs, r.start.world);
    assert (es + [e])[..|es|] == es;
  }

  lemma RunLater(sets: seq<InstructionSet>, host: Host, a: History, b: History, r: Run)
    requires Extends(a, b) && InRange(a) && RunOk(sets, host, a, r)
    ensures RunOk(sets, host, b, r)
  {
    hide TurnsOk, InRange, Only, Reversed, Deferred, Frames, Chained, EndsInBreak, BlocksRun;
    TurnsLater(sets, host, a, b, a.entered[r.entry].frame, r.turns);
    BlocksLater(a, b, Reversed(Deferred(r.turns)), r.to, r.last, r.end.defs, r.end.world, r.defs, r.world);
    assert b.entered[r.entry + 1..r.until] == a.entered[r.entry + 1..r.until];
  }

  lemma AccountedRange(sets: seq<InstructionSet>, host: Host, past: History)
    requires Accounted(sets, host, past)
    ensures InRange(past)
  {
    hide RunOk;
    forall j | 0 <= j < |past.runs| ensures past.runs[j].entry < |past.entered| { assert past.runs[j] in past.runs; }
  }

  lemma RunsLater(sets: seq<InstructionSet>, host: Host, a: History, b: History)
    requires Accounted(sets, host, a) && Extends(a, b)
    ensures forall r :: r in a.runs ==> RunOk(sets, host, b, r)
  {
    hide RunOk;
    AccountedRange(sets, host, a);
    forall r | r in a.runs ensures RunOk(sets, host, b, r) { RunLater(sets, host, a, b, r); }
  }

  // --------------------------------------- keeping the record in good order

  lemma AccountedNothing(sets: seq<InstructionSet>, host: Host)
    ensures Accounted(sets, host, History([], [], [], {}, true))
  {
  }

  lemma AccountedNote(sets: seq<InstructionSet>, host: Host, a: History, tidy: bool)
    requires Accounted(sets, host, a) && (tidy ==> a.tidy)
    ensures Accounted(sets, host, a.(tidy := tidy))
  {
    hide RunOk;
    RunsLater(sets, host, a, a.(tidy := tidy));
  }

  lemma AccountedEnter(sets: seq<InstructionSet>, host: Host, a: History, e: Entered)
    requires Accounted(sets, host, a) && NotEntered(a, e.frame)
    ensures Accounted(sets, host, a.(entered := a.entered + [e]))
  {
    hide RunOk;
    var b := a.(entered := a.entered + [e]);
    RunsLater(sets, host, a, b);
    forall j, k | 0 <= j < k < |b.entered| ensures b.entered[j].frame != b.entered[k].frame {
      assert b.entered[j] in a.entered;
    }
    forall f | f in b.broken ensures exists k :: 0 <= k < |b.entered| && b.entered[k].frame == f {
      var k :| 0 <= k < |a.entered| && a.entered[k].frame == f;
      assert b.entered[k].frame == f;
    }
  }

  lemma AccountedRound(sets: seq<InstructionSet>, host: Host, a: History, r: Round)
    requires Accounted(sets, host, a)
    ensures Accounted(sets, host, a.(rounds := a.rounds + [r]))
  {
    hide RunOk;
    RunsLater(sets, host, a, a.(rounds := a.rounds + [r]));
  }

  /** The frame is the one entered with this number, and not finished. */
  ghost predicate Open(past: History, entry: nat, cf: CallFrame) {
    entry < |past.entered| && past.entered[entry].frame == cf && entry !in Finished(past.runs)
  }

  lemma AccountedBreak(sets: seq<InstructionSet>, host: Host, a: History, entry: nat, cf: CallFrame)
    requires Accounted(sets, host, a) && Open(a, entry, cf)
    ensures Accounted(sets, host, a.(broken := a.broken + {cf}))
  {
    hide RunOk;
    var b := a.(broken := a.broken + {cf});
    RunsLater(sets, host, a, b);
    forall r | r in b.runs ensures r.entry < |b.entered| && (b.entered[r.entry].frame in b.broken <==> r.broke) {
      assert r.entry in Finished(a.runs);
    }
  }

  lemma AccountedRun(sets: seq<InstructionSet>, host: Host, a: History, r: Run)
    requires Accounted(sets, host, a) && RunOk(sets, host, a, r) && (a.entered[r.entry].frame in a.broken <==> r.broke)
    requires r.entry !in Finished(a.runs) && r.last == |a.runs|
    ensures Accounted(sets, host, a.(runs := a.runs + [r]))
  {
    hide RunOk;
    var b := a.(runs := a.runs + [r]);
    forall j, k | 0 <= j < k < |b.runs| ensures b.runs[j].entry != b.runs[k].entry {
      assert b.runs[j] in a.runs;
      assert b.runs[j].entry in Finished(a.runs);
    }
    RunsLater(sets, host, a, b);
    AccountedRange(sets, host, a);
    InRangeRun(sets, host, a, r);
    RunLater(sets, host, a, b, r);
  }

  lemma InRangeRun(sets: seq<InstructionSet>, host: Host, a: History, r: Run)
    requires RunOk(sets, host, a, r)
    ensures r.entry < r.until <= |a.entered|
  {
  }

  // ----------------------------------------------------- building the record

  /** Of the states only stack, methods and world are looked at. */
  lemma SameTarget(sets: seq<InstructionSet>, host: Host, past: History, cf: CallFrame, i: Instr, callee: Callee,
                   from: nat, to: nat, before: State, after: State, before': State, after': State, v: Value)
    requires IsCall(i) && TargetOk(sets, host, past, cf, i, callee, from, to, before, after, v)
    requires before.stack == before'.stack && before.defs == before'.defs && before.world == before'.world
    requires after.defs == after'.defs && after.world == after'.world
    ensures TargetOk(sets, host, past, cf, i, callee, from, to, before', after', v)
  {
    hide RoundsOk, Visits, RoundsOf, EmptyBlock, Mapped, MethodEntry, BlockEntry, EntryOf;
  }

  lemma KeptExtends(a: Shot, b: Shot, entered: set<CallFrame>, mine: set<CallFrame>)
    requires Kept(a, b, entered, mine)
    ensures Extends(a.past, b.past)
  {
    hide Untouched;
  }

  lemma StillOpen(a: Shot, b: Shot, entered: set<CallFrame>, mine: set<CallFrame>, entry: nat, cf: CallFrame)
    requires Kept(a, b, entered, mine) && Open(a.past, entry, cf)
    ensures Open(b.past, entry, cf)
  {
    hide Untouched;
    forall r | r in b.past.runs ensures r.entry != entry {
      var j :| 0 <= j < |b.past.runs| && b.past.runs[j] == r;
      if j < |a.past.runs| { assert a.past.runs[j] in a.past.runs; }
    }
  }

  lemma SameBuiltin(sets: seq<InstructionSet>, host: Host, past: History, receiver: Value, name: Name, args: seq<Value>,
                    callee: Callee, from: nat, to: nat, before: State, after: State, before': State, after': State,
                    v: Value)
    requires BuiltinOk(sets, host, past, receiver, name, args, callee, from, to, before, after, v)
    requires before.defs == before'.defs && before.world == before'.world
    requires after.defs == after'.defs && after.world == after'.world
    ensures BuiltinOk(sets, host, past, receiver, name, args, callee, from, to, before', after', v)
  {
  }

  lemma NothingRun(past: History, defs: map<MethodKey, nat>, world: World)
    ensures RoundsOk(past, [], |past.runs|, |past.runs|, defs, world, defs, world)
  {
  }

  lemma KeptRuns(a: Shot, b: Shot, entered: set<CallFrame>, mine: set<CallFrame>)
    requires Kept(a, b, entered, mine)
    ensures a.past.runs <= b.past.runs
  {
  }

  /** The turns lead from the start to here, and the frame has been ended by a break exactly if it is `removed`. */
  ghost predicate CodeSoFar(sets: seq<InstructionSet>, host: Host, past: History, cf: CallFrame, entry: nat,
                            start: State, from: nat, turns: seq<Turn>, end: State, removed: bool)
  {
    && Chained(start, from, turns, end, |past.runs|) && TurnsOk(sets, host, past, cf, turns) && Open(past, entry, cf)
    && (removed <==> EndsInBreak(sets, cf, turns)) && (cf in past.broken <==> removed)
  }

  lemma NoCode(sets: seq<InstructionSet>, host: Host, past: History, cf: CallFrame, entry: nat, start: State)
    requires Open(past, entry, cf) && cf !in past.broken
    ensures CodeSoFar(sets, host, past, cf, entry, start, |past.runs|, [], start, false) && Deferred([]) == []
  {
  }

  lemma NextCode(sets: seq<InstructionSet>, host: Host, a: Shot, b: Shot, cf: CallFrame, entry: nat,
                 start: State, from: nat, turns: seq<Turn>, t: Turn, removed: bool, removed': bool)
    requires Kept(a, b, {}, {cf}) && Accounted(sets, host, a.past) && t.from == |a.past.runs| && t.to == |b.past.runs|
    requires CodeSoFar(sets, host, a.past, cf, entry, start, from, turns, t.before, removed)
    requires TurnOk(sets, host, b.past, cf, t)
    requires (removed' <==> BreakTurn(sets, cf, t)) && (cf in b.past.broken <==> removed')
    ensures CodeSoFar(sets, host, b.past, cf, entry, start, from, turns + [t], t.after, removed')
    ensures Deferred(turns + [t]) == With(Deferred(turns), t.deferred)
  {
    hide Kept, Accounted, TurnOk, BreakTurn, Open, TurnsOk, Chained, EndsInBreak, With, Deferred;
    AccountedRange(sets, host, a.past);
    KeptExtends(a, b, {}, {cf});
    StillOpen(a, b, {}, {cf}, entry, cf);
    NextTurn(sets, host, a.past, b.past, cf, start, from, turns, t);
  }

  /** The loop has ended. */
  lemma AllCode(sets: seq<InstructionSet>, host: Host, past: History, cf: CallFrame, args: Slots<Value>, entry: nat,
                r: Run)
    requires CodeSoFar(sets, host, past, cf, entry, r.start, r.from, r.turns, r.end, r.broke) && r.to == |past.runs|
    requires cf.unit < |sets| && r.start.pc == 0 && |r.start.frames| > 0
    requires r.start.frames[|r.start.frames| - 1].locals == args
    requires r.end.pc >= |sets[cf.unit].code|
    ensures CodeRun(sets, host, past, cf, args, r) && (cf in past.broken <==> r.broke)
  {
    hide TurnsOk, Chained, EndsInBreak;
  }

  /** One turn more. */
  lemma NextTurn(sets: seq<InstructionSet>, host: Host, a: History, b: History, cf: CallFrame,
                 start: State, from: nat, turns: seq<Turn>, t: Turn)
    requires Extends(a, b) && InRange(a) && TurnsOk(sets, host, a, cf, turns) && TurnOk(sets, host, b, cf, t)
    requires Chained(start, from, turns, t.before, t.from)
    ensures TurnsOk(sets, host, b, cf, turns + [t]) && Chained(start, from, turns + [t], t.after, t.to)
    ensures Deferred(turns + [t]) == With(Deferred(turns), t.deferred)
    ensures EndsInBreak(sets, cf, turns + [t]) <==> BreakTurn(sets, cf, t)
  {
    hide TurnOk, Extends, InRange, BreakTurn;
    TurnsLater(sets, host, a, b, cf, turns);
    assert (turns + [t])[..|turns|] == turns;
  }

  /** The deferred blocks have been run after the code. */
  lemma FinishRun(sets: seq<InstructionSet>, host: Host, a: History, b: History, cf: CallFrame, args: Slots<Value>,
                  code: Run, entry: nat, value: Value, defs: map<MethodKey, nat>, world: World)
    returns (r: Run)
    requires Extends(a, b) && InRange(a) && CodeRun(sets, host, a, cf, args, code)
    requires entry < |b.entered| && b.entered[entry] == Entered(cf, args)
    requires Only(b.entered[entry + 1..], Frames(Deferred(code.turns))) == Reversed(Deferred(code.turns))
    requires BlocksRun(b, Reversed(Deferred(code.turns)), code.to, |b.runs|, code.end.defs, code.end.world, defs, world)
    requires b.tidy && code.end.stack != [] ==> value == code.end.stack[|code.end.stack| - 1]
    ensures r == code.(entry := entry, until := |b.entered|, last := |b.runs|, value := value, defs := defs,
                       world := world)
    ensures RunOk(sets, host, b, r)
  {
    hide TurnsOk, InRange, Extends, Only, Reversed, Deferred, Frames, Chained, EndsInBreak, BlocksRun;
    TurnsLater(sets, host, a, b, cf, code.turns);
    r := code.(entry := entry, until := |b.entered|, last := |b.runs|, value := value, defs := defs, world := world);
    assert b.entered[entry + 1..|b.entered|] == b.entered[entry + 1..];
  }

  /** A block is marked exactly if a run of it that was finished since was ended by a break, and none before. */
  lemma BreaksFound(sets: seq<InstructionSet>, host: Host, a: Shot, b: Shot, block: CallFrame)
    requires Accounted(sets, host, a.past) && Accounted(sets, host, b.past) && Kept(a, b, {}, {})
    requires (forall e :: e in a.past.entered ==> e.frame in a.frames) && !BrokenOff(block, a.past.broken)
    ensures BrokenOff(block, b.past.broken) <==>
      exists j :: |a.past.runs| <= j < |b.past.runs| && BreakAt(b.past, block, j)
  {
    hide RunOk, Untouched;
    forall k | 0 <= k < |a.past.entered| ensures b.past.entered[k].frame in a.frames {
      assert a.past.entered[k] in a.past.entered;
    }
    forall j | 0 <= j < |a.past.runs| ensures b.past.runs[j].entry < |a.past.entered| {
      assert a.past.runs[j] in a.past.runs;
    }
    forall f | f in b.past.broken && f.blockFrame == block
      ensures exists j :: |a.past.runs| <= j < |b.past.runs| && BreakAt(b.past, block, j)
    {
      var k :| 0 <= k < |b.past.entered| && b.past.entered[k].frame == f;
      assert k in Finished(b.past.runs);
      var r :| r in b.past.runs && r.entry == k;
      var j :| 0 <= j < |b.past.runs| && b.past.runs[j] == r;
      assert BreakAt(b.past, block, j);
    }
    forall j | |a.past.runs| <= j < |b.past.runs| && BreakAt(b.past, block, j) ensures BrokenOff(block, b.past.broken) {
      assert b.past.runs[j] in b.past.runs;
    }
  }

  // ------------------------------------------------------- deferred blocks

  /** What was picked stands in the same order as before. */
  lemma {:induction false} OnlyOrder(es: seq<Entered>, fs: set<CallFrame>, m: nat, n: nat) returns (k: nat, l: nat)
    requires m <= n < |Only(es, fs)|
    ensures k <= l < |es| && es[k] == Only(es, fs)[m] && es[l] == Only(es, fs)[n] && (m < n ==> k < l)
    decreases |es|
  {
    var rest := es[..|es| - 1];
    if n < |Only(rest, fs)| {
      k, l := OnlyOrder(rest, fs, m, n);
    } else {
      l := |es| - 1;
      k := l;
      if m < n {
        var k', _ := OnlyOrder(rest, fs, m, m);
        k := k';
      }
    }
  }

  /** What a frame's code has registered has been run, once each, from the registered locals on, after the
      code and before the frame was left, and what was registered later has been run first. */
  lemma DeferredRun(sets: seq<InstructionSet>, host: Host, before: History, past: History, r: Run, i: nat, j: nat)
    returns (first: Run, second: Run)
    requires Accounted(sets, host, past) && Settled(before, past) && r in past.runs && r.entry >= |before.entered|
    requires i <= j < |Deferred(r.turns)|
    ensures first in past.runs && second in past.runs
    ensures r.entry < first.entry <= second.entry < r.until <= |past.entered|
    ensures RunOk(sets, host, past, first) && past.entered[first.entry] == Deferred(r.turns)[j]
    ensures RunOk(sets, host, past, second) && past.entered[second.entry] == Deferred(r.turns)[i]
    ensures i < j ==> first.entry < second.entry
    ensures forall r' :: r' in past.runs && r'.entry < |past.entered| ==>
              && (past.entered[r'.entry].frame == Deferred(r.turns)[j].frame ==> r' == first)
              && (past.entered[r'.entry].frame == Deferred(r.turns)[i].frame ==> r' == second)
  {
    hide CodeRun, Deferred, Only, Accounted, Settled, BlocksRun;
    Justified(sets, host, past, r);
    var d, es := Deferred(r.turns), past.entered[r.entry + 1..r.until];
    var k, l := OnlyOrder(es, Frames(d), |d| - 1 - j, |d| - 1 - i);
    first := RunOf(past, before, r.entry + 1 + k);
    second := RunOf(past, before, r.entry + 1 + l);
    Justified(sets, host, past, first);
    Justified(sets, host, past, second);
    forall r' | r' in past.runs && r'.entry < |past.entered|
      ensures past.entered[r'.entry].frame == d[j].frame ==> r' == first
      ensures past.entered[r'.entry].frame == d[i].frame ==> r' == second
    {
      OneRun(sets, host, past, r', first);
      OneRun(sets, host, past, r', second);
    }
  }

  lemma Justified(sets: seq<InstructionSet>, host: Host, past: History, r: Run)
    requires Accounted(sets, host, past) && r in past.runs
    ensures RunOk(sets, host, past, r)
  {
    hide RunOk;
  }

  lemma RunOf(past: History, before: History, k: nat) returns (r: Run)
    requires Settled(before, past) && |before.entered| <= k < |past.entered|
    ensures r in past.runs && r.entry == k
  {
    assert k in Finished(past.runs);
    r :| r in past.runs && r.entry == k;
  }

  /** Runs of the same frame are the same. */
  lemma OneRun(sets: seq<InstructionSet>, host: Host, past: History, a: Run, b: Run)
    requires Accounted(sets, host, past) && a in past.runs && b in past.runs
    requires a.entry < |past.entered| && b.entry < |past.entered|
    ensures past.entered[a.entry].frame == past.entered[b.entry].frame ==> a == b
  {
    hide RunOk;
    var j :| 0 <= j < |past.runs| && past.runs[j] == a;
    var k :| 0 <= k < |past.runs| && past.runs[k] == b;
    if a.entry == b.entry && j != k {
      assert false;
    }
  }
}
