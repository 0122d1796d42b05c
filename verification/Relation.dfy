/**
 How an evaluator state and a machine state agree: activation i is frame i, and
 the value of a name is the local at the name's index.
 */
module Relation {
  import opened Wrappers
  import opened Ast
  import opened Layout
  import Bytecode
  import opened Machine
  import opened Binding
  import opened WellFormed
  import Ev = Evaluator

  /** A compiled program, the host it runs on, and the step function they make.
      Proofs that only chain runs never look inside `next`. */
  datatype Setting = Setting(p: Program, h: Host, next: State -> State)

  ghost predicate Drives(c: Setting) {
    forall s {:trigger Step(c.p.sets, c.h, s)} :: c.next(s) == Step(c.p.sets, c.h, s)
  }

  ghost predicate UnitWf(p: Program, k: nat)
    requires k < |p.units|
  {
    WfUnit(p.units[k])
  }

  ghost predicate Sound(p: Program) {
    Compiled(p) && forall k {:trigger UnitWf(p, k)} :: 0 <= k < |p.units| ==> UnitWf(p, k)
  }

  /** The scope is one the unit's compilation passes through. */
  ghost predicate InScope(p: Program, k: nat, sc: Scope) {
    k < |p.units| && sc.cur <= Names(p.units[k]) && sc.outer == OuterOf(p.units[k])
  }

  /** `outer` is what a block written in unit k sees around it. */
  ghost predicate ScopeFits(p: Program, k: nat, outer: seq<seq<Name>>) {
    |outer| > 0 && InScope(p, k, Scope(outer[0], outer[1..]))
  }

  ghost predicate BlockFits(p: Program, frames: seq<Frame>, b: BlockRef, i: nat) {
    && b.ep < i <= |frames|
    && b.unit < |p.units| && p.units[b.unit].BlockSource?
    && ScopeFits(p, frames[b.ep].unit, p.units[b.unit].outer)
  }

  /** Frame i's links point down the frame list, to the frame its text stands in. */
  ghost predicate LinkedAt(p: Program, frames: seq<Frame>, i: nat)
    requires i < |frames|
  {
    var f := frames[i];
    && f.unit < |p.units|
    && (f.block.Some? ==> BlockFits(p, frames, f.block.value, i))
    && (if p.units[f.unit].BlockSource?
        then f.block.Some? && f.block.value.unit == f.unit && f.ep == Some(f.block.value.ep)
        else f.ep.None?)
  }

  ghost predicate Linked(p: Program, frames: seq<Frame>) {
    forall i {:trigger LinkedAt(p, frames, i)} :: 0 <= i < |frames| ==> LinkedAt(p, frames, i)
  }

  ghost predicate VarsOk(names: seq<Name>, vars: map<Name, Value>, locals: Slots<Value>) {
    forall m :: 0 <= m < |names| ==> Slot(locals, m) == Ev.Look(vars, names[m])
  }

  ghost predicate BlockOk(p: Program, eb: Option<Ev.BlockVal>, vb: Option<BlockRef>) {
    if vb.None? then eb.None?
    else
      && eb.Some?
      && vb.value.ep == eb.value.ep
      && vb.value.unit < |p.units|
      && var u := p.units[vb.value.unit];
         u.BlockSource? && u.names == eb.value.params && u.body == eb.value.body && u.outer == eb.value.outer
  }

  ghost predicate EnvOk(p: Program, env: Ev.Env, f: Frame) {
    && f.unit < |p.units|
    && env.self == f.self
    && env.ep == f.ep
    && BlockOk(p, env.block, f.block)
    && VarsOk(Names(p.units[f.unit]), env.vars, f.locals)
  }

  ghost predicate EnvsOk(p: Program, envs: seq<Ev.Env>, frames: seq<Frame>) {
    && |envs| == |frames|
    && forall i {:trigger EnvOk(p, envs[i], frames[i])} :: 0 <= i < |frames| ==> EnvOk(p, envs[i], frames[i])
  }

  ghost predicate DefsOk(p: Program, edefs: map<MethodKey, Ev.MethodDef>, vdefs: map<MethodKey, nat>) {
    && edefs.Keys == vdefs.Keys
    && forall key {:trigger vdefs[key]} :: key in vdefs ==>
         && vdefs[key] < |p.units|
         && p.units[vdefs[key]] == MethodSource(edefs[key].params, edefs[key].body)
  }

  ghost predicate Agree(p: Program, st: Ev.EState, s: State) {
    && |s.frames| > 0
    && EnvsOk(p, st.envs, s.frames)
    && Linked(p, s.frames)
    && DefsOk(p, st.defs, s.defs)
    && st.world == s.world
  }

  ghost predicate Ready(c: Setting, st: Ev.EState, s: State) {
    Agree(c.p, st, s) && s.status == Running
  }

  function Top(s: State): Frame
    requires |s.frames| > 0
  {
    s.frames[|s.frames| - 1]
  }

  /** Only locals differ. */
  ghost predicate SameFrames(a: seq<Frame>, b: seq<Frame>) {
    && |a| == |b|
    && forall i :: 0 <= i < |a| ==> b[i] == a[i].(locals := b[i].locals)
  }

  ghost predicate Arrives(c: Setting, st': Ev.EState, s: State, t: State) {
    Ready(c, st', t) && SameFrames(s.frames, t.frames)
  }

  /** What n steps that led to t amount to, seen from a state with the frames and
      stack of s: past the code with the value pushed, at the frame's end, at a
      loop's jump target, stopped by the same error, or still running after at
      least `fuel` steps. */
  ghost predicate Lands(c: Setting, fuel: nat, s: State, n: nat, t: State, out: Ev.Out, end: int, loop: Option<Loop>) {
    match out
    case Val(v, st') => Arrives(c, st', s, t) && t.pc == end && t.stack == s.stack + [v]
    case Done(st') => Arrives(c, st', s, t) && t.pc == end && t.stack == s.stack
    case Returned(v, st') =>
      && Arrives(c, st', s, t) && AtEnd(c.p.sets, t)
      && s.stack < t.stack && t.stack[|t.stack| - 1] == v
    case Broke(st') => Arrives(c, st', s, t) && loop.Some? && t.pc == loop.value.exit && t.stack == s.stack
    case Continued(st') => Arrives(c, st', s, t) && loop.Some? && t.pc == loop.value.next && t.stack == s.stack
    case Error(e, st') => t.status == Raised(e) && t.world == st'.world
    case Timeout => n >= fuel && !Halted(c.p.sets, t)
    case Undefined => true
  }

  function Later(c: Setting, s: State, n: nat): State {
    Iterate(c.next, s, n)
  }

  ghost predicate Ends(c: Setting, fuel: nat, s: State, n: nat, out: Ev.Out, end: int, loop: Option<Loop>) {
    Lands(c, fuel, s, n, Later(c, s, n), out, end, loop)
  }

  // --------------------------------------------------------------- chaining

  /** One step at a known instruction. */
  lemma One(c: Setting, st: Ev.EState, s: State, i: Bytecode.Instr)
    requires Drives(c) && Ready(c, st, s) && At(c.p, Top(s).unit, s.pc, i)
    ensures Top(s).unit < |c.p.sets| && !Halted(c.p.sets, s)
    ensures Later(c, s, 1) == Exec(c.p.sets, c.h, s, i)
  {
    assert EnvOk(c.p, st.envs[|s.frames| - 1], Top(s));
    assert Iterate(c.next, c.next(s), 0) == Step(c.p.sets, c.h, s);
  }

  lemma ArrivesHere(c: Setting, st: Ev.EState, s: State)
    requires Ready(c, st, s)
    ensures Arrives(c, st, s, s)
  {
  }

  lemma Arrived(c: Setting, mid: Ev.EState, st: Ev.EState, s: State, t: State, u: State)
    requires Arrives(c, mid, s, t) && Arrives(c, st, t, u)
    ensures Arrives(c, st, s, u)
  {
  }

  /** What starts m steps later at the same stack height ends the same way. */
  lemma Delay(c: Setting, fuel: nat, s: State, m: nat, t: State, fuel': nat, o: State, n: nat,
              out: Ev.Out, end: int, inner: Option<Loop>, loop: Option<Loop>)
    requires Later(c, s, m) == t && SameFrames(s.frames, o.frames) && s.stack == o.stack
    requires Lands(c, fuel', o, n, Later(c, t, n), out, end, inner) && fuel <= fuel' + m
    requires inner.None? || inner == loop
    ensures Ends(c, fuel, s, m + n, out, end, loop)
  {
    IterateAdd(c.next, s, m, n);
  }

  /** An operand that gives no value stops the whole expression, whatever is
      already on the stack. */
  lemma Abandon(c: Setting, fuel: nat, s: State, m: nat, t: State, fuel': nat, n: nat, out: Ev.Out, end: int, end': int,
                loop: Option<Loop>)
    requires Later(c, s, m) == t && SameFrames(s.frames, t.frames) && s.stack <= t.stack
    requires Ends(c, fuel', t, n, out, end, None) && fuel <= fuel' + m
    requires !out.Val? && !out.Done?
    ensures Ends(c, fuel, s, m + n, out, end', loop)
  {
    IterateAdd(c.next, s, m, n);
  }
}
