/**
 Lexical addressing: the (depth, index) the compiler computes for a name reaches,
 by `depth` ep links, the frame of the innermost activation that declares the
 name, and in it the slot of that name.
 */
module Locals {
  import opened Wrappers
  import opened Ast
  import opened Layout
  import opened Machine
  import opened Binding
  import opened WellFormed
  import opened Relation
  import Ev = Evaluator

  lemma {:induction false} ClimbAgrees(p: Program, envs: seq<Ev.Env>, frames: seq<Frame>, i: nat, depth: nat)
    requires EnvsOk(p, envs, frames)
    ensures Ev.Outward(envs, i, depth) == Climb(frames, i, depth)
    decreases depth
  {
    if i < |frames| && depth > 0 {
      assert EnvOk(p, envs[i], frames[i]);
      if frames[i].ep.Some? {
        ClimbAgrees(p, envs, frames, frames[i].ep.value, depth - 1);
      }
    }
  }

  /** A name found in enclosing table `depth` belongs to the frame depth + 1 links away. */
  lemma {:induction false} ClimbReaches(p: Program, frames: seq<Frame>, i: nat, x: Name)
    requires Linked(p, frames) && i < |frames| && frames[i].unit < |p.units|
    requires ResolveOuter(OuterOf(p.units[frames[i].unit]), x).Some?
    ensures
      var a := ResolveOuter(OuterOf(p.units[frames[i].unit]), x).value;
      var r := Climb(frames, i, a.depth + 1);
      && r.Some? && r.value < i && frames[r.value].unit < |p.units|
      && var names := Names(p.units[frames[r.value].unit]);
         a.index < |names| && names[a.index] == x
    decreases i
  {
    var outer := OuterOf(p.units[frames[i].unit]);
    assert LinkedAt(p, frames, i);
    var e := frames[i].ep.value;
    assert BlockFits(p, frames, frames[i].block.value, i);
    assert LinkedAt(p, frames, e);
    assert Climb(frames, e, 0) == Some(e);
    if x in outer[0] {
      assert Names(p.units[frames[e].unit])[Find(outer[0], x)] == outer[0][Find(outer[0], x)];
    } else {
      assert outer[1..] == OuterOf(p.units[frames[e].unit]);
      ClimbReaches(p, frames, e, x);
    }
  }

  /** Both sides resolve a declared name to the same activation, and the slot
      the address names is the slot of that name. */
  lemma AddressSound(p: Program, st: Ev.EState, s: State, sc: Scope, x: Name)
    requires Agree(p, st, s) && InScope(p, Top(s).unit, sc) && Resolve(sc, x).Some?
    ensures
      var a := Resolve(sc, x).value;
      var r := Climb(s.frames, |s.frames| - 1, a.depth);
      && r.Some? && Ev.Holder(st, sc, x) == r
      && s.frames[r.value].unit < |p.units|
      && var names := Names(p.units[s.frames[r.value].unit]);
         a.index < |names| && names[a.index] == x
  {
    var top := |s.frames| - 1;
    var a := Resolve(sc, x).value;
    ClimbAgrees(p, st.envs, s.frames, top, a.depth);
    if x !in sc.cur {
      ClimbReaches(p, s.frames, top, x);
    }
  }

  /** Reading an address gives the variable's value, nil if it was never assigned. */
  lemma ReadSound(p: Program, st: Ev.EState, s: State, sc: Scope, x: Name)
    requires Agree(p, st, s) && InScope(p, Top(s).unit, sc) && Resolve(sc, x).Some?
    ensures
      var a := Resolve(sc, x).value;
      var r := Climb(s.frames, |s.frames| - 1, a.depth);
      && r.Some? && Ev.Holder(st, sc, x) == r && r.value < |st.envs|
      && Slot(s.frames[r.value].locals, a.index) == Ev.Look(st.envs[r.value].vars, x)
  {
    AddressSound(p, st, s, sc, x);
    var r := Climb(s.frames, |s.frames| - 1, Resolve(sc, x).value.depth).value;
    assert EnvOk(p, st.envs[r], s.frames[r]);
  }

  /** Setting one slot sets one name: a table holds no name twice. */
  lemma FillVar(names: seq<Name>, vars: map<Name, Value>, locals: Slots<Value>, i: nat, v: Value)
    requires NoDup(names) && VarsOk(names, vars, locals) && i < |names|
    ensures VarsOk(names, vars[names[i] := v], Fill(locals, i, v))
  {
    forall m | 0 <= m < |names| && m != i ensures names[m] != names[i] {
      assert Differ(names, if m < i then m else i, if m < i then i else m);
    }
  }

  /** Replacing one frame's locals keeps the links. */
  lemma LinkedUpdate(p: Program, frames: seq<Frame>, at: nat, locals: Slots<Value>)
    requires Linked(p, frames) && at < |frames|
    ensures Linked(p, frames[at := frames[at].(locals := locals)])
  {
    var frames' := frames[at := frames[at].(locals := locals)];
    forall i | 0 <= i < |frames'| ensures LinkedAt(p, frames', i) {
      assert LinkedAt(p, frames, i);
    }
  }

  /** Assigning slot i of frame `at` and the variable of that name agree. */
  lemma SetAgrees(p: Program, st: Ev.EState, s: State, at: nat, i: nat, v: Value)
    requires Agree(p, st, s) && at < |s.frames| && s.frames[at].unit < |p.units|
    requires i < |Names(p.units[s.frames[at].unit])|
    ensures
      var f := s.frames[at];
      var s' := s.(frames := s.frames[at := f.(locals := Fill(f.locals, i, v))]);
      Agree(p, Ev.SetVar(st, at, Names(p.units[f.unit])[i], v), s')
  {
    var f := s.frames[at];
    var names := Names(p.units[f.unit]);
    assert EnvOk(p, st.envs[at], f);
    NamesNoDup(p.units[f.unit]);
    FillVar(names, st.envs[at].vars, f.locals, i, v);
    LinkedUpdate(p, s.frames, at, Fill(f.locals, i, v));
  }

  /** insertLocal assigns the variable the evaluator assigns.  For a variable of
      an enclosing activation this needs its slot to exist (see InsertMisplaces). */
  lemma StoreSound(p: Program, st: Ev.EState, s: State, sc: Scope, x: Name, v: Value)
    requires Agree(p, st, s) && InScope(p, Top(s).unit, sc) && Resolve(sc, x).Some?
    requires Ev.Store(st, sc, x, v).Done?
    ensures
      var a := Resolve(sc, x).value;
      var r := Insert(s.frames, a.index, a.depth, v);
      && r.Some? && Agree(p, Ev.Store(st, sc, x, v).st, s.(frames := r.value))
      && SameFrames(s.frames, r.value)
  {
    AddressSound(p, st, s, sc, x);
    var a := Resolve(sc, x).value;
    var j := Climb(s.frames, |s.frames| - 1, a.depth).value;
    ReadSound(p, st, s, sc, x);
    SetAgrees(p, st, s, j, a.index, v);
  }

  /** The exact limit: an assignment through depth > 0 reaches the declaring
      frame if and only if the slot there exists already; otherwise it creates a
      slot of that index in the running frame. */
  lemma InsertMisplaces(frames: seq<Frame>, index: nat, depth: nat, v: Value)
    requires |frames| > 0
    requires Climb(frames, |frames| - 1, depth).Some? && Climb(frames, |frames| - 1, depth).value != |frames| - 1
    ensures
      var j := Climb(frames, |frames| - 1, depth).value;
      var r := Insert(frames, index, depth, v);
      && r.Some?
      && (Slot(r.value[j].locals, index) == Some(v) <==> Slot(frames[j].locals, index).Some?)
      && (Slot(frames[j].locals, index).None? ==>
          r.value[j] == frames[j] && Slot(r.value[|frames| - 1].locals, index) == Some(v))
  {
  }
}
