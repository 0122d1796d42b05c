/**
 Entering and leaving an activation: a frame pushed by a call or a yield agrees
 with the evaluator's new environment, and leaving it restores the caller.
 */
module Activation {
  import opened Wrappers
  import opened Ast
  import opened Layout
  import opened Machine
  import opened Binding
  import opened Bytecode
  import opened WellFormed
  import opened Relation
  import Ev = Evaluator

  /** The bound slots, read by name. */
  lemma {:induction false} BoundAt(names: seq<Name>, slots: Slots<Value>, n: nat, x: Name)
    requires n <= |names| && n <= |slots| && NoDup(names)
    ensures
      var vars := Ev.Bound(names, slots, n);
      && (forall m :: 0 <= m < n ==> Ev.Look(vars, names[m]) == slots[m])
      && (x !in names[..n] ==> Ev.Look(vars, x) == None)
  {
    if n > 0 {
      BoundAt(names, slots, n - 1, x);
      BoundAt(names, slots, n - 1, names[n - 1]);
      forall m | 0 <= m < n - 1 ensures names[m] != names[n - 1] {
        assert Differ(names, m, n - 1);
      }
    }
  }

  /** A frame whose first names are the bound ones holds exactly the bound variables. */
  lemma BoundAgrees(names: seq<Name>, bound: seq<Name>, slots: Slots<Value>)
    requires NoDup(names) && bound <= names && |slots| <= |bound|
    ensures VarsOk(names, Ev.Bound(bound, slots, |slots|), slots)
  {
    forall m | 0 <= m < |names|
      ensures Slot(slots, m) == Ev.Look(Ev.Bound(bound, slots, |slots|), names[m])
    {
      forall i, j | 0 <= i < j < |bound| ensures Differ(bound, i, j) {
        assert Differ(names, i, j);
      }
      forall j | 0 <= j < |slots| && j < m ensures bound[j] != names[m] {
        assert Differ(names, j, m);
      }
      BoundAt(bound, slots, |slots|, names[m]);
      assert m >= |slots| ==> names[m] !in bound[..|slots|];
    }
  }

  /** The names of a method's parameters are the first names of its table. */
  lemma {:induction false} ParamNames(ps: seq<Param>, n: nat)
    requires n <= |ps| && PlainDefaults(ps, n)
    ensures
      var sc := AfterParams(ps, n, EMPTY);
      sc.outer == [] && |sc.cur| == n && forall i :: 0 <= i < n ==> sc.cur[i] == ps[i].name
  {
    if n > 0 {
      ParamNames(ps, n - 1);
    }
  }

  lemma MethodStart(u: Source)
    requires u.MethodSource? && WfUnit(u)
    ensures StartScope(u).cur == ParamSetOf(u.params).names && StartScope(u).outer == []
    ensures ParamSetOf(u.params).names <= Names(u) && NoDup(Names(u))
  {
    ParamNames(u.params, |u.params|);
    NamesNoDup(u);
  }

  lemma BlockStart(u: Source)
    requires u.BlockSource? && WfUnit(u)
    ensures StartScope(u) == Scope(u.names, u.outer)
    ensures u.names <= Names(u) && NoDup(Names(u))
  {
    NamesNoDup(u);
  }

  /** Links of the frames below stay what they are when one more frame is pushed or popped. */
  lemma LinkedPrefix(p: Program, frames: seq<Frame>, n: nat)
    requires Linked(p, frames) && n <= |frames|
    ensures Linked(p, frames[..n])
  {
    forall i | 0 <= i < n ensures LinkedAt(p, frames[..n], i) {
      assert LinkedAt(p, frames, i);
    }
  }

  lemma LinkedPush(p: Program, frames: seq<Frame>, f: Frame)
    requires Linked(p, frames) && LinkedAt(p, frames + [f], |frames|)
    ensures Linked(p, frames + [f])
  {
    forall i | 0 <= i < |frames| + 1 ensures LinkedAt(p, frames + [f], i) {
      if i < |frames| {
        assert LinkedAt(p, frames, i);
      }
    }
  }

  /** The state after Enter agrees with the evaluator's pushed environment. */
  lemma EnterAgrees(c: Setting, st: Ev.EState, s: State, env: Ev.Env, f: Frame)
    requires Ready(c, st, s)
    requires EnvOk(c.p, env, f) && LinkedAt(c.p, s.frames + [f], |s.frames|)
    ensures Ready(c, Ev.PushEnv(st, env), Enter(s, f))
  {
    LinkedPush(c.p, s.frames, f);
  }

  /** What a body's run from its entry state v must come to. */
  ghost predicate BodyEnds(c: Setting, fuel: nat, v: State, n: nat, out: Ev.Out) {
    var t := Later(c, v, n);
    match out
    case Val(x, st') => Arrives(c, st', v, t) && AtEnd(c.p.sets, t) && v.stack < t.stack && t.stack[|t.stack| - 1] == x
    case Returned(x, st') => Arrives(c, st', v, t) && AtEnd(c.p.sets, t) && v.stack < t.stack
      && t.stack[|t.stack| - 1] == x
    case Error(e, st') => t.status == Raised(e) && t.world == st'.world
    case Timeout => n >= fuel && !Halted(c.p.sets, t)
    case _ => true
  }

  /** Leaving: the result replaces everything from the frame's base on. */
  lemma LeaveAgrees(c: Setting, st: Ev.EState, o: State, base: seq<Value>, f: Frame, t: State)
    requires Drives(c) && Ready(c, st, t) && AtEnd(c.p.sets, t) && |o.frames| > 0
    requires SameFrames(o.frames + [f], t.frames)
    requires f.base == |base| && base < t.stack && o.stack == base
    ensures
      var t' := Later(c, t, 1);
      && Arrives(c, Ev.PopEnv(st), o, t')
      && t'.pc == f.ret && t'.stack == base + [t.stack[|t.stack| - 1]]
  {
    assert Iterate(c.next, c.next(t), 0) == Step(c.p.sets, c.h, t);
    LinkedPrefix(c.p, t.frames, |o.frames|);
  }

  lemma LeftAt(c: Setting, u: State, base: seq<Value>, f: Frame, n: nat, st: Ev.EState)
    requires Drives(c) && |u.frames| > 0 && Later(c, u, 1) == Enter(u, f) && f.base == |base| && base < u.stack
    requires var t := Later(c, Enter(u, f), n);
             Arrives(c, st, Enter(u, f), t) && AtEnd(c.p.sets, t) && u.stack < t.stack
    ensures
      var t := Later(c, Enter(u, f), n);
      var t' := Later(c, u, 1 + n + 1);
      && Arrives(c, Ev.PopEnv(st), u.(stack := base), t')
      && t'.pc == f.ret && t'.stack == base + [t.stack[|t.stack| - 1]]
  {
    var t := Later(c, Enter(u, f), n);
    assert t.stack[..|u.stack|] == u.stack;
    LeaveAgrees(c, st, u.(stack := base), base, f, t);
    IterateAdd(c.next, u, 1, n);
    IterateAdd(c.next, u, 1 + n, 1);
  }

  /** The whole activation: enter, run the body, leave. */
  lemma Activated(c: Setting, fuel: nat, u: State, base: seq<Value>, f: Frame, n: nat, out: Ev.Out) returns (m: nat)
    requires Drives(c) && fuel > 0 && |u.frames| > 0
    requires Later(c, u, 1) == Enter(u, f) && f.base == |base| && base < u.stack
    requires BodyEnds(c, fuel - 1, Enter(u, f), n, out)
    ensures Lands(c, fuel, u.(stack := base), m, Later(c, u, m), Ev.Finish(out), f.ret, None)
  {
    if out.Val? || out.Returned? {
      LeftAt(c, u, base, f, n, out.st);
      m := 1 + n + 1;
    } else {
      IterateAdd(c.next, u, 1, n);
      m := 1 + n;
    }
  }
}
