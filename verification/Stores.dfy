/**
 Single and multiple assignment: the SetLocal and Pop instructions behind the
 value (and behind ExpandArray) store exactly the evaluator's variables.
 */
module Stores {
  import opened Wrappers
  import opened Ast
  import opened Layout
  import opened Machine
  import opened Bytecode
  import opened WellFormed
  import opened Relation
  import opened Locals
  import opened Steps
  import Ev = Evaluator

  /** One SetLocal. */
  lemma SetLocalSound(c: Setting, st: Ev.EState, s: State, sc: Scope, x: Name, v: Value)
    requires Drives(c) && Ready(c, st, s) && InScope(c.p, Top(s).unit, sc) && Resolve(sc, x).Some?
    requires |s.stack| > 0 && s.stack[|s.stack| - 1] == v
    requires At(c.p, Top(s).unit, s.pc, ISetLocal(Resolve(sc, x).value.depth, Resolve(sc, x).value.index))
    requires Ev.Store(st, sc, x, v).Done?
    ensures
      var t := Later(c, s, 1);
      Arrives(c, Ev.Store(st, sc, x, v).st, s, t) && t.pc == s.pc + 3 && t.stack == s.stack
  {
    var a := Resolve(sc, x).value;
    One(c, st, s, ISetLocal(a.depth, a.index));
    StoreSound(c.p, st, s, sc, x, v);
  }

  /** The height left when n of the variables have been stored: the last value stays. */
  function Left(count: nat, n: nat): nat
    requires n <= count
  {
    if n < count then count - n else 1
  }

  lemma StoreOne(c: Setting, st: Ev.EState, s: State, vars: seq<Name>, i: nat, sc: Scope, v: Value, many: bool)
    returns (m: nat)
    requires Drives(c) && Ready(c, st, s) && i < |vars| && many == (|vars| > 1)
    requires StoreAt(c.p, Top(s).unit, s.pc, vars, i, sc)
    requires InScope(c.p, Top(s).unit, if vars[i] == BLANK then sc else Declare(sc, vars[i]))
    requires |s.stack| > 0 && s.stack[|s.stack| - 1] == Ev.ElementOf(v, many, i)
    requires vars[i] != BLANK ==> Ev.Store(st, Declare(sc, vars[i]), vars[i], Ev.ElementOf(v, many, i)).Done?
    ensures
      var t := Later(c, s, m);
      var st' := if vars[i] == BLANK then st
        else Ev.Store(st, Declare(sc, vars[i]), vars[i], Ev.ElementOf(v, many, i)).st;
      && Arrives(c, st', s, t) && t.pc == s.pc + StoreSize(vars, i)
      && t.stack == (if i != |vars| - 1 then s.stack[..|s.stack| - 1] else s.stack)
  {
    hide Exec, Step, Decode, Ev.Store, Resolve, Names, EnvsOk, Linked, DefsOk;
    m := 0;
    var t, st' := s, st;
    assert Iterate(c.next, s, 0) == s;
    if vars[i] != BLANK {
      SetLocalSound(c, st, s, Declare(sc, vars[i]), vars[i], Ev.ElementOf(v, many, i));
      m, t := 1, Later(c, s, 1);
      st' := Ev.Store(st, Declare(sc, vars[i]), vars[i], Ev.ElementOf(v, many, i)).st;
    }
    if i != |vars| - 1 {
      PopSound(c, st', t);
      IterateAdd(c.next, s, m, 1);
      m := m + 1;
    }
  }

  lemma TopOf(base: seq<Value>, pushed: seq<Value>, k: nat)
    requires 0 < k <= |pushed|
    ensures var s := base + pushed[..k]; s[|s| - 1] == pushed[k - 1] && s[..|s| - 1] == base + pushed[..k - 1]
  {
  }

  /** Where the machine is when n of the variables have been stored, `r` being the outcome. */
  ghost predicate Stored(c: Setting, s: State, m: nat, base: seq<Value>, pushed: seq<Value>,
                         vars: seq<Name>, n: nat, r: Ev.Out)
    requires n <= |vars| == |pushed| && |vars| > 0
  {
    var t := Later(c, s, m);
    && (r.Done? || r.Undefined?)
    && (r.Done? ==> Arrives(c, r.st, s, t) && t.pc == s.pc + SizeStores(vars, n)
                    && t.stack == base + pushed[..Left(|vars|, n)])
  }

  lemma StoreNext(c: Setting, s: State, m: nat, base: seq<Value>, pushed: seq<Value>, vars: seq<Name>, i: nat,
                  sc: Scope, v: Value, many: bool, st: Ev.EState, r: Ev.Out) returns (m': nat)
    requires Drives(c) && |s.frames| > 0 && i < |vars| == |pushed| && many == (|vars| > 1)
    requires Stored(c, s, m, base, pushed, vars, i, Ev.Done(st))
    requires r == StoreStep(st, vars, i, sc, v)
    requires StoreAt(c.p, Top(s).unit, s.pc + SizeStores(vars, i), vars, i, sc)
    requires InScope(c.p, Top(s).unit, if vars[i] == BLANK then sc else Declare(sc, vars[i]))
    requires pushed[|vars| - 1 - i] == Ev.ElementOf(v, many, i)
    ensures Stored(c, s, m', base, pushed, vars, i + 1, r)
  {
    hide Exec, Step, Decode, Resolve, Names, EnvOk, LinkedAt, Iterate, InScope;
    m' := m;
    if r.Done? {
      var t := Later(c, s, m);
      TopOf(base, pushed, |vars| - i);
      var k := StoreOne(c, st, t, vars, i, sc, v, many);
      IterateAdd(c.next, s, m, k);
      Arrived(c, st, r.st, s, t, Later(c, t, k));
      m' := m + k;
    }
  }

  function StoreStep(st: Ev.EState, vars: seq<Name>, i: nat, sc: Scope, v: Value): Ev.Out
    requires i < |vars|
  {
    if vars[i] == BLANK then Ev.Done(st)
    else Ev.Store(st, Declare(sc, vars[i]), vars[i], Ev.ElementOf(v, |vars| > 1, i))
  }

  lemma StoreAllStep(st: Ev.EState, vars: seq<Name>, n: nat, sc: Scope, v: Value)
    requires 0 < n <= |vars|
    ensures
      var before := Ev.StoreAll(st, sc, vars, n - 1, v);
      Ev.StoreAll(st, sc, vars, n, v)
      == if before.Done? then StoreStep(before.st, vars, n - 1, DeclareAll(sc, vars, n - 1), v) else before
  {
  }

  /** The first n variables, from the top of the pushed values down. */
  lemma {:induction false} StoresSound(c: Setting, st: Ev.EState, s: State, base: seq<Value>, pushed: seq<Value>,
                                       vars: seq<Name>, n: nat, sc: Scope, v: Value, many: bool) returns (m: nat)
    requires Drives(c) && Ready(c, st, s) && many == (|vars| > 1) && n <= |vars| == |pushed| && |vars| > 0
    requires StoresAt(c.p, Top(s).unit, s.pc, vars, n, sc) && InScope(c.p, Top(s).unit, DeclareAll(sc, vars, n))
    requires s.stack == base + pushed
    requires forall i {:trigger Ev.ElementOf(v, many, i)} ::
               0 <= i < |vars| ==> pushed[|vars| - 1 - i] == Ev.ElementOf(v, many, i)
    ensures Stored(c, s, m, base, pushed, vars, n, Ev.StoreAll(st, sc, vars, n, v))
    decreases n
  {
    hide Exec, Step, Decode, Ev.Store, Resolve, Names, Ev.Holder, Declare, EnvsOk, Linked, DefsOk;
    if n == 0 {
      m := 0;
      assert Later(c, s, 0) == s;
      assert pushed[..Left(|vars|, 0)] == pushed;
      ArrivesHere(c, st, s);
    } else {
      DeclareAllMonotone(sc, vars, n - 1, n);
      m := StoresSound(c, st, s, base, pushed, vars, n - 1, sc, v, many);
      var before := Ev.StoreAll(st, sc, vars, n - 1, v);
      StoreAllStep(st, vars, n, sc, v);
      if before.Done? {
        m := StoreNext(c, s, m, base, pushed, vars, n - 1, DeclareAll(sc, vars, n - 1), v, many, before.st,
                       Ev.StoreAll(st, sc, vars, n, v));
      }
    }
  }
}
