/**
 Which variable a name means: that of the innermost table that has it; and what
 a declaration changes.
 */
module Scopes {
  import opened Wrappers
  import opened Ast
  import opened Layout

  /** All tables, innermost first. */
  function TablesOf(sc: Scope): seq<seq<Name>> {
    [sc.cur] + sc.outer
  }

  lemma {:induction false} FirstFound(names: seq<Name>, x: Name)
    requires x in names
    ensures forall j :: 0 <= j < Find(names, x) ==> names[j] != x
  {
    if names[0] != x {
      FirstFound(names[1..], x);
      forall j | 0 <= j < Find(names, x) ensures names[j] != x {
        if j > 0 { assert names[j] == names[1..][j - 1]; }
      }
    }
  }

  /** The address leads to the name, at its first place in the table, and no table further in has it. */
  ghost predicate LeadsTo(tables: seq<seq<Name>>, a: Address, x: Name) {
    && a.depth < |tables| && a.index < |tables[a.depth]| && tables[a.depth][a.index] == x
    && (forall j :: 0 <= j < a.index ==> tables[a.depth][j] != x)
    && (forall d :: 0 <= d < a.depth ==> x !in tables[d])
  }

  lemma {:induction false} InnermostOuter(outer: seq<seq<Name>>, x: Name)
    ensures ResolveOuter(outer, x).None? ==> forall d :: 0 <= d < |outer| ==> x !in outer[d]
    ensures ResolveOuter(outer, x).Some? ==> LeadsTo(outer, ResolveOuter(outer, x).value, x)
  {
    if outer != [] {
      if x in outer[0] {
        FirstFound(outer[0], x);
      } else {
        InnermostOuter(outer[1..], x);
        forall d | 0 < d < |outer| ensures outer[d] == outer[1..][d - 1] { }
      }
    }
  }

  /** A name means the variable of the innermost table that has it. */
  lemma Innermost(sc: Scope, x: Name)
    ensures
      match Resolve(sc, x)
      case None => forall d :: 0 <= d < |TablesOf(sc)| ==> x !in TablesOf(sc)[d]
      case Some(a) => LeadsTo(TablesOf(sc), a, x)
  {
    if x in sc.cur {
      FirstFound(sc.cur, x);
    } else {
      InnermostOuter(sc.outer, x);
      forall d | 0 < d < |TablesOf(sc)| ensures TablesOf(sc)[d] == sc.outer[d - 1] { }
    }
  }

  lemma {:induction false} FindAppended(names: seq<Name>, x: Name, y: Name)
    ensures y in names ==> Find(names + [x], y) == Find(names, y)
    ensures y !in names && y == x ==> Find(names + [x], y) == |names|
  {
    if names != [] {
      assert (names + [x])[1..] == names[1..] + [x];
      FindAppended(names[1..], x, y);
    }
  }

  /** Declaring a name that means a variable already changes nothing; any other gets the next slot of the innermost
      table, and all others keep theirs. */
  lemma Declares(sc: Scope, x: Name, y: Name)
    ensures Resolve(Declare(sc, x), y) ==
      if Resolve(sc, y).Some? then Resolve(sc, y) else if y == x then Some(Address(0, |sc.cur|)) else None
    ensures Resolve(sc, x).Some? ==> Declare(sc, x) == sc
  {
    FindAppended(sc.cur, x, y);
    if Resolve(sc, x).None? { assert y in sc.cur + [x] <==> y in sc.cur || y == x; }
  }

  /** A block's parameters stand in its own table, in order, and hide variables of the same name around it. */
  lemma BlockParameters(names: seq<Name>, outer: seq<seq<Name>>, i: nat)
    requires i < |names| && forall j, k :: 0 <= j < k < |names| ==> names[j] != names[k]
    ensures Resolve(BlockScope(names, outer), names[i]) == Some(Address(0, i))
  {
    DistinctNames(names, |names|);
    assert names[..|names|] == names;
    FirstFound(names, names[i]);
  }

  lemma {:induction false} DistinctNames(names: seq<Name>, n: nat)
    requires n <= |names| && forall j, k :: 0 <= j < k < |names| ==> names[j] != names[k]
    ensures Distinct(names, n) == names[..n]
  {
    if n > 0 {
      DistinctNames(names, n - 1);
      assert names[..n] == names[..n - 1] + [names[n - 1]];
    }
  }
}
