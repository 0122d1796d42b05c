/**
 What binding promises a method: positional parameters get the positional
 arguments in order wherever keywords stand between them, keywords get their
 own arguments, and a rest parameter gets exactly what is left.
 */
module BindingLaws {
  import opened Wrappers
  import opened Ast
  import opened Bytecode
  import opened Binding

  /** How many of the first n entries are positional. */
  function Rank(types: seq<ArgKind>, n: nat): (r: nat)
    requires n <= |types|
    ensures r <= n
  {
    if n == 0 then 0 else Rank(types, n - 1) + (if IsPositional(types[n - 1]) then 1 else 0)
  }

  lemma {:induction false} RankGrows(types: seq<ArgKind>, m: nat, n: nat)
    requires m <= n <= |types|
    ensures Rank(types, m) <= Rank(types, n)
    ensures m < n && IsPositional(types[m]) ==> Rank(types, m) < Rank(types, n)
    ensures (forall i :: m <= i < n ==> !IsPositional(types[i])) ==> Rank(types, m) == Rank(types, n)
    decreases n
  {
    if m < n { RankGrows(types, m, n - 1); }
  }

  /** Argument a is the positional argument number r. */
  ghost predicate IsNth(given: seq<ArgKind>, a: int, r: nat) {
    0 <= a < |given| && IsPositional(given[a]) && Rank(given, a) == r
  }

  lemma {:induction false} NthUnique(given: seq<ArgKind>, a: nat, b: nat, r: nat)
    requires IsNth(given, a, r) && IsNth(given, b, r)
    ensures a == b
  {
    if a < b { RankGrows(given, a, b); } else { RankGrows(given, b, a); }
  }

  lemma {:induction false} NthExists(given: seq<ArgKind>, n: nat, r: nat) returns (a: nat)
    requires n <= |given| && r < Rank(given, n)
    ensures a < n && IsNth(given, a, r)
    decreases n
  {
    if IsPositional(given[n - 1]) && Rank(given, n - 1) == r { a := n - 1; } else { a := NthExists(given, n - 1, r); }
  }

  /** Slot j holds positional argument number r, or is still unset if there are not so many. */
  ghost predicate HoldsNth<T>(given: seq<ArgKind>, args: seq<T>, slots: Slots<T>, j: nat, r: nat)
    requires j < |slots| && |given| <= |args|
  {
    if r < Rank(given, |given|) then exists a :: IsNth(given, a, r) && slots[j] == Some(args[a])
    else slots[j] == None
  }

  // ------------------------------------------------------------- positionals

  ghost predicate Placed<T>(ps: seq<ArgKind>, given: seq<ArgKind>, args: seq<T>, before: Slots<T>, after: Slots<T>,
                            n: nat, j: nat)
    requires n <= |ps| == |before| == |after| && |given| <= |args| && j < |ps|
  {
    if j < n && IsPositional(ps[j]) && Rank(ps, j) < Rank(given, |given|)
    then exists a :: IsNth(given, a, Rank(ps, j)) && after[j] == Some(args[a])
    else after[j] == before[j]
  }

  ghost predicate AllPlaced<T>(ps: seq<ArgKind>, given: seq<ArgKind>, args: seq<T>, before: Slots<T>, after: Slots<T>,
                               n: nat)
    requires n <= |ps| == |before| == |after| && |given| <= |args|
  {
    forall j {:trigger Placed(ps, given, args, before, after, n, j)} :: 0 <= j < |ps| ==>
      Placed(ps, given, args, before, after, n, j)
  }

  function Least(a: nat, b: nat): nat {
    if a <= b then a else b
  }

  /** The parameter loop has used as many positional arguments as it has seen positional parameters. */
  lemma {:induction false} PositionalsUsed<T>(ps: seq<ArgKind>, given: seq<ArgKind>, args: seq<T>, pack: seq<T> -> T,
                                              slots: Slots<T>, n: nat)
    requires n <= |ps| == |slots| && |given| <= |args|
    ensures Rank(given, AssignPositional(ps, given, args, pack, slots, n).1) == Least(Rank(ps, n), Rank(given, |given|))
    decreases n
  {
    hide NextPositional, AssignPositional;
    if n == 0 {
      NothingUsed(ps, given, args, pack, slots);
    } else {
      PositionalsUsed(ps, given, args, pack, slots, n - 1);
      var from := AssignPositional(ps, given, args, pack, slots, n - 1).1;
      UsedNext(ps, given, args, pack, slots, n);
      RankNext(given, from);
    }
  }

  lemma NothingUsed<T>(ps: seq<ArgKind>, given: seq<ArgKind>, args: seq<T>, pack: seq<T> -> T, slots: Slots<T>)
    requires |ps| == |slots| && |given| <= |args|
    ensures AssignPositional(ps, given, args, pack, slots, 0).1 == 0
  {
  }

  lemma UsedNext<T>(ps: seq<ArgKind>, given: seq<ArgKind>, args: seq<T>, pack: seq<T> -> T, slots: Slots<T>, n: nat)
    requires 0 < n <= |ps| == |slots| && |given| <= |args|
    ensures
      var from := AssignPositional(ps, given, args, pack, slots, n - 1).1;
      var a := NextPositional(given, from);
      AssignPositional(ps, given, args, pack, slots, n).1 ==
        if IsPositional(ps[n - 1]) && a < |given| then a + 1 else from
  {
    hide NextPositional;
  }

  /** Behind the next positional argument the rank is one more; without one it is the rank of all. */
  lemma RankNext(given: seq<ArgKind>, from: nat)
    requires from <= |given|
    ensures
      var a := NextPositional(given, from);
      if a < |given| then Rank(given, a + 1) == Rank(given, from) + 1 <= Rank(given, |given|)
        else Rank(given, from) == Rank(given, |given|)
  {
    hide NextPositional;
    var a := NextPositional(given, from);
    RankGrows(given, from, a);
    if a < |given| { RankGrows(given, a + 1, |given|); }
  }

  /** The parameter loop, as long as it meets no rest parameter. */
  lemma {:induction false} PositionalsPlaced<T>(ps: seq<ArgKind>, given: seq<ArgKind>, args: seq<T>, pack: seq<T> -> T,
                                                slots: Slots<T>, n: nat)
    requires n <= |ps| == |slots| && |given| <= |args| && SplatArg !in ps[..n]
    ensures AllPlaced(ps, given, args, slots, AssignPositional(ps, given, args, pack, slots, n).0, n)
    decreases n
  {
    hide NextPositional, Rank;
    if n == 0 {
      forall j | 0 <= j < |ps| ensures Placed(ps, given, args, slots, slots, 0, j) { }
    } else {
      assert ps[..n - 1] == ps[..n][..n - 1] && ps[n - 1] in ps[..n];
      PositionalsPlaced(ps, given, args, pack, slots, n - 1);
      PositionalsUsed(ps, given, args, pack, slots, n - 1);
      var (s0, from) := AssignPositional(ps, given, args, pack, slots, n - 1);
      var s := AssignPositional(ps, given, args, pack, slots, n).0;
      forall j | 0 <= j < |ps| ensures Placed(ps, given, args, slots, s, n, j) {
        assert Placed(ps, given, args, slots, s0, n - 1, j);
        if j == n - 1 && IsPositional(ps[j]) { NextIsNth(given, from, Rank(ps, j)); }
      }
    }
  }

  /** The positional argument found is the one whose turn it is. */
  lemma NextIsNth(given: seq<ArgKind>, from: nat, r: nat)
    requires from <= |given| && Rank(given, from) == Least(r, Rank(given, |given|))
    ensures
      var a := NextPositional(given, from);
      if r < Rank(given, |given|) then IsNth(given, a, r) else a == |given|
  {
    hide NextPositional;
    var a := NextPositional(given, from);
    RankGrows(given, from, a);
    if a < |given| { RankGrows(given, a, |given|); }
  }

  /** A normal parameter among the first n has its argument, any other slot is as before. */
  ghost predicate NormalSlot<T>(ps: seq<ArgKind>, args: seq<T>, before: Slots<T>, after: Slots<T>, n: nat, j: nat)
    requires n <= |ps| == |before| == |after| && j < |ps|
  {
    if j < n && ps[j] == NormalArg
    then CountNormal(ps[..j]) < |args| && after[j] == Some(args[CountNormal(ps[..j])])
    else after[j] == before[j]
  }

  ghost predicate NormalSlots<T>(ps: seq<ArgKind>, args: seq<T>, before: Slots<T>, after: Slots<T>, n: nat)
    requires n <= |ps| == |before| == |after|
  {
    forall j {:trigger NormalSlot(ps, args, before, after, n, j)} :: 0 <= j < |ps| ==>
      NormalSlot(ps, args, before, after, n, j)
  }

  lemma {:induction false} NormalsPlaced<T>(ps: seq<ArgKind>, args: seq<T>, n: nat, slots: Slots<T>)
    requires n <= |ps| == |slots| && CountNormal(ps) <= |args|
    ensures NormalSlots(ps, args, slots, AssignNormal(ps, args, n, slots), n)
    decreases n
  {
    var s := AssignNormal(ps, args, n, slots);
    if n == 0 {
      forall j | 0 <= j < |ps| ensures NormalSlot(ps, args, slots, s, n, j) { }
    } else {
      var s0 := AssignNormal(ps, args, n - 1, slots);
      CountNormalMonotone(ps, n);
      NormalsPlaced(ps, args, n - 1, slots);
      forall j | 0 <= j < |ps| ensures NormalSlot(ps, args, slots, s, n, j) {
        assert NormalSlot(ps, args, slots, s0, n - 1, j);
      }
    }
  }

  /** The normal parameters come before the optional ones. */
  predicate NormalsFirst(ps: seq<ArgKind>) {
    forall i, j :: 0 <= i < j < |ps| && ps[i] == OptionedArg ==> ps[j] != NormalArg
  }

  lemma {:induction false} NormalRank(ps: seq<ArgKind>, n: nat)
    requires n <= |ps| && NormalsFirst(ps)
    ensures CountNormal(ps[..n]) <= Rank(ps, n) && CountNormal(ps[..n]) <= CountNormal(ps)
    ensures OptionedArg !in ps[..n] ==> CountNormal(ps[..n]) == Rank(ps, n)
    ensures OptionedArg in ps[..n] ==> CountNormal(ps[..n]) == CountNormal(ps)
    decreases n
  {
    if n == 0 {
      CountAtMost(ps, 0);
    } else {
      NormalRank(ps, n - 1);
      CountNormalMonotone(ps, n);
      assert ps[..n] == ps[..n - 1] + [ps[n - 1]];
      if ps[n - 1] == OptionedArg && OptionedArg !in ps[..n - 1] {
        NoMoreNormals(ps, n, |ps|);
        assert ps[..|ps|] == ps;
      }
    }
  }

  lemma CountAtMost(ps: seq<ArgKind>, n: nat)
    requires n <= |ps|
    ensures CountNormal(ps[..n]) <= CountNormal(ps)
  {
    if n > 0 { CountNormalMonotone(ps, n); }
  }

  lemma {:induction false} NoMoreNormals(ps: seq<ArgKind>, m: nat, n: nat)
    requires 0 < m <= n <= |ps| && ps[m - 1] == OptionedArg && NormalsFirst(ps)
    ensures CountNormal(ps[..m]) == CountNormal(ps[..n])
    decreases n
  {
    if m < n {
      NoMoreNormals(ps, m, n - 1);
      CountNormalMonotone(ps, n);
    }
  }

  // ---------------------------------------------------------------- keywords

  /** No two keyword entries have the same name. */
  predicate KeysDiffer(a: ArgSet)
    requires WellSized(a)
  {
    forall i, j :: 0 <= i < j < |a.types| && IsKeyword(a.types[i]) && IsKeyword(a.types[j]) ==> a.names[i] != a.names[j]
  }

  /** Every keyword argument is declared. */
  predicate KeysDeclared(params: ArgSet, given: ArgSet)
    requires WellSized(params) && WellSized(given)
  {
    forall a :: 0 <= a < |given.types| && IsKeyword(given.types[a]) ==> FindKeyword(params, given.names[a], 0).Some?
  }

  ghost predicate HoldsKey<T>(params: ArgSet, given: ArgSet, args: seq<T>, slots: Slots<T>, n: nat, p: nat)
    requires WellSized(params) && WellSized(given) && n <= |given.types| <= |args| && p < |params.types| == |slots|
  {
    if exists a ::
        0 <= a < n && IsKeyword(given.types[a]) && given.names[a] == params.names[p] && IsKeyword(params.types[p])
    then exists a ::
        0 <= a < n && IsKeyword(given.types[a]) && given.names[a] == params.names[p] && slots[p] == Some(args[a])
    else slots[p] == None
  }

  lemma FindDeclared(params: ArgSet, p: nat)
    requires WellSized(params) && KeysDiffer(params) && p < |params.types| && IsKeyword(params.types[p])
    ensures FindKeyword(params, params.names[p], 0) == Some(p)
  {
    var q := FindKeyword(params, params.names[p], 0);
    assert q.Some?;
  }

  /** Each keyword parameter gets the argument of its name. */
  lemma {:induction false} KeywordsPlaced<T>(params: ArgSet, given: ArgSet, args: seq<T>, n: nat)
    requires WellSized(params) && WellSized(given) && n <= |given.types| <= |args|
    requires KeysDiffer(params) && KeysDiffer(given) && KeysDeclared(params, given)
    ensures
      var r := AssignKeywords(params, given, args, n);
      r.Ok? && forall p {:trigger HoldsKey(params, given, args, r.value, n, p)} ::
                 0 <= p < |params.types| ==> HoldsKey(params, given, args, r.value, n, p)
    decreases n
  {
    hide FindKeyword;
    var r := AssignKeywords(params, given, args, n);
    if n == 0 {
      forall p | 0 <= p < |params.types| ensures HoldsKey(params, given, args, r.value, 0, p) { }
    } else {
      KeywordsPlaced(params, given, args, n - 1);
      var r0 := AssignKeywords(params, given, args, n - 1);
      forall p | 0 <= p < |params.types| ensures HoldsKey(params, given, args, r.value, n, p) {
        assert HoldsKey(params, given, args, r0.value, n - 1, p);
        if IsKeyword(params.types[p]) { FindDeclared(params, p); }
        assert r.value[p] == r0.value[p] || (IsKeyword(given.types[n - 1]) && given.names[n - 1] == params.names[p]);
      }
    }
  }

  /** The names of the keyword entries. */
  function Keys(a: ArgSet, n: nat): set<Name>
    requires WellSized(a) && n <= |a.types|
  {
    set i | 0 <= i < n && IsKeyword(a.types[i]) :: a.names[i]
  }

  lemma KeysNext(a: ArgSet, n: nat)
    requires WellSized(a) && 0 < n <= |a.types|
    ensures Keys(a, n) == Keys(a, n - 1) + (if IsKeyword(a.types[n - 1]) then {a.names[n - 1]} else {})
  {
    var last := if IsKeyword(a.types[n - 1]) then {a.names[n - 1]} else {};
    forall x | x in Keys(a, n) ensures x in Keys(a, n - 1) + last {
      var i :| 0 <= i < n && IsKeyword(a.types[i]) && a.names[i] == x;
      assert i < n - 1 ==> x in Keys(a, n - 1);
    }
  }

  lemma KeyIsNew(a: ArgSet, n: nat)
    requires WellSized(a) && 0 < n <= |a.types| && KeysDiffer(a) && IsKeyword(a.types[n - 1])
    ensures a.names[n - 1] !in Keys(a, n - 1)
  {
  }

  lemma {:induction false} KeyCount(a: ArgSet, n: nat)
    requires WellSized(a) && n <= |a.types|
    ensures |Keys(a, n)| + Rank(a.types, n) <= n
    decreases n
  {
    if n == 0 {
      assert Keys(a, 0) == {};
    } else {
      hide Keys;
      KeyCount(a, n - 1);
      KeysNext(a, n);
    }
  }

  lemma {:induction false} KeyCountExact(a: ArgSet, n: nat)
    requires WellSized(a) && n <= |a.types| && KeysDiffer(a) && SplatArg !in a.types
    ensures |Keys(a, n)| + Rank(a.types, n) == n
    decreases n
  {
    hide Keys, KeysDiffer, Rank, IsKeyword, IsPositional;
    NoKeys(a);
    if n > 0 {
      KeyCountExact(a, n - 1);
      KeysNext(a, n);
      KeywordOrNot(a.types, n);
      if IsKeyword(a.types[n - 1]) {
        KeyIsNew(a, n);
        OneMoreKey(Keys(a, n - 1), a.names[n - 1]);
      } else {
        assert Keys(a, n) == Keys(a, n - 1);
      }
    }
  }

  lemma NoKeys(a: ArgSet)
    requires WellSized(a)
    ensures |Keys(a, 0)| == 0 == Rank(a.types, 0)
  {
    assert Keys(a, 0) == {};
  }

  lemma KeywordOrNot(types: seq<ArgKind>, n: nat)
    requires 0 < n <= |types| && SplatArg !in types
    ensures Rank(types, n) == Rank(types, n - 1) + if IsKeyword(types[n - 1]) then 0 else 1
  {
    assert types[n - 1] in types;
  }

  lemma OneMoreKey(keys: set<Name>, x: Name)
    requires x !in keys
    ensures |keys + {x}| == |keys| + 1
  {
  }

  lemma SubsetSize<T>(a: set<T>, b: set<T>)
    requires a <= b
    ensures |a| <= |b|
  {
    assert b == a + (b - a);
  }

  /** A call with enough positionals and distinct declared keywords has no more arguments than there are parameters. */
  lemma NotTooMany(params: ArgSet, given: ArgSet)
    requires WellSized(params) && WellSized(given) && KeysDiffer(given) && KeysDeclared(params, given)
    requires SplatArg !in given.types
    requires Rank(given.types, |given.types|) <= Rank(params.types, |params.types|)
    ensures |given.types| <= |params.types|
  {
    var m, n := |given.types|, |params.types|;
    KeyCountExact(given, m);
    KeyCount(params, n);
    forall x | x in Keys(given, m) ensures x in Keys(params, n) {
      var a :| 0 <= a < m && IsKeyword(given.types[a]) && given.names[a] == x;
      assert FindKeyword(params, given.names[a], 0).Some?;
    }
    SubsetSize(Keys(given, m), Keys(params, n));
  }

  // ------------------------------------------------------------ the two laws

  /** A compiled call without splats of a method without a rest parameter. */
  ghost predicate PlainCall(params: ArgSet, given: ArgSet) {
    && WellSized(params) && WellSized(given)
    && SplatArg !in params.types && SplatArg !in given.types && NormalsFirst(params.types)
    && KeysDiffer(params) && KeysDiffer(given) && KeysDeclared(params, given)
    && CountNormal(params.types) <= Rank(given.types, |given.types|) <= Rank(params.types, |params.types|)
    && RequiredGiven(params, given, |params.types|)
  }

  /** Positional parameter i gets positional argument i wherever the keywords stand, each
      keyword parameter gets its argument, everything else stays unset, and no error is raised. */
  lemma InterleavedBinding<T>(params: ArgSet, given: ArgSet, args: seq<T>, pack: seq<T> -> T)
    requires PlainCall(params, given) && |given.types| == |args|
    ensures
      var r := Bind(params, Some(given), args, pack);
      && r.Ok?
      && (forall j {:trigger r.value[j]} :: 0 <= j < |params.types| ==>
            if IsPositional(params.types[j]) then HoldsNth(given.types, args, r.value, j, Rank(params.types, j))
            else HoldsKey(params, given, args, r.value, |args|, j))
  {
    hide FindKeyword, CountNormal;
    var ps, gs, all := params.types, given.types, |given.types|;
    NotTooMany(params, given);
    KeywordsPlaced(params, given, args, all);
    var slots := AssignKeywords(params, given, args, all).value;
    RankBound(params, given);
    var r := Bind(params, Some(given), args, pack);
    if CountNormal(ps) < |args| {
      assert ps[..|ps|] == ps;
      PositionalsPlaced(ps, gs, args, pack, slots, |ps|);
    } else {
      NormalsPlaced(ps, args, |ps|, slots);
    }
    forall j | 0 <= j < |ps|
      ensures if IsPositional(ps[j]) then HoldsNth(gs, args, r.value, j, Rank(ps, j))
        else HoldsKey(params, given, args, r.value, |args|, j)
    {
      assert HoldsKey(params, given, args, slots, all, j);
      if CountNormal(ps) < |args| {
        assert Placed(ps, gs, args, slots, r.value, |ps|, j);
      } else {
        assert NormalSlot(ps, args, slots, r.value, |ps|, j);
        OnlyNormals(params, given, args, slots, r.value, j);
      }
    }
  }

  lemma RankBound(params: ArgSet, given: ArgSet)
    requires PlainCall(params, given)
    ensures CountNormal(params.types) <= |given.types|
  {
  }

  /** As many arguments as normal parameters: all are positional, and the normal parameters take them. */
  lemma OnlyNormals<T>(params: ArgSet, given: ArgSet, args: seq<T>, slots: Slots<T>, s: Slots<T>, j: nat)
    requires PlainCall(params, given) && |given.types| == |args| == CountNormal(params.types)
    requires |slots| == |s| == |params.types| && j < |s| && HoldsKey(params, given, args, slots, |args|, j)
    requires NormalSlot(params.types, args, slots, s, |params.types|, j)
    ensures if IsPositional(params.types[j]) then HoldsNth(given.types, args, s, j, Rank(params.types, j))
            else HoldsKey(params, given, args, s, |args|, j)
  {
    var ps, gs := params.types, given.types;
    AllPositional(gs, |gs|);
    NormalRank(ps, j);
    if ps[j] == NormalArg {
      assert OptionedArg !in ps[..j];
      assert IsNth(gs, CountNormal(ps[..j]), Rank(ps, j)) by { AllPositional(gs, CountNormal(ps[..j])); }
    } else if ps[j] == OptionedArg {
      NormalRank(ps, j + 1);
      assert ps[..j + 1][j] == OptionedArg;
      CountNormalMonotone(ps, j + 1);
    }
  }

  lemma {:induction false} AllPositional(gs: seq<ArgKind>, n: nat)
    requires n <= |gs| && Rank(gs, |gs|) == |gs|
    ensures Rank(gs, n) == n && forall i :: n <= i < |gs| ==> IsPositional(gs[i])
    decreases |gs| - n
  {
    if n < |gs| { AllPositional(gs, n + 1); }
  }

  /** Plain arguments for normal and optional parameters and a rest parameter behind them. */
  ghost predicate RestCall(params: ArgSet, given: ArgSet) {
    && WellSized(params) && WellSized(given) && 0 < |params.types|
    && params.types[|params.types| - 1] == SplatArg && NormalsFirst(params.types)
    && (forall j :: 0 <= j < |params.types| - 1 ==> IsPositional(params.types[j]))
    && (forall a :: 0 <= a < |given.types| ==> given.types[a] == NormalArg)
    && CountNormal(params.types) <= |given.types|
  }

  lemma {:induction false} PositionalRank(types: seq<ArgKind>, n: nat)
    requires n <= |types| && forall j :: 0 <= j < n ==> IsPositional(types[j])
    ensures Rank(types, n) == n
    decreases n
  {
    if n > 0 { PositionalRank(types, n - 1); }
  }

  lemma {:induction false} NoKeywords<T>(params: ArgSet, given: ArgSet, args: seq<T>, n: nat)
    requires WellSized(params) && WellSized(given) && n <= |given.types| <= |args|
    requires forall a :: 0 <= a < n ==> !IsKeyword(given.types[a])
    ensures AssignKeywords(params, given, args, n) == Ok(seq(|params.types|, i => None))
    decreases n
  {
    if n > 0 { NoKeywords(params, given, args, n - 1); }
  }

  /** With k arguments and m parameters before the rest parameter, the first min(k, m) arguments
      go to the parameters in order and the rest parameter gets the others; with no more
      arguments than normal parameters it is left for the prologue to fill. */
  lemma RestBinding<T>(params: ArgSet, given: ArgSet, args: seq<T>, pack: seq<T> -> T)
    requires RestCall(params, given) && |given.types| == |args|
    ensures
      var r := Bind(params, Some(given), args, pack);
      var m := |params.types| - 1;
      && r.Ok?
      && (forall j {:trigger r.value[j]} :: 0 <= j < m ==> r.value[j] == if j < |args| then Some(args[j]) else None)
      && r.value[m]
        == (if |args| == CountNormal(params.types) then None else Some(pack(if m <= |args| then args[m..] else [])))
  {
    hide FindKeyword, CountNormal, AssignNormal, AssignPositional;
    var ps, m := params.types, |params.types| - 1;
    NoKeywords(params, given, args, |args|);
    assert SplatArg in ps;
    if CountNormal(ps) < |args| { RestInOrder(params, given, args, pack); } else { RestUnset(params, given, args); }
  }

  /** More arguments than normal parameters. */
  lemma RestInOrder<T>(params: ArgSet, given: ArgSet, args: seq<T>, pack: seq<T> -> T)
    requires RestCall(params, given) && |given.types| == |args|
    ensures
      var m := |params.types| - 1;
      var s := AssignPositional(params.types, given.types, args, pack, seq(|params.types|, i => None),
                                |params.types|).0;
      && (forall j {:trigger s[j]} :: 0 <= j < m ==> s[j] == if j < |args| then Some(args[j]) else None)
      && s[m] == Some(pack(if m <= |args| then args[m..] else []))
  {
    var ps, gs, m := params.types, given.types, |params.types| - 1;
    var none: Slots<T> := seq(|ps|, i => None);
    var s := AssignPositional(ps, gs, args, pack, none, m).0;
    PositionalRank(gs, |gs|);
    PositionalsPlaced(ps, gs, args, pack, none, m);
    forall j | 0 <= j < m ensures s[j] == if j < |args| then Some(args[j]) else None {
      assert Placed(ps, gs, args, none, s, m, j);
      PositionalRank(ps, j);
      if j < |args| {
        PositionalRank(gs, j);
        assert IsNth(gs, j, j);
        var a :| IsNth(gs, a, j) && s[j] == Some(args[a]);
        NthUnique(gs, a, j, j);
      }
    }
  }

  /** As many arguments as normal parameters. */
  lemma RestUnset<T>(params: ArgSet, given: ArgSet, args: seq<T>)
    requires RestCall(params, given) && |given.types| == |args| == CountNormal(params.types)
    ensures
      var m := |params.types| - 1;
      var s := AssignNormal(params.types, args, |params.types|, seq(|params.types|, i => None));
      && (forall j {:trigger s[j]} :: 0 <= j < m ==> s[j] == if j < |args| then Some(args[j]) else None)
      && s[m] == None
  {
    hide AssignNormal;
    var ps, m := params.types, |params.types| - 1;
    var none: Slots<T> := seq(|ps|, i => None);
    var s := AssignNormal(ps, args, |ps|, none);
    NormalsPlaced(ps, args, |ps|, none);
    assert NormalSlot(ps, args, none, s, |ps|, m);
    forall j | 0 <= j < m ensures s[j] == if j < |args| then Some(args[j]) else None {
      assert NormalSlot(ps, args, none, s, |ps|, j);
      PositionalRank(ps, j);
      NormalRank(ps, j);
      if ps[j] == OptionedArg {
        NormalRank(ps, j + 1);
        CountNormalMonotone(ps, j + 1);
        assert ps[..j + 1][j] == OptionedArg;
      } else {
        assert OptionedArg !in ps[..j];
      }
    }
  }
}
