/**
 Which calls are refused with an argument error, and where the arguments of the
 others go, said of the parameters and arguments as they are written: by their
 number, their order and the names of the keywords.
 */
module ArgumentErrors {
  import opened Wrappers
  import opened Ast
  import opened Bytecode
  import opened Binding
  import opened BindingLaws
  import opened Layout
  import opened Machine
  import Ev = Evaluator

  /** The entries of a vector that are of one kind. */
  function Places(types: seq<ArgKind>, n: nat, k: ArgKind): set<nat>
    requires n <= |types|
  {
    set i: nat | i < n && types[i] == k
  }

  lemma {:induction false} NormalCount(types: seq<ArgKind>, n: nat)
    requires n <= |types|
    ensures CountNormal(types[..n]) == |Places(types, n, NormalArg)|
    decreases n
  {
    if n == 0 {
      assert Places(types, 0, NormalArg) == {};
    } else {
      NormalCount(types, n - 1);
      assert types[..n][..n - 1] == types[..n - 1];
      var before := Places(types, n - 1, NormalArg);
      assert Places(types, n, NormalArg) == if types[n - 1] == NormalArg then before + {n - 1} else before;
    }
  }

  lemma {:induction false} KeywordsKnown<T>(params: ArgSet, given: ArgSet, args: seq<T>, n: nat)
    requires WellSized(params) && WellSized(given) && n <= |given.types| <= |args|
    ensures AssignKeywords(params, given, args, n).Ok? <==>
              forall a :: 0 <= a < n && IsKeyword(given.types[a]) ==> FindKeyword(params, given.names[a], 0).Some?
    decreases n
  {
    if n > 0 { KeywordsKnown(params, given, args, n - 1); }
  }

  /** An entry is a keyword of that name. */
  predicate NamedAt(a: ArgSet, i: nat, x: Name)
    requires WellSized(a) && i < |a.types|
  {
    (a.types[i] == RequiredKeywordArg || a.types[i] == OptionalKeywordArg) && a.names[i] == x
  }

  lemma FindsNamed(a: ArgSet, x: Name)
    requires WellSized(a)
    ensures FindKeyword(a, x, 0).Some? <==> exists i: nat :: i < |a.types| && NamedAt(a, i, x)
  {
    var r := FindKeyword(a, x, 0);
    if r.Some? { assert NamedAt(a, r.value, x); }
  }

  ghost predicate Refused(params: ArgSet, g: ArgSet, argCount: nat, normals: nat)
    requires WellSized(params) && WellSized(g)
  {
    || (argCount > |params.types| && forall i :: 0 <= i < |params.types| ==> params.types[i] != SplatArg)
    || argCount < normals
    || (exists i: nat :: i < |params.types| && params.types[i] == RequiredKeywordArg
          && forall a: nat :: a < |g.types| ==> !NamedAt(g, a, params.names[i]))
    || (exists a: nat :: a < |g.types| && (g.types[a] == RequiredKeywordArg || g.types[a] == OptionalKeywordArg)
          && forall i: nat :: i < |params.types| ==> !NamedAt(params, i, g.names[a]))
  }

  lemma BindRefuses<T>(params: ArgSet, given: Option<ArgSet>, args: seq<T>, pack: seq<T> -> T)
    requires WellSized(params) && Matches(given, args)
    ensures
      var r := Bind(params, given, args, pack);
      && (r.Err? ==> r.error == ArgumentError)
      && (r.Err? <==> Refused(params, GivenOf(given), |args|, CountNormal(params.types)))
  {
    hide FindKeyword, AssignKeywords, CountNormal, AssignPositional, AssignNormal;
    var g, ps := GivenOf(given), params.types;
    KeywordsKnown(params, g, args, |g.types|);
    forall x ensures FindKeyword(g, x, 0).Some? <==> exists a: nat :: a < |g.types| && NamedAt(g, a, x) {
      FindsNamed(g, x);
    }
    forall x ensures FindKeyword(params, x, 0).Some? <==> exists i: nat :: i < |ps| && NamedAt(params, i, x) {
      FindsNamed(params, x);
    }
  }

  /** A call is refused exactly if it has more arguments than there are parameters, and none of these is a rest
      parameter; or fewer than there are normal parameters; or without a keyword that is required; or with a
      keyword that no parameter has. */
  lemma BindFails<T>(params: ArgSet, given: Option<ArgSet>, args: seq<T>, pack: seq<T> -> T)
    requires WellSized(params) && Matches(given, args)
    ensures
      var r := Bind(params, given, args, pack);
      var normals := set i: nat | i < |params.types| && params.types[i] == NormalArg;
      && (r.Err? ==> r.error == ArgumentError)
      && (r.Err? <==> Refused(params, if given.Some? then given.value else ArgSet([], []), |args|, |normals|))
  {
    hide Refused, Bind;
    var ps := params.types;
    NormalCount(ps, |ps|);
    assert ps[..|ps|] == ps;
    assert Places(ps, |ps|, NormalArg) == set i: nat | i < |ps| && ps[i] == NormalArg;
    BindRefuses(params, given, args, pack);
  }

  // ------------------------------------------------------- as it is written

  /** How many of the first n parameters are normal, and how many are normal or have a default. */
  function Normals(ps: seq<Param>, n: nat): nat
    requires n <= |ps|
  {
    if n == 0 then 0 else Normals(ps, n - 1) + if ps[n - 1].NormalParam? then 1 else 0
  }

  function Positions(ps: seq<Param>, n: nat): nat
    requires n <= |ps|
  {
    if n == 0 then 0 else Positions(ps, n - 1) + if ps[n - 1].NormalParam? || ps[n - 1].DefaultParam? then 1 else 0
  }

  /** How many of the first n arguments are no keyword arguments. */
  function Plains(args: seq<Expr>, n: nat): nat
    requires n <= |args|
  {
    if n == 0 then 0 else Plains(args, n - 1) + if args[n - 1].Pair? then 0 else 1
  }

  lemma {:induction false} ParamCounts(ps: seq<Param>, n: nat)
    requires n <= |ps|
    ensures Normals(ps, n) == CountNormal(ParamSetOf(ps).types[..n])
    ensures Positions(ps, n) == Rank(ParamSetOf(ps).types, n)
    decreases n
  {
    var types := ParamSetOf(ps).types;
    if n > 0 {
      ParamCounts(ps, n - 1);
      assert types[..n][..n - 1] == types[..n - 1];
    }
  }

  lemma {:induction false} ArgCounts(args: seq<Expr>, n: nat)
    requires n <= |args|
    ensures Plains(args, n) == Rank(ArgSetOf(args).types, n)
    decreases n
  {
    if n > 0 { ArgCounts(args, n - 1); }
  }

  predicate HasKey(ps: seq<Param>, i: nat, x: Name)
    requires i < |ps|
  {
    (ps[i].KeyParam? || ps[i].KeyDefaultParam?) && ps[i].name == x
  }

  predicate GivesKey(args: seq<Expr>, a: nat, x: Name)
    requires a < |args|
  {
    args[a].Pair? && args[a].key == x
  }

  /** Parameter i requires a keyword that the call does not give. */
  predicate MissingAt(ps: seq<Param>, args: seq<Expr>, i: nat)
    requires i < |ps|
  {
    ps[i].KeyParam? && forall a: nat :: a < |args| ==> !GivesKey(args, a, ps[i].name)
  }

  /** Argument a gives a keyword that the method does not have. */
  predicate UnknownAt(ps: seq<Param>, args: seq<Expr>, a: nat)
    requires a < |args|
  {
    args[a].Pair? && forall i: nat :: i < |ps| ==> !HasKey(ps, i, args[a].key)
  }

  lemma ParamWritten(ps: seq<Param>, i: nat)
    requires i < |ps|
    ensures
      var params := ParamSetOf(ps);
      && WellSized(params) && |params.types| == |ps| && params.names[i] == ps[i].name
      && (params.types[i] == SplatArg <==> ps[i].RestParam?)
      && (params.types[i] == RequiredKeywordArg <==> ps[i].KeyParam?)
      && (params.types[i] == NormalArg <==> ps[i].NormalParam?)
      && (params.types[i] == OptionedArg <==> ps[i].DefaultParam?)
      && forall x :: HasKey(ps, i, x) <==> NamedAt(params, i, x)
  {
  }

  lemma ArgWritten(args: seq<Expr>, a: nat)
    requires a < |args|
    ensures
      var given := ArgSetOf(args);
      && WellSized(given) && |given.types| == |args| && (args[a].Pair? ==> given.names[a] == args[a].key)
      && (args[a].Pair? <==> given.types[a] == RequiredKeywordArg || given.types[a] == OptionalKeywordArg)
      && forall x :: GivesKey(args, a, x) <==> NamedAt(given, a, x)
  {
  }

  lemma MissingWritten(ps: seq<Param>, args: seq<Expr>, i: nat)
    requires i < |ps|
    ensures
      var params, given := ParamSetOf(ps), ArgSetOf(args);
      MissingAt(ps, args, i) <==>
        && params.types[i] == RequiredKeywordArg
        && forall a: nat :: a < |given.types| ==> !NamedAt(given, a, params.names[i])
  {
    hide GivesKey, NamedAt;
    ParamWritten(ps, i);
    forall a: nat | a < |args| ensures GivesKey(args, a, ps[i].name) <==> NamedAt(ArgSetOf(args), a, ps[i].name) {
      ArgWritten(args, a);
    }
  }

  lemma UnknownWritten(ps: seq<Param>, args: seq<Expr>, a: nat)
    requires a < |args|
    ensures
      var params, given := ParamSetOf(ps), ArgSetOf(args);
      UnknownAt(ps, args, a) <==>
        && (given.types[a] == RequiredKeywordArg || given.types[a] == OptionalKeywordArg)
        && forall i: nat :: i < |params.types| ==> !NamedAt(params, i, given.names[a])
  {
    hide HasKey, NamedAt;
    ArgWritten(args, a);
    if args[a].Pair? {
      forall i: nat | i < |ps| ensures HasKey(ps, i, args[a].key) <==> NamedAt(ParamSetOf(ps), i, args[a].key) {
        ParamWritten(ps, i);
      }
    }
  }

  /** A call with these arguments of a method with these parameters is refused exactly if it has too many arguments
      (and there is no rest parameter), too few, a required keyword missing, or a keyword that is unknown. */
  lemma CallFails(ps: seq<Param>, args: seq<Expr>, vs: seq<Value>)
    requires |vs| == |args|
    ensures
      var r := BindValues(ParamSetOf(ps), Some(ArgSetOf(args)), vs);
      && (r.Err? ==> r.error == ArgumentError)
      && (r.Err? <==>
          || (|args| > |ps| && forall i :: 0 <= i < |ps| ==> !ps[i].RestParam?)
          || |args| < Normals(ps, |ps|)
          || (exists i: nat :: i < |ps| && MissingAt(ps, args, i))
          || (exists a: nat :: a < |args| && UnknownAt(ps, args, a)))
  {
    hide Bind, NamedAt, HasKey, GivesKey, CountNormal, MissingAt, UnknownAt;
    var params, given := ParamSetOf(ps), ArgSetOf(args);
    BindRefuses(params, Some(given), vs, Pack);
    ParamCounts(ps, |ps|);
    assert params.types[..|ps|] == params.types;
    forall i: nat | i < |ps| ensures params.types[i] == SplatArg <==> ps[i].RestParam? { ParamWritten(ps, i); }
    forall i: nat | i < |ps|
      ensures MissingAt(ps, args, i) <==>
        && params.types[i] == RequiredKeywordArg
        && forall a: nat :: a < |given.types| ==> !NamedAt(given, a, params.names[i])
    {
      MissingWritten(ps, args, i);
    }
    forall a: nat | a < |args|
      ensures UnknownAt(ps, args, a) <==>
        && (given.types[a] == RequiredKeywordArg || given.types[a] == OptionalKeywordArg)
        && forall i: nat :: i < |params.types| ==> !NamedAt(params, i, given.names[a])
    {
      UnknownWritten(ps, args, a);
    }
    hide ParamSetOf, ArgSetOf;
  }

  // -------------------------------------------- where the arguments go

  /** The slot of a positional parameter, with j0 the normal parameters before it: with more arguments than normal
      parameters it holds the positional argument of its own number, if there is one; with just as many, a normal
      parameter holds the argument with its number among the normal parameters, whatever that is. */
  ghost predicate PositionalSlot<T>(params: ArgSet, given: ArgSet, args: seq<T>, slots: Slots<T>, j: nat)
    requires WellSized(params) && WellSized(given) && |given.types| == |args| && j < |params.types| == |slots|
  {
    if CountNormal(params.types) < |args| then HoldsNth(given.types, args, slots, j, Rank(params.types, j))
    else if params.types[j] == NormalArg then
      CountNormal(params.types[..j]) < |args| && slots[j] == Some(args[CountNormal(params.types[..j])])
    else slots[j] == None
  }

  /** Every call that is not refused, of a method without a rest parameter. */
  lemma BoundSlots<T>(params: ArgSet, given: ArgSet, args: seq<T>, pack: seq<T> -> T)
    requires WellSized(params) && WellSized(given) && |given.types| == |args| && SplatArg !in params.types
    requires KeysDiffer(params) && KeysDiffer(given) && Bind(params, Some(given), args, pack).Ok?
    ensures
      var slots := Bind(params, Some(given), args, pack).value;
      forall j {:trigger slots[j]} :: 0 <= j < |params.types| ==>
        if IsPositional(params.types[j]) then PositionalSlot(params, given, args, slots, j)
        else HoldsKey(params, given, args, slots, |args|, j)
  {
    hide FindKeyword, CountNormal, AssignPositional, AssignNormal, AssignKeywords;
    var ps, gs, all := params.types, given.types, |given.types|;
    KeywordsKnown(params, given, args, all);
    KeywordsPlaced(params, given, args, all);
    var slots := AssignKeywords(params, given, args, all).value;
    var r := Bind(params, Some(given), args, pack).value;
    if CountNormal(ps) < |args| {
      assert ps[..|ps|] == ps;
      PositionalsPlaced(ps, gs, args, pack, slots, |ps|);
    } else {
      NormalsPlaced(ps, args, |ps|, slots);
    }
    forall j | 0 <= j < |ps|
      ensures if IsPositional(ps[j]) then PositionalSlot(params, given, args, r, j)
              else HoldsKey(params, given, args, r, |args|, j)
    {
      assert HoldsKey(params, given, args, slots, all, j);
      if CountNormal(ps) < |args| {
        assert Placed(ps, gs, args, slots, r, |ps|, j);
      } else {
        assert NormalSlot(ps, args, slots, r, |ps|, j);
      }
    }
  }

  /** Argument a is the plain argument number k. */
  ghost predicate IsPlain(args: seq<Expr>, a: nat, k: nat) {
    a < |args| && !args[a].Pair? && Plains(args, a) == k
  }

  /** What the slot of parameter i holds after a call with these arguments and values. */
  ghost predicate SlotOf(ps: seq<Param>, args: seq<Expr>, vs: seq<Value>, i: nat, slot: Option<Value>)
    requires i < |ps| && |vs| == |args|
  {
    if ps[i].NormalParam? || ps[i].DefaultParam? then
      if Normals(ps, |ps|) < |args| then
        if Positions(ps, i) < Plains(args, |args|) then
          exists a: nat :: IsPlain(args, a, Positions(ps, i)) && slot == Some(vs[a])
        else slot == None
      else if ps[i].NormalParam? then Normals(ps, i) < |vs| && slot == Some(vs[Normals(ps, i)])
      else slot == None
    else if exists a: nat :: a < |args| && GivesKey(args, a, ps[i].name) then
      exists a: nat :: a < |args| && GivesKey(args, a, ps[i].name) && slot == Some(vs[a])
    else slot == None
  }

  /** No two keyword parameters, and no two keyword arguments, have the same name. */
  ghost predicate DistinctKeys(ps: seq<Param>, args: seq<Expr>) {
    && (forall i, j, x :: 0 <= i < j < |ps| && HasKey(ps, i, x) ==> !HasKey(ps, j, x))
    && (forall a, b, x :: 0 <= a < b < |args| && GivesKey(args, a, x) ==> !GivesKey(args, b, x))
  }

  lemma DistinctWritten(ps: seq<Param>, args: seq<Expr>)
    requires DistinctKeys(ps, args)
    ensures KeysDiffer(ParamSetOf(ps)) && KeysDiffer(ArgSetOf(args))
  {
    var params, given := ParamSetOf(ps), ArgSetOf(args);
    forall i, j | 0 <= i < j < |ps| && IsKeyword(params.types[i]) && IsKeyword(params.types[j])
      ensures params.names[i] != params.names[j]
    {
      assert HasKey(ps, i, params.names[i]) && !HasKey(ps, j, params.names[i]);
    }
    forall a, b | 0 <= a < b < |args| && IsKeyword(given.types[a]) && IsKeyword(given.types[b])
      ensures given.names[a] != given.names[b]
    {
      assert GivesKey(args, a, given.names[a]) && !GivesKey(args, b, given.names[a]);
    }
  }

  lemma PositionalWritten(ps: seq<Param>, args: seq<Expr>, vs: seq<Value>, slots: Slots<Value>, i: nat)
    requires i < |ps| == |slots| && |vs| == |args| && (ps[i].NormalParam? || ps[i].DefaultParam?)
    requires PositionalSlot(ParamSetOf(ps), ArgSetOf(args), vs, slots, i)
    ensures SlotOf(ps, args, vs, i, slots[i])
  {
    hide ParamSetOf, ArgSetOf, CountNormal, Rank, Normals, Positions, Plains, NamedAt, HasKey, GivesKey;
    var params, given := ParamSetOf(ps), ArgSetOf(args);
    ParamWritten(ps, i);
    ParamCounts(ps, i);
    ParamCounts(ps, |ps|);
    assert params.types[..|ps|] == params.types;
    ArgCounts(args, |args|);
    if args != [] { ArgWritten(args, 0); }
    if Normals(ps, |ps|) < |args| && Positions(ps, i) < Plains(args, |args|) {
      var a :| IsNth(given.types, a, Positions(ps, i)) && slots[i] == Some(vs[a]);
      ArgWritten(args, a);
      ArgCounts(args, a);
      PositionalOrNot(args, a);
      assert IsPlain(args, a, Positions(ps, i));
    }
  }

  lemma PositionalOrNot(args: seq<Expr>, a: nat)
    requires a < |args|
    ensures IsPositional(ArgSetOf(args).types[a]) <==> !args[a].Pair?
  {
  }

  lemma KeywordWritten(ps: seq<Param>, args: seq<Expr>, vs: seq<Value>, slots: Slots<Value>, i: nat)
    requires i < |ps| == |slots| && |vs| == |args| && (ps[i].KeyParam? || ps[i].KeyDefaultParam?)
    requires HoldsKey(ParamSetOf(ps), ArgSetOf(args), vs, slots, |args|, i)
    ensures SlotOf(ps, args, vs, i, slots[i])
  {
    var params, given := ParamSetOf(ps), ArgSetOf(args);
    forall a: nat | a < |args|
      ensures GivesKey(args, a, ps[i].name) <==> IsKeyword(given.types[a]) && given.names[a] == params.names[i]
    {
    }
    assert IsKeyword(params.types[i]);
    hide ParamSetOf, ArgSetOf, GivesKey, IsKeyword;
  }

  /** A call that is not refused, of a method without a rest parameter, fills every slot so. */
  lemma CallBinds(ps: seq<Param>, args: seq<Expr>, vs: seq<Value>)
    requires |vs| == |args| && DistinctKeys(ps, args) && (forall i :: 0 <= i < |ps| ==> !ps[i].RestParam?)
    requires BindValues(ParamSetOf(ps), Some(ArgSetOf(args)), vs).Ok?
    ensures
      var slots := BindValues(ParamSetOf(ps), Some(ArgSetOf(args)), vs).value;
      |slots| == |ps| && forall i {:trigger slots[i]} :: 0 <= i < |ps| ==> SlotOf(ps, args, vs, i, slots[i])
  {
    hide Bind, HoldsKey, PositionalSlot, SlotOf, DistinctKeys, KeysDiffer;
    var params, given := ParamSetOf(ps), ArgSetOf(args);
    DistinctWritten(ps, args);
    assert SplatArg !in params.types by {
      forall i | 0 <= i < |ps| ensures params.types[i] != SplatArg { }
    }
    BoundSlots(params, given, vs, Pack);
    var slots := Bind(params, Some(given), vs, Pack).value;
    assert BindValues(params, Some(given), vs) == Bind(params, Some(given), vs, Pack);
    forall i | 0 <= i < |ps| ensures SlotOf(ps, args, vs, i, slots[i]) {
      ParamWritten(ps, i);
      assert if IsPositional(params.types[i]) then PositionalSlot(params, given, vs, slots, i)
             else HoldsKey(params, given, vs, slots, |vs|, i) by { assert slots[i] == slots[i]; }
      assert IsPositional(params.types[i]) <==> ps[i].NormalParam? || ps[i].DefaultParam?;
      if ps[i].NormalParam? || ps[i].DefaultParam? {
        PositionalWritten(ps, args, vs, slots, i);
      } else {
        KeywordWritten(ps, args, vs, slots, i);
      }
    }
  }

  lemma CountTwo(ps: seq<Param>, args: seq<Expr>)
    requires |ps| == 2 && ps[0].NormalParam? && (ps[1].KeyParam? || ps[1].KeyDefaultParam?)
    ensures Normals(ps, 0) == 0 == Positions(ps, 0) && Normals(ps, 2) == 1
    ensures |args| == 1 ==> Plains(args, 1) == if args[0].Pair? then 0 else 1
    ensures |args| == 2 ==> Plains(args, 2) == (if args[0].Pair? then 0 else 1) + (if args[1].Pair? then 0 else 1)
    ensures Plains(args, 0) == 0
  {
    assert Normals(ps, 1) == 1;
    assert |args| > 0 ==> Plains(args, 1) == if args[0].Pair? then 0 else 1;
  }

  /** `def f(a, k: d)`, called as `f(v, w)`: not refused, and w is dropped. */
  lemma ArgumentDropped(a: Name, k: Name, d: Expr, v: Value, w: Value)
    ensures
      var ps, args := [NormalParam(a), KeyDefaultParam(k, d)], [NilLit, NilLit];
      BindValues(ParamSetOf(ps), Some(ArgSetOf(args)), [v, w]) == Ok([Some(v), None])
  {
    hide Bind, Plains, Normals, Positions;
    var ps, args := [NormalParam(a), KeyDefaultParam(k, d)], [NilLit, NilLit];
    CountTwo(ps, args);
    CallFails(ps, args, [v, w]);
    CallBinds(ps, args, [v, w]);
    var slots := BindValues(ParamSetOf(ps), Some(ArgSetOf(args)), [v, w]).value;
    assert SlotOf(ps, args, [v, w], 0, slots[0]) && SlotOf(ps, args, [v, w], 1, slots[1]);
    assert slots == [slots[0], slots[1]];
    var c: nat :| IsPlain(args, c, 0) && slots[0] == Some([v, w][c]);
    assert Plains(args, 1) == 1 by { OnePlain(args); }
  }

  lemma OnePlain(args: seq<Expr>)
    requires |args| > 0 && !args[0].Pair?
    ensures Plains(args, 1) == 1
  {
    assert Plains(args, 0) == 0;
  }

  /** `def f(a, k:)`, called as `f(k: v)`: not refused, and a is v, too. */
  lemma KeywordTaken(a: Name, k: Name, v: Value)
    ensures
      var ps, args := [NormalParam(a), KeyParam(k)], [Pair(k, NilLit)];
      BindValues(ParamSetOf(ps), Some(ArgSetOf(args)), [v]) == Ok([Some(v), Some(v)])
  {
    hide Bind, Plains, Normals, Positions;
    var ps, args := [NormalParam(a), KeyParam(k)], [Pair(k, NilLit)];
    CountTwo(ps, args);
    assert GivesKey(args, 0, k) && HasKey(ps, 1, k);
    CallFails(ps, args, [v]);
    CallBinds(ps, args, [v]);
    var slots := BindValues(ParamSetOf(ps), Some(ArgSetOf(args)), [v]).value;
    assert SlotOf(ps, args, [v], 0, slots[0]) && SlotOf(ps, args, [v], 1, slots[1]);
    assert slots == [slots[0], slots[1]];
  }
}
