/**
 Which argument of a call ends up in which parameter slot (vm/call_object.go and
 the first half of evalMethodCall in vm/thread.go), as a function of the two
 type vectors and the arguments.
 */
module Binding {
  import opened Wrappers
  import opened Ast
  import opened Bytecode

  /** The kinds of error the modelled code raises itself, or a builtin's own. */
  datatype ErrorKind = NoMethodError | ArgumentError | TypeError | InternalError | BuiltinError(id: int)

  predicate IsKeyword(k: ArgKind) {
    k == RequiredKeywordArg || k == OptionalKeywordArg
  }

  predicate IsPositional(k: ArgKind) {
    k == NormalArg || k == OptionedArg
  }

  function CountNormal(types: seq<ArgKind>): (n: nat)
    ensures n <= |types|
  {
    if types == [] then 0
    else CountNormal(types[..|types| - 1]) + (if types[|types| - 1] == NormalArg then 1 else 0)
  }

  /** A name vector as long as its type vector. */
  predicate WellSized(a: ArgSet) {
    |a.names| == |a.types|
  }

  /** hasKeywordParam and hasKeywordArgument: the first keyword entry of that
      name at or after position i. */
  function FindKeyword(a: ArgSet, name: Name, i: nat): (r: Option<nat>)
    requires WellSized(a) && i <= |a.types|
    ensures r.Some? ==> i <= r.value < |a.types| && a.names[r.value] == name && IsKeyword(a.types[r.value])
    ensures r.None? ==> forall j :: i <= j < |a.types| ==> !(a.names[j] == name && IsKeyword(a.types[j]))
    decreases |a.types| - i
  {
    if i == |a.types| then None
    else if a.names[i] == name && IsKeyword(a.types[i]) then Some(i)
    else FindKeyword(a, name, i + 1)
  }

  type Slots<T> = seq<Option<T>>

  /** assignKeywordArguments over the first n arguments. */
  function AssignKeywords<T>(params: ArgSet, given: ArgSet, args: seq<T>, n: nat): (r: Result<Slots<T>, ErrorKind>)
    requires WellSized(params) && WellSized(given) && n <= |given.types| <= |args|
    ensures r.Ok? ==> |r.value| == |params.types|
    ensures r.Err? ==> r.error == ArgumentError
  {
    if n == 0 then Ok(seq(|params.types|, i => None))
    else
      var before := AssignKeywords(params, given, args, n - 1);
      if !IsKeyword(given.types[n - 1]) then before
      else
        match FindKeyword(params, given.names[n - 1], 0)
        case None => Err(ArgumentError)
        case Some(p) => if before.Err? then before else Ok(before.value[p := Some(args[n - 1])])
  }

  /** The first positional argument at or after position i. */
  function NextPositional(given: seq<ArgKind>, i: nat): (r: nat)
    requires i <= |given|
    ensures i <= r <= |given|
    ensures r < |given| ==> IsPositional(given[r])
    ensures forall j :: i <= j < r ==> !IsPositional(given[j])
    decreases |given| - i
  {
    if i == |given| || IsPositional(given[i]) then i else NextPositional(given, i + 1)
  }

  /** The loop over the first n parameters, taken when there are more arguments
      than normal parameters: the slots, and one past the last positional
      argument used.  A splat parameter packs the arguments from its own index
      on and is stored in the last slot. */
  function AssignPositional<T>(params: seq<ArgKind>, given: seq<ArgKind>, args: seq<T>, pack: seq<T> -> T,
                               slots: Slots<T>, n: nat): (r: (Slots<T>, nat))
    requires n <= |params| == |slots| && |given| <= |args|
    ensures |r.0| == |slots| && r.1 <= |given|
  {
    if n == 0 then (slots, 0)
    else
      var (s, from) := AssignPositional(params, given, args, pack, slots, n - 1);
      var kind := params[n - 1];
      if IsPositional(kind) then
        var a := NextPositional(given, from);
        if a < |given| then (s[n - 1 := Some(args[a])], a + 1) else (s, from)
      else if kind == SplatArg then
        (s[|params| - 1 := Some(pack(if n - 1 <= |args| then args[n - 1..] else []))], from)
      else (s, from)
  }

  /** assignNormalArguments: the normal parameters among the first n take the arguments in order. */
  function AssignNormal<T>(params: seq<ArgKind>, args: seq<T>, n: nat, slots: Slots<T>): (r: Slots<T>)
    requires n <= |params| == |slots| && CountNormal(params) <= |args|
    ensures |r| == |slots|
  {
    if n == 0 then slots
    else
      var s := AssignNormal(params, args, n - 1, slots);
      if params[n - 1] == NormalArg then
        CountNormalMonotone(params, n);
        s[n - 1 := Some(args[CountNormal(params[..n - 1])])]
      else s
  }

  lemma {:induction false} CountNormalMonotone(types: seq<ArgKind>, n: nat)
    requires 0 < n <= |types|
    ensures CountNormal(types[..n]) == CountNormal(types[..n - 1]) + (if types[n - 1] == NormalArg then 1 else 0)
    ensures CountNormal(types[..n]) <= CountNormal(types)
    decreases |types| - n
  {
    assert types[..n][..n - 1] == types[..n - 1];
    if n == |types| {
      assert types[..n] == types;
    } else {
      CountNormalMonotone(types, n + 1);
    }
  }

  /** Every required keyword parameter among the first n is named by the call. */
  predicate RequiredGiven(params: ArgSet, given: ArgSet, n: nat)
    requires WellSized(params) && WellSized(given) && n <= |params.types|
  {
    forall i :: 0 <= i < n && params.types[i] == RequiredKeywordArg ==> FindKeyword(given, params.names[i], 0).Some?
  }

  /** A nil argument set reads as empty vectors. */
  function GivenOf(given: Option<ArgSet>): ArgSet {
    if given.Some? then given.value else ArgSet([], [])
  }

  /** The calls the compiler makes: one entry for each argument, or no argument set. */
  predicate Matches<T>(given: Option<ArgSet>, args: seq<T>) {
    given.Some? ==> WellSized(given.value) && |given.value.types| == |args|
  }

  /** The slots a call fills, or the argument error it raises (evalMethodCall). */
  function Bind<T>(params: ArgSet, given: Option<ArgSet>, args: seq<T>,
                   pack: seq<T> -> T): (r: Result<Slots<T>, ErrorKind>)
    requires WellSized(params) && Matches(given, args)
    ensures r.Ok? ==> |r.value| == |params.types|
  {
    var g := GivenOf(given);
    var normal := CountNormal(params.types);
    if |args| > |params.types| && SplatArg !in params.types then Err(ArgumentError)
    else if normal > |args| then Err(ArgumentError)
    else if !RequiredGiven(params, g, |params.types|) then Err(ArgumentError)
    else
      match AssignKeywords(params, g, args, |g.types|)
      case Err(e) => Err(e)
      case Ok(slots) =>
        if normal < |args|
        then Ok(AssignPositional(params.types, g.types, args, pack, slots, |params.types|).0)
        else Ok(AssignNormal(params.types, args, |params.types|, slots))
  }
}
