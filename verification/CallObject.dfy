/**
 Binding arguments to parameters, step by step (vm/call_object.go, and the
 half of evalMethodCall in vm/thread.go before the frame is run).  The loops
 write the new frame's locals and move two indices; the result is Bind's.
 */
module CallObjects {
  import opened Wrappers
  import opened Ast
  import opened Bytecode
  import opened Binding
  import opened Machine

  class CallObject {
    const params: ArgSet
    const given: Option<ArgSet>
    const receiverPtr: nat
    const argCount: nat
    var argIndex: int
    var lastArgIndex: int
    var locals: Slots<Value>      // of the frame being prepared

    /** The argument values, which stand above the receiver. */
    ghost function Args(stack: seq<Value>): seq<Value>
      requires receiverPtr + 1 + argCount <= |stack|
    {
      stack[receiverPtr + 1..receiverPtr + 1 + argCount]
    }

    /** The call is one the compiler makes, and its arguments are on the stack. */
    ghost predicate Fits(stack: seq<Value>) {
      && WellSized(params) && receiverPtr + 1 + argCount <= |stack|
      && Matches(given, Args(stack))
    }

    constructor (params: ArgSet, given: Option<ArgSet>, receiverPtr: nat, argCount: nat)
      ensures this.params == params && this.given == given && this.receiverPtr == receiverPtr
      ensures this.argCount == argCount
      ensures argIndex == 0 && lastArgIndex == -1 && locals == []
    {
      this.params, this.given, this.receiverPtr, this.argCount := params, given, receiverPtr, argCount;
      argIndex, lastArgIndex, locals := 0, -1, [];
    }

    function ArgTypes(): seq<ArgKind> {
      GivenOf(given).types
    }

    method InsertLocalFast(i: nat, v: Value)
      modifies `locals
      ensures locals == Fill(old(locals), i, v)
    {
      if i < |locals| {
        locals := locals[i := Some(v)];
      } else {
        ghost var before := locals;
        while |locals| < i
          invariant |before| <= |locals| <= i && locals == before + seq(|locals| - |before|, _ => None)
          decreases i - |locals|
        {
          locals := locals + [None];
        }
        locals := locals + [Some(v)];
      }
    }

    method NormalParamsCount() returns (n: nat)
      ensures n == CountNormal(params.types)
    {
      n := 0;
      for i := 0 to |params.types|
        invariant n == CountNormal(params.types[..i])
      {
        assert params.types[..i + 1][..i] == params.types[..i];
        if params.types[i] == NormalArg { n := n + 1; }
      }
      assert params.types[..|params.types|] == params.types;
    }

    method HasKeywordParam(name: Name) returns (index: nat, ok: bool)
      requires WellSized(params)
      ensures FindKeyword(params, name, 0) == if ok then Some(index) else None
    {
      index, ok := FirstKeyword(params, name);
    }

    method HasKeywordArgument(name: Name) returns (index: nat, ok: bool)
      requires WellSized(GivenOf(given))
      ensures FindKeyword(GivenOf(given), name, 0) == if ok then Some(index) else None
    {
      index, ok := FirstKeyword(GivenOf(given), name);
    }

    static method FirstKeyword(a: ArgSet, name: Name) returns (index: nat, ok: bool)
      requires WellSized(a)
      ensures FindKeyword(a, name, 0) == if ok then Some(index) else None
    {
      index, ok := 0, false;
      for i := 0 to |a.types|
        invariant FindKeyword(a, name, 0) == FindKeyword(a, name, i)
      {
        if a.names[i] == name && IsKeyword(a.types[i]) {
          return i, true;
        }
      }
    }

    /** An unknown keyword is an error, but the known ones are still assigned. */
    method AssignKeywordArguments(stack: seq<Value>) returns (ok: bool)
      requires Fits(stack) && |locals| == |params.types|
      requires locals == seq(|params.types|, _ => None)
      modifies `locals
      ensures
        var r := AssignKeywords(params, GivenOf(given), Args(stack), |ArgTypes()|);
        ok == r.Ok? && (ok ==> locals == r.value)
    {
      ok := true;
      for i := 0 to |ArgTypes()|
        invariant |locals| == |params.types|
        invariant var r := AssignKeywords(params, GivenOf(given), Args(stack), i);
                  ok == r.Ok? && (ok ==> locals == r.value)
      {
        if IsKeyword(ArgTypes()[i]) {
          var p, found := HasKeywordParam(GivenOf(given).names[i]);
          if found {
            InsertLocalFast(p, stack[receiverPtr + 1 + i]);
          } else {
            ok := false;
          }
        }
      }
    }

    /** The next positional argument goes to this parameter. */
    method AssignNormalAndOptionedArguments(paramIndex: nat, stack: seq<Value>)
      requires Fits(stack) && paramIndex < |locals| && -1 <= lastArgIndex < |ArgTypes()|
      modifies `locals, `lastArgIndex
      ensures
        var a := NextPositional(ArgTypes(), old(lastArgIndex) + 1);
        if a < |ArgTypes()| then locals == old(locals)[paramIndex := Some(Args(stack)[a])] && lastArgIndex == a
        else locals == old(locals) && lastArgIndex == old(lastArgIndex)
    {
      ghost var a := NextPositional(ArgTypes(), lastArgIndex + 1);
      for i := 0 to |ArgTypes()|
        invariant locals == old(locals) && lastArgIndex == old(lastArgIndex)
        invariant a >= i || a <= lastArgIndex
        invariant i <= lastArgIndex + 1 || NextPositional(ArgTypes(), i) == a
      {
        if lastArgIndex < i && (ArgTypes()[i] == NormalArg || ArgTypes()[i] == OptionedArg) {
          InsertLocalFast(paramIndex, stack[receiverPtr + 1 + i]);
          lastArgIndex := i;
          return;
        }
      }
    }

    /** The arguments from argIndex on, as an array in the last parameter's slot. */
    method AssignSplatArgument(stack: seq<Value>)
      requires Fits(stack) && 0 < |params.types| == |locals| && argIndex >= 0
      modifies `locals, `argIndex
      ensures locals == old(locals)[|params.types| - 1 :=
                          Some(ArrV(if old(argIndex) <= argCount then Args(stack)[old(argIndex)..] else []))]
    {
      ghost var start := argIndex;
      var arr: seq<Value> := [];
      while argIndex < argCount
        invariant start <= argIndex && (argIndex <= argCount || argIndex == start) && locals == old(locals)
        invariant arr == if start <= argCount then Args(stack)[start..argIndex] else []
      {
        assert Args(stack)[start..argIndex + 1] == Args(stack)[start..argIndex] + [stack[receiverPtr + 1 + argIndex]];
        arr := arr + [stack[receiverPtr + 1 + argIndex]];
        argIndex := argIndex + 1;
      }
      if start <= argCount { assert Args(stack)[start..argCount] == Args(stack)[start..]; }
      InsertLocalFast(|params.types| - 1, ArrV(arr));
    }

    method AssignNormalArguments(stack: seq<Value>)
      requires Fits(stack) && |locals| == |params.types| && argIndex == 0 && CountNormal(params.types) <= argCount
      modifies `locals, `argIndex
      ensures locals == AssignNormal(params.types, Args(stack), |params.types|, old(locals))
    {
      for i := 0 to |params.types|
        invariant |locals| == |params.types| && argIndex == CountNormal(params.types[..i])
        invariant locals == AssignNormal(params.types, Args(stack), i, old(locals))
      {
        CountNormalMonotone(params.types, i + 1);
        if params.types[i] == NormalArg {
          InsertLocalFast(i, stack[receiverPtr + 1 + argIndex]);
          argIndex := argIndex + 1;
        }
      }
    }

    /** evalMethodCall up to the point where the frame is run: its locals, or the argument error. */
    method BindArguments(stack: seq<Value>) returns (r: Result<Slots<Value>, ErrorKind>)
      requires Fits(stack) && argIndex == 0 && lastArgIndex == -1
      modifies this
      ensures r == BindValues(params, given, Args(stack))
    {
      hide FindKeyword, CountNormal;
      var normal := NormalParamsCount();
      if argCount > |params.types| && SplatArg !in params.types { return Err(ArgumentError); }
      if normal > argCount { return Err(ArgumentError); }
      for i := 0 to |params.types|
        invariant RequiredGiven(params, GivenOf(given), i) && argIndex == 0 && lastArgIndex == -1
      {
        if params.types[i] == RequiredKeywordArg {
          var _, ok := HasKeywordArgument(params.names[i]);
          if !ok {
            assert !RequiredGiven(params, GivenOf(given), |params.types|);
            return Err(ArgumentError);
          }
        }
      }
      locals := seq(|params.types|, _ => None);
      var known := AssignKeywordArguments(stack);
      if !known { return Err(ArgumentError); }
      if normal < argCount {
        AssignInOrder(stack);
      } else {
        AssignNormalArguments(stack);
      }
      r := Ok(locals);
    }

    /** The loop over the parameters taken when there may be more than the normal ones. */
    method AssignInOrder(stack: seq<Value>)
      requires Fits(stack) && |locals| == |params.types| && lastArgIndex == -1
      modifies this
      ensures locals == AssignPositional(params.types, ArgTypes(), Args(stack), Pack, old(locals), |params.types|).0
    {
      hide NextPositional;
      for i := 0 to |params.types|
        invariant |locals| == |params.types| && -1 <= lastArgIndex < |ArgTypes()|
        invariant AssignPositional(params.types, ArgTypes(), Args(stack), Pack, old(locals), i)
          == (locals, lastArgIndex + 1)
      {
        match params.types[i] {
          case NormalArg => AssignNormalAndOptionedArguments(i, stack);
          case OptionedArg => AssignNormalAndOptionedArguments(i, stack);
          case SplatArg =>
            argIndex := i;
            AssignSplatArgument(stack);
          case _ =>
        }
      }
    }
  }
}
