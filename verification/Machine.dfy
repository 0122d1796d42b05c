/**
 The virtual machine as a step function (execFrame in vm/instruction.go, the
 call and return halves of vm/thread.go, locals in vm/call_frame.go).

 Go runs a call by a nested execFrame; here the frames are a list and one step
 function serves all of them.  `pc` is the running frame's program counter; a
 frame remembers where its caller resumes and where on the stack its result goes.
 */
module Machine {
  import opened Wrappers
  import opened Ast
  import opened Bytecode
  import opened Binding

  datatype Value =
    | IntV(n: int)
    | BoolV(b: bool)
    | NilV
    | StrV(s: string)
    | ArrV(elems: seq<Value>)
    | ObjV(id: nat)

  /** BranchIf and BranchUnless: false and nil are the only untrue values. */
  predicate Truthy(v: Value) {
    v != NilV && v != BoolV(false)
  }

  /** The state builtin methods read and change. */
  type World = map<nat, seq<Value>>

  datatype Reply = Got(v: Value) | Fails(err: ErrorKind)

  /** Where a method lookup ends: at a method the program defined in that class,
      at a builtin, or nowhere. */
  datatype Target = Defined(class_: Name) | Builtin | Missing

  type MethodKey = (Name, Name)

  /** Everything outside compiled code: the class of a value, the method lookup
      (given which methods the program has defined) and the builtin methods. */
  datatype Host = Host(
    classOf: Value -> Name,
    find: (set<MethodKey>, Value, Name) -> Target,
    builtin: (World, Value, Name, seq<Value>) -> (World, Reply))

  function Pack(xs: seq<Value>): Value { ArrV(xs) }

  function BindValues(params: ArgSet, given: Option<ArgSet>, args: seq<Value>): (r: Result<Slots<Value>, ErrorKind>)
    requires WellSized(params) && Matches(given, args)
    ensures r.Ok? ==> |r.value| == |params.types|
  {
    Bind(params, given, args, Pack)
  }

  // ------------------------------------------------------------------ state

  datatype BlockRef = BlockRef(unit: nat, ep: nat)

  datatype Frame = Frame(
    unit: nat,                  // the instruction set it runs
    locals: Slots<Value>,
    self: Value,
    ep: Option<nat>,            // the frame a block was written in; None for a method
    block: Option<BlockRef>,    // blockFrame
    base: nat,                  // receiverPtr: the slot the result goes to
    ret: nat)                   // where the caller goes on

  /** Stuck: a Go runtime panic, or an instruction outside the modelled fragment. */
  datatype Status = Running | Raised(err: ErrorKind) | Stuck

  datatype State = State(
    pc: nat,
    stack: seq<Value>,
    frames: seq<Frame>,
    defs: map<MethodKey, nat>,
    world: World,
    status: Status)

  // ----------------------------------------------------------------- locals

  /** The frame `depth` ep links up from frame i. */
  function Climb(frames: seq<Frame>, i: nat, depth: nat): (r: Option<nat>)
    ensures r.Some? ==> r.value < |frames|
    decreases depth
  {
    if i >= |frames| then None
    else if depth == 0 then Some(i)
    else match frames[i].ep
      case None => None
      case Some(j) => Climb(frames, j, depth - 1)
  }

  function Slot(locals: Slots<Value>, i: nat): Option<Value> {
    if i < |locals| then locals[i] else None
  }

  /** The local list grown with unset slots until i is one of its indices, and i set. */
  function Fill(locals: Slots<Value>, i: nat, v: Value): (r: Slots<Value>)
    ensures Slot(r, i) == Some(v)
    ensures forall j: nat :: j != i ==> Slot(r, j) == Slot(locals, j)
  {
    if i < |locals| then locals[i := Some(v)]
    else locals + seq(i - |locals|, _ => None) + [Some(v)]
  }

  /** insertLocal: an existing slot is overwritten where it is; a missing one is
      created in the running frame, whatever the depth. */
  function Insert(frames: seq<Frame>, index: nat, depth: nat, v: Value): (r: Option<seq<Frame>>)
    requires |frames| > 0
    ensures r.Some? ==> |r.value| == |frames|
  {
    var top := |frames| - 1;
    match Climb(frames, top, depth)
    case None => None
    case Some(j) =>
      var at := if Slot(frames[j].locals, index).Some? then j else top;
      Some(frames[at := frames[at].(locals := Fill(frames[at].locals, index, v))])
  }

  // ------------------------------------------------------------------- steps

  function Stop(s: State): State {
    s.(status := Stuck)
  }

  /** Two's complement wrap-around of Go's int. */
  function Wrap64(n: int): int {
    (n + 0x8000_0000_0000_0000) % 0x1_0000_0000_0000_0000 - 0x8000_0000_0000_0000
  }

  function Arithmetic(op: int, l: int, r: int): Value {
    if op == ADD then IntV(Wrap64(l + r))
    else if op == SUBTRACT then IntV(Wrap64(l - r))
    else if op == LESS then BoolV(l < r)
    else if op == GREATER then BoolV(l > r)
    else if op == LESS_EQUAL then BoolV(l <= r)
    else BoolV(l >= r)
  }

  /** A new running frame whose result goes to slot `base`. */
  function Enter(s: State, f: Frame): State {
    s.(pc := 0, frames := s.frames + [f])
  }

  /** FindAndExecute with the receiver and argc arguments on top of the stack. */
  function Invoke(p: seq<InstructionSet>, h: Host, s: State, next: nat, name: Name, argc: nat,
                  given: Option<ArgSet>, block: Option<BlockRef>): State
  {
    if |s.stack| <= argc then Stop(s)
    else
      var base := |s.stack| - argc - 1;
      var recv := s.stack[base];
      var args := s.stack[base + 1..];
      match h.find(s.defs.Keys, recv, name)
      case Missing => s.(status := Raised(NoMethodError))
      case Builtin =>
        if block.Some? then Stop(s)   // a builtin may call the block: not part of this step function
        else
          var (w, reply) := h.builtin(s.world, recv, name, args);
          (match reply
           case Fails(e) => s.(world := w, status := Raised(e))
           case Got(v) => s.(pc := next, world := w, stack := s.stack[..base] + [v]))
      case Defined(c) =>
        if (c, name) !in s.defs || s.defs[(c, name)] >= |p| then Stop(s)
        else
          var unit := s.defs[(c, name)];
          var params := p[unit].params;
          if !WellSized(params) || !Matches(given, args) then Stop(s)
          else match BindValues(params, given, args)
            case Err(e) => s.(status := Raised(e))
            case Ok(locals) => Enter(s, Frame(unit, locals, recv, None, block, base, next))
  }

  /** InvokeBlock: a block frame yields to the block of the frame it was written in. */
  function YieldTo(s: State, next: nat, argc: nat): State
    requires |s.frames| > 0
  {
    var f := s.frames[|s.frames| - 1];
    if |s.stack| <= argc then Stop(s)
    else if f.block.None? then s.(status := Raised(InternalError))
    else
      var own := f.block.value;
      var target := if f.ep == Some(own.ep) && own.ep < |s.frames| then s.frames[own.ep].block else f.block;
      if target.None? then s.(status := Raised(InternalError))
      else
        var b := target.value;
        var base := |s.stack| - argc - 1;
        var args := s.stack[base + 1..];
        Enter(s, Frame(b.unit, seq(|args|, i requires 0 <= i < |args| => Some(args[i])),
                       s.stack[base], Some(b.ep), Some(b), base, next))
  }

  /** ExpandArray: the first element ends up on top, missing ones are nil. */
  function Expanded(elems: seq<Value>, n: nat): seq<Value> {
    seq(n, i requires 0 <= i < n => if n - 1 - i < |elems| then elems[n - 1 - i] else NilV)
  }

  function Goto(s: State, target: int): State {
    if target < 0 then Stop(s) else s.(pc := target)
  }

  function Push(s: State, len: nat, v: Value): State {
    s.(pc := s.pc + len, stack := s.stack + [v])
  }

  function Exec(p: seq<InstructionSet>, h: Host, s: State, i: Instr): State
    requires |s.frames| > 0 && s.frames[|s.frames| - 1].unit < |p|
  {
    var top := |s.frames| - 1;
    var f := s.frames[top];
    var n := |s.stack|;
    match i
    case INoOp => s.(pc := s.pc + 1)
    case IGetLocal(d, x) =>
      if d < 0 || x < 0 then Stop(s)
      else (match Climb(s.frames, top, d)
        case None => Stop(s)
        case Some(j) =>
          var v := Slot(s.frames[j].locals, x);
          Push(s, 3, if v.Some? then v.value else NilV))
    case ISetLocal(d, x) =>
      if d < 0 || x < 0 || n == 0 then Stop(s)
      else (match Insert(s.frames, x, d, s.stack[n - 1])
        case None => Stop(s)
        case Some(frames) => s.(pc := s.pc + 3, frames := frames))
    case ISetOptional(d, x) =>
      if d < 0 || x < 0 || n == 0 then Stop(s)
      else (match Climb(s.frames, top, d)
        case None => Stop(s)
        case Some(j) =>
          var after := s.(pc := s.pc + 3, stack := s.stack[..n - 1]);
          if Slot(s.frames[j].locals, x).Some? then after
          else match Insert(s.frames, x, d, s.stack[n - 1])
            case None => Stop(s)
            case Some(frames) => after.(frames := frames))
    case IPutBool(b) => Push(s, 1, BoolV(b))
    case IPutString(t) => Push(s, 2, StrV(t))
    case IPutSelf => Push(s, 1, f.self)
    case IPutInt(k) => Push(s, 2, IntV(k))
    case IPutNull => Push(s, 1, NilV)
    case INewArray(k) =>
      if k < 0 || k > n then Stop(s)
      else s.(pc := s.pc + 2, stack := s.stack[..n - k] + [ArrV(s.stack[n - k..])])
    case IExpandArray(k) =>
      if k < 0 || n == 0 then Stop(s)
      else if !s.stack[n - 1].ArrV? then s.(status := Raised(TypeError))
      else s.(pc := s.pc + 2, stack := s.stack[..n - 1] + Expanded(s.stack[n - 1].elems, k))
    case IBranchUnless(t) =>
      if n == 0 then Stop(s)
      else
        var popped := s.(stack := s.stack[..n - 1]);
        if Truthy(s.stack[n - 1]) then popped.(pc := s.pc + 2) else Goto(popped, t)
    case IBranchIf(t) =>
      if n == 0 then Stop(s)
      else
        var popped := s.(stack := s.stack[..n - 1]);
        if Truthy(s.stack[n - 1]) then Goto(popped, t) else popped.(pc := s.pc + 2)
    case IJump(t) => Goto(s, t)
    case IBreak => s.(pc := if f.ep.Some? then |p[f.unit].code| else s.pc + 1)
    case ILeave => s.(pc := |p[f.unit].code|)
    case IDefMethod(_, name, unit) =>
      if n == 0 || unit.None? then Stop(s)
      else s.(pc := s.pc + 4, stack := s.stack[..n - 1],
              defs := s.defs[(h.classOf(s.stack[n - 1]), name) := unit.value])
    case ISend(name, argc, unit, given) =>
      if argc < 0 then Stop(s)
      else Invoke(p, h, s, s.pc + 5, name, argc, given,
                  if unit.Some? then Some(BlockRef(unit.value, top)) else None)
    case IBinary(name) => Invoke(p, h, s, s.pc + 2, name, 1, None, None)
    case IArith(op, name) =>
      if n >= 2 && s.stack[n - 2].IntV? && s.stack[n - 1].IntV? then
        s.(pc := s.pc + 2, stack := s.stack[..n - 2] + [Arithmetic(op, s.stack[n - 2].n, s.stack[n - 1].n)])
      else Invoke(p, h, s, s.pc + 2, name, 1, None, None)
    case IInvokeBlock(argc) => if argc < 0 then Stop(s) else YieldTo(s, s.pc + 2, argc)
    case IHasBlock => Push(s, 1, BoolV(f.block.Some?))
    case IPop => if n == 0 then Stop(s) else s.(pc := s.pc + 1, stack := s.stack[..n - 1])
    case IDup => if n == 0 then Stop(s) else Push(s, 1, s.stack[n - 1])
    case _ => Stop(s)
  }

  /** The end of a called frame: its top value replaces receiver and arguments. */
  function Leaving(s: State): State
    requires |s.frames| > 1
  {
    var top := |s.frames| - 1;
    var f := s.frames[top];
    if f.base >= |s.stack| then Stop(s)
    else s.(pc := f.ret, frames := s.frames[..top], stack := s.stack[..f.base] + [s.stack[|s.stack| - 1]])
  }

  /** The running frame has no instruction left. */
  predicate AtEnd(p: seq<InstructionSet>, s: State) {
    |s.frames| > 0 && s.frames[|s.frames| - 1].unit < |p| && s.pc >= |p[s.frames[|s.frames| - 1].unit].code|
  }

  predicate Halted(p: seq<InstructionSet>, s: State) {
    s.status != Running || (|s.frames| == 1 && AtEnd(p, s))
  }

  function Step(p: seq<InstructionSet>, h: Host, s: State): State {
    if Halted(p, s) then s
    else if |s.frames| == 0 || s.frames[|s.frames| - 1].unit >= |p| then Stop(s)
    else if AtEnd(p, s) then Leaving(s)
    else Exec(p, h, s, Decode(p[s.frames[|s.frames| - 1].unit], s.pc))
  }

  function Iterate(next: State -> State, s: State, n: nat): State
    decreases n
  {
    if n == 0 then s else Iterate(next, next(s), n - 1)
  }

  /** The state n steps after s. */
  function Run(p: seq<InstructionSet>, h: Host, s: State, n: nat): State {
    Iterate(t => Step(p, h, t), s, n)
  }

  lemma {:induction false} IterateAdd(next: State -> State, s: State, m: nat, n: nat)
    ensures Iterate(next, s, m + n) == Iterate(next, Iterate(next, s, m), n)
    decreases m
  {
    if m > 0 {
      IterateAdd(next, next(s), m - 1, n);
    }
  }

  /** A machine that has stopped stays where it is. */
  lemma {:induction false} IterateFixed(next: State -> State, s: State, n: nat)
    requires next(s) == s
    ensures Iterate(next, s, n) == s
    decreases n
  {
    if n > 0 {
      IterateFixed(next, s, n - 1);
    }
  }

  lemma RunNothing(sets: seq<InstructionSet>, h: Host, s: State)
    ensures Run(sets, h, s, 0) == s
  {
  }

  lemma RunSplit(sets: seq<InstructionSet>, h: Host, s: State, m: nat, n: nat)
    ensures Run(sets, h, s, m + n) == Run(sets, h, Run(sets, h, s, m), n)
  {
    hide Step;
    IterateAdd(t => Step(sets, h, t), s, m, n);
  }

  lemma RunOnce(sets: seq<InstructionSet>, h: Host, s: State)
    ensures Run(sets, h, s, 1) == Step(sets, h, s)
  {
    hide Step;
    var next := t => Step(sets, h, t);
    assert Iterate(next, next(s), 0) == next(s);
  }

  /** A halted machine stays as it is. */
  lemma HaltedStays(sets: seq<InstructionSet>, h: Host, s: State, m: nat, n: nat)
    requires m <= n && Halted(sets, Run(sets, h, s, m))
    ensures Run(sets, h, s, n) == Run(sets, h, s, m)
  {
    hide Exec, Decode;
    RunSplit(sets, h, s, m, n - m);
    IterateFixed(t => Step(sets, h, t), Run(sets, h, s, m), n - m);
  }
}
