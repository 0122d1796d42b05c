/**
 A program that comes to a `yield` two blocks deep: the method's block is passed
 a block inside a block of the program, which itself has none.  By its text the
 yield is an error; the machine runs the enclosing block again, and so on without end.
 */
module DeepYields {
  import opened Wrappers
  import opened Ast
  import opened Bytecode
  import opened Binding
  import opened Machine
  import opened Layout
  import opened Correctness
  import opened Executions
  import opened Misplaced
  import opened Yields
  import Patching
  import Pipeline
  import Ev = Evaluator

  const YIELDING := ExprStmt(Yield([]), false)

  /** f do; body; end */
  function Passing(f: Name, body: seq<Stmt>): Stmt {
    ExprStmt(Call(SelfRef, f, [], Some(BlockLit([], body))), false)
  }

  /** f do; yield; end */
  function Inner(f: Name): Stmt {
    Passing(f, [YIELDING])
  }

  /** def f; yield; end; f do; f do; yield; end; end */
  function YieldsDeep(f: Name): seq<Stmt> {
    [YieldingMethod(f), Passing(f, [Inner(f)])]
  }

  // --------------------------------------------------------------- the code

  /** Self, then the call with the block. */
  ghost predicate PassesAt(p: Program, k: nat, pc: nat, f: Name, b: nat) {
    At(p, k, pc, IPutSelf) && At(p, k, pc + 1, ISend(f, 0, Some(b), Some(ArgSet([], []))))
  }

  lemma PassingCode(p: Program, k: nat, pc: nat, f: Name, body: seq<Stmt>, sc: Scope) returns (b: nat)
    requires CodeStmt(p, k, pc, Passing(f, body), sc, None) && f != DEFER_NAME
    ensures b < |p.units| && p.units[b] == BlockSource([], body, [sc.cur] + sc.outer, None) && PassesAt(p, k, pc, f, b)
  {
    hide At, Size, SizeAll;
    SelfLayout(sc, SiteOf(p, k, None));
    assert AfterAll([], 0, sc) == sc && ArgSetOf([]) == ArgSet([], []);
    var block := Some(BlockLit([], body));
    assert CodeAt(p, k, pc, Call(SelfRef, f, [], block), sc, None);
    var unit :| BlockOperand(p, block, unit, sc, None) && At(p, k, pc + 1, ISend(f, 0, unit, Some(ArgSet([], []))));
    b := unit.value;
  }

  lemma BlockStatement(p: Program, b: nat, s: Stmt, outer: seq<seq<Name>>)
    requires Compiled(p) && b < |p.units| && p.units[b] == BlockSource([], [s], outer, None)
    ensures CodeStmt(p, b, 0, s, Scope([], outer), None)
  {
    hide At, CodeStmts, SizeStmts, CodeStmt, SizeStmt;
    assert UnitAt(p, b);
    assert Distinct([], 0) == [];
    OneStatement(s, Scope([], outer), SiteOf(p, b, None));
    OneStatementCode(p, b, 0, s, Scope([], outer), None);
  }

  /** The program's set, the method's, the outer block's and the inner block's. */
  ghost predicate DeepCode(p: Program, f: Name, m: nat, a: nat, b: nat) {
    && m < |p.sets| && a < |p.sets| && b < |p.sets| && p.sets[m].params == ArgSet([], [])
    && At(p, 0, 0, IPutSelf) && At(p, 0, 1, IDefMethod(0, f, Some(m)))
    && PassesAt(p, 0, 5, f, a) && PassesAt(p, a, 0, f, b)
    && At(p, m, 0, IPutSelf) && At(p, m, 1, IInvokeBlock(0)) && At(p, b, 0, IPutSelf) && At(p, b, 1, IInvokeBlock(0))
  }

  lemma MainCode(p: Program, f: Name)
    requires Compiled(p) && |p.units| > 0 && p.units[0] == MainSource(YieldsDeep(f)) && f != DEFER_NAME
    ensures CodeStmt(p, 0, 0, YieldingMethod(f), EMPTY, None) && CodeStmt(p, 0, 5, Passing(f, [Inner(f)]), EMPTY, None)
  {
    hide At, CodeStmt, Passing, YieldingMethod, Inner;
    assert UnitAt(p, 0);
    var body := YieldsDeep(f);
    var site := SiteOf(p, 0, None);
    MethodLayout(f, site);
    assert StartScope(p.units[0]) == EMPTY && SizeStmts(body, 0, EMPTY, site) == 0
        && AfterStmts(body, 0, EMPTY) == EMPTY;
    assert SizeStmts(body, 1, EMPTY, site) == 5 && AfterStmts(body, 1, EMPTY) == EMPTY;
    assert CodeStmts(p, 0, 0, body, 2, EMPTY, None);
    assert CodeStmts(p, 0, 0, body, 1, EMPTY, None);
  }

  lemma MethodLayout(f: Name, site: Site)
    ensures SizeStmt(YieldingMethod(f), EMPTY, site) == 5 && AfterStmt(YieldingMethod(f), EMPTY) == EMPTY
  {
  }

  lemma YieldCode(p: Program, b: nat, sc: Scope)
    requires CodeStmt(p, b, 0, YIELDING, sc, None)
    ensures At(p, b, 0, IPutSelf) && At(p, b, 1, IInvokeBlock(0))
  {
    hide At, CodeAt, Size;
    YieldLayout(p, b, sc);
  }

  lemma MethodUnit(p: Program, k: nat, pc: nat, f: Name, sc: Scope) returns (m: nat)
    requires CodeStmt(p, k, pc, YieldingMethod(f), sc, None)
    ensures m < |p.units| && p.units[m] == MethodSource([], [ExprStmt(Yield([]), false)])
    ensures At(p, k, pc, IPutSelf) && At(p, k, pc + 1, IDefMethod(0, f, Some(m)))
  {
    hide At;
    m :| At(p, k, pc + 1, IDefMethod(0, f, Some(m))) && m < |p.units|
      && p.units[m] == MethodSource([], [ExprStmt(Yield([]), false)]);
  }

  lemma DeepCodeFound(p: Program, f: Name) returns (m: nat, a: nat, b: nat)
    requires Compiled(p) && |p.units| > 0 && p.units[0] == MainSource(YieldsDeep(f)) && f != DEFER_NAME
    ensures DeepCode(p, f, m, a, b)
  {
    hide At, UnitAt, CodeStmt, YieldsDeep, PassesAt, Passing;
    assert |p.sets| == |p.units|;
    MainCode(p, f);
    m := MethodUnit(p, 0, 0, f, EMPTY);
    MethodCode(p, m);
    a := PassingCode(p, 0, 5, f, [Inner(f)], EMPTY);
    BlockStatement(p, a, Inner(f), [[]]);
    b := PassingCode(p, a, 0, f, [YIELDING], Scope([], [[]]));
    BlockStatement(p, b, YIELDING, [[]] + [[]]);
    YieldCode(p, b, Scope([], [[]] + [[]]));
  }

  // ---------------------------------------------------------------- the run

  function CalledFrame(self: Value, m: nat, b: nat, top: nat, base: nat, ret: nat): Frame {
    Frame(m, [], self, None, Some(BlockRef(b, top)), base, ret)
  }

  function EnteredFrame(self: Value, b: nat, top: nat, base: nat): Frame {
    Frame(b, [], self, Some(top), Some(BlockRef(b, top)), base, 3)
  }

  lemma ExecPass(p: Program, h: Host, f: Name, m: nat, b: nat, self: Value, pc: nat, stack: seq<Value>,
                 frames: seq<Frame>, defs: map<MethodKey, nat>, world: World)
    requires m < |p.sets| && p.sets[m].params == ArgSet([], []) && |frames| > 0 && frames[|frames| - 1].unit < |p.sets|
    requires h.find(defs.Keys, self, f) == Defined(h.classOf(self)) && defs == map[(h.classOf(self), f) := m]
    ensures Exec(p.sets, h, Here(pc, stack + [self], frames, defs, world), ISend(f, 0, Some(b), Some(ArgSet([], []))))
            == Here(0, stack + [self], frames + [CalledFrame(self, m, b, |frames| - 1, |stack|, pc + 5)], defs, world)
  {
    hide BindValues;
    BindNothing();
    assert (stack + [self])[|stack| + 1..] == [];
  }

  lemma ExecInvoke(p: Program, h: Host, self: Value, stack: seq<Value>, frames: seq<Frame>, b: nat, ep: nat,
                   defs: map<MethodKey, nat>, world: World)
    requires |frames| > 0 && frames[|frames| - 1].unit < |p.sets|
    requires
      var f := frames[|frames| - 1];
      f.block.Some? && Some(BlockRef(b, ep)) ==
        if f.ep == Some(f.block.value.ep) && f.block.value.ep < |frames| then frames[f.block.value.ep].block
          else f.block
    ensures Exec(p.sets, h, Here(1, stack + [self], frames, defs, world), IInvokeBlock(0))
            == Here(0, stack + [self], frames + [EnteredFrame(self, b, ep, |stack|)], defs, world)
  {
    var args := (stack + [self])[|stack| + 1..];
    assert args == [] && seq(|args|, i requires 0 <= i < |args| => Some(args[i])) == [];
  }

  /** The state after the block has been passed and entered. */
  function Descended(p: Program, m: nat, b: nat, self: Value, pc: nat, stack: seq<Value>, frames: seq<Frame>,
                     defs: map<MethodKey, nat>, world: World): State
    requires |frames| > 0
  {
    var called := frames + [CalledFrame(self, m, b, |frames| - 1, |stack|, pc + 6)];
    Here(0, stack + [self] + [self], called + [EnteredFrame(self, b, |frames| - 1, |stack| + 1)], defs, world)
  }

  /** Four instructions: into the method with the block, and into the block. */
  lemma Descends(p: Program, h: Host, f: Name, m: nat, b: nat, self: Value, s: State, n: nat, pc: nat,
                 stack: seq<Value>, frames: seq<Frame>, defs: map<MethodKey, nat>, world: World)
    requires Run(p.sets, h, s, n) == Here(pc, stack, frames, defs, world) && |frames| > 0
    requires frames[|frames| - 1].unit < |p.sets| && frames[|frames| - 1].self == self
    requires PassesAt(p, frames[|frames| - 1].unit, pc, f, b) && m < |p.sets| && b < |p.sets|
    requires p.sets[m].params == ArgSet([], [])
    requires At(p, m, 0, IPutSelf) && At(p, m, 1, IInvokeBlock(0))
    requires h.find(defs.Keys, self, f) == Defined(h.classOf(self)) && defs == map[(h.classOf(self), f) := m]
    ensures Run(p.sets, h, s, n + 4) == Descended(p, m, b, self, pc, stack, frames, defs, world)
  {
    hide Decode, Run, Exec, At;
    var k := frames[|frames| - 1].unit;
    var called := frames + [CalledFrame(self, m, b, |frames| - 1, |stack|, pc + 6)];
    var high := stack + [self];
    ExecPush(p.sets, h, Here(pc, stack, frames, defs, world), IPutSelf, self);
    var n1 := Moves(p, h, Line(k, pc, IPutSelf), s, n, Here(pc, stack, frames, defs, world),
                    Here(pc + 1, high, frames, defs, world));
    ExecPass(p, h, f, m, b, self, pc + 1, stack, frames, defs, world);
    var n2 := Moves(p, h, Line(k, pc + 1, ISend(f, 0, Some(b), Some(ArgSet([], [])))), s, n1,
                    Here(pc + 1, high, frames, defs, world), Here(0, high, called, defs, world));
    ExecPush(p.sets, h, Here(0, high, called, defs, world), IPutSelf, self);
    var n3 := Moves(p, h, Line(m, 0, IPutSelf), s, n2, Here(0, high, called, defs, world),
                    Here(1, high + [self], called, defs, world));
    ExecInvoke(p, h, self, high, called, b, |frames| - 1, defs, world);
    var n4 := Moves(p, h, Line(m, 1, IInvokeBlock(0)), s, n3,
                    Here(1, high + [self], called, defs, world),
                      Descended(p, m, b, self, pc, stack, frames, defs, world));
  }

  lemma DefinesMethod(p: Program, h: Host, f: Name, m: nat, self: Value, world: World) returns (n: nat)
    requires At(p, 0, 0, IPutSelf) && At(p, 0, 1, IDefMethod(0, f, Some(m)))
    ensures Run(p.sets, h, Initial(0, self, world), n)
      == Here(5, [], [MainFrameOf(self)], map[(h.classOf(self), f) := m], world)
  {
    assert 0 < |p.sets|;
    hide Decode, Run, Exec, At;
    var s, main, defs := Initial(0, self, world), [MainFrameOf(self)], map[(h.classOf(self), f) := m];
    RunNothing(p.sets, h, s);
    ExecPush(p.sets, h, s, IPutSelf, self);
    n := Moves(p, h, Line(0, 0, IPutSelf), s, 0, s, Here(1, [self], main, map[], world));
    ExecPop(p.sets, h, Here(1, [self], main, map[], world), [], self);
    n := Moves(p, h, Line(0, 1, IDefMethod(0, f, Some(m))), s, n, Here(1, [self], main, map[], world),
               Here(5, [], main, defs, world));
  }

  /** The outer block's frame is on top. */
  ghost predicate InOuter(frames: seq<Frame>, a: nat, self: Value) {
    && |frames| >= 3
    && var f := frames[|frames| - 1];
       f.unit == a && f.self == self && f.ep == Some(0) && f.block == Some(BlockRef(a, 0))
  }

  /** The frames at the yield: those below, with the outer block's on top, the method's and the inner block's. */
  function AtYield(self: Value, m: nat, b: nat, frames: seq<Frame>, base: nat): seq<Frame>
    requires |frames| > 0
  {
    frames + [CalledFrame(self, m, b, |frames| - 1, base, 6)] + [EnteredFrame(self, b, |frames| - 1, base + 1)]
  }

  lemma TopOf(self: Value, m: nat, b: nat, frames: seq<Frame>, base: nat)
    requires |frames| > 0
    ensures
      var deep := AtYield(self, m, b, frames, base);
      && |deep| == |frames| + 2 && deep[|frames| + 1] == EnteredFrame(self, b, |frames| - 1, base + 1)
      && deep[|frames| - 1] == frames[|frames| - 1]
  {
  }

  /** From the outer block's beginning to the yield in the inner one, and from there to the outer block's
      beginning again, in a frame of its own. */
  lemma GoesRound(p: Program, h: Host, f: Name, m: nat, a: nat, b: nat, self: Value, s: State, n: nat,
                  stack: seq<Value>, frames: seq<Frame>, defs: map<MethodKey, nat>, world: World)
    requires DeepCode(p, f, m, a, b) && InOuter(frames, a, self)
    requires Run(p.sets, h, s, n) == Here(0, stack, frames, defs, world)
    requires h.find(defs.Keys, self, f) == Defined(h.classOf(self)) && defs == map[(h.classOf(self), f) := m]
    ensures
      var high, deep := stack + [self] + [self], AtYield(self, m, b, frames, |stack|);
      && Run(p.sets, h, s, n + 5) == Here(1, high + [self], deep, defs, world)
      && Run(p.sets, h, s, n + 6) == Here(0, high + [self], deep + [EnteredFrame(self, a, 0, |stack| + 2)], defs, world)
      && InOuter(deep + [EnteredFrame(self, a, 0, |stack| + 2)], a, self)
  {
    hide Decode, Run, Exec, At, PassesAt, AtYield;
    var deep, high := AtYield(self, m, b, frames, |stack|), stack + [self] + [self];
    Descends(p, h, f, m, b, self, s, n, 0, stack, frames, defs, world);
    assert Run(p.sets, h, s, n + 4) == Here(0, high, deep, defs, world) by {
      DescendedTo(p, m, b, self, stack, frames, defs, world);
    }
    TopOf(self, m, b, frames, |stack|);
    ExecPush(p.sets, h, Here(0, high, deep, defs, world), IPutSelf, self);
    var n5 := Moves(p, h, Line(b, 0, IPutSelf), s, n + 4, Here(0, high, deep, defs, world),
                    Here(1, high + [self], deep, defs, world));
    ExecInvoke(p, h, self, high, deep, a, 0, defs, world);
    var n6 := Moves(p, h, Line(b, 1, IInvokeBlock(0)), s, n5, Here(1, high + [self], deep, defs, world),
                    Here(0, high + [self], deep + [EnteredFrame(self, a, 0, |stack| + 2)], defs, world));
  }

  lemma DescendedTo(p: Program, m: nat, b: nat, self: Value, stack: seq<Value>, frames: seq<Frame>,
                    defs: map<MethodKey, nat>, world: World)
    requires |frames| > 0
    ensures Descended(p, m, b, self, 0, stack, frames, defs, world)
            == Here(0, stack + [self] + [self], AtYield(self, m, b, frames, |stack|), defs, world)
  {
  }

  /** The frames when the outer block is entered for the first time. */
  function First(self: Value, m: nat, a: nat): seq<Frame> {
    [MainFrameOf(self)] + [CalledFrame(self, m, a, 0, 0, 11)] + [EnteredFrame(self, a, 0, 1)]
  }

  lemma FirstFrames(self: Value, m: nat, a: nat)
    ensures |First(self, m, a)| == 3 && First(self, m, a)[0] == MainFrameOf(self) && InOuter(First(self, m, a), a, self)
    ensures First(self, m, a)[2] == EnteredFrame(self, a, 0, 1)
  {
  }

  function OuterBegins(h: Host, f: Name, m: nat, a: nat, self: Value, world: World): State {
    Here(0, [self] + [self], First(self, m, a), map[(h.classOf(self), f) := m], world)
  }

  lemma ComesToBlock(p: Program, h: Host, f: Name, m: nat, a: nat, b: nat, self: Value, world: World) returns (n: nat)
    requires DeepCode(p, f, m, a, b) && h.find({(h.classOf(self), f)}, self, f) == Defined(h.classOf(self))
    ensures Run(p.sets, h, Initial(0, self, world), n) == OuterBegins(h, f, m, a, self, world)
  {
    hide Decode, Run, Exec, At, PassesAt;
    var s, defs := Initial(0, self, world), map[(h.classOf(self), f) := m];
    assert defs.Keys == {(h.classOf(self), f)};
    var n0 := DefinesMethod(p, h, f, m, self, world);
    Descends(p, h, f, m, a, self, s, n0, 5, [], [MainFrameOf(self)], defs, world);
    assert [] + [self] + [self] == [self] + [self];
    n := n0 + 4;
  }

  lemma DeepLinks(self: Value, m: nat, a: nat, b: nat)
    ensures
      var frames := AtYield(self, m, b, First(self, m, a), 2);
      && |frames| == 5 && frames[4].unit == b && frames[2].unit == a && frames[2].ep == Some(0)
      && Nesting(frames, 4) == 2 && HomeOf(frames, 4) == 0 && frames[0].block.None?
  {
    FirstFrames(self, m, a);
    TopOf(self, m, b, First(self, m, a), 2);
    var frames := AtYield(self, m, b, First(self, m, a), 2);
    assert frames[0] == MainFrameOf(self) && frames[2] == EnteredFrame(self, a, 0, 1)
        && frames[4] == EnteredFrame(self, b, 2, 3);
    assert HomeOf(frames, 0) == 0 && Nesting(frames, 0) == 0;
    assert HomeOf(frames, 2) == 0 && Nesting(frames, 2) == 1;
  }

  /** After any number of steps there is a later state in which the outer block is entered again. */
  lemma {:induction false} ComesAgain(p: Program, h: Host, f: Name, m: nat, a: nat, b: nat, self: Value, world: World,
                                      k: nat)
    returns (n: nat, stack: seq<Value>, frames: seq<Frame>)
    requires DeepCode(p, f, m, a, b) && h.find({(h.classOf(self), f)}, self, f) == Defined(h.classOf(self))
    ensures n >= k && InOuter(frames, a, self)
    ensures Run(p.sets, h, Initial(0, self, world), n) == Here(0, stack, frames, map[(h.classOf(self), f) := m], world)
    decreases k
  {
    hide Run, DeepCode;
    if k == 0 {
      n := ComesToBlock(p, h, f, m, a, b, self, world);
      stack, frames := [self] + [self], First(self, m, a);
      FirstFrames(self, m, a);
    } else {
      n, stack, frames := ComesAgain(p, h, f, m, a, b, self, world, k - 1);
      var defs := map[(h.classOf(self), f) := m];
      assert defs.Keys == {(h.classOf(self), f)};
      GoesRound(p, h, f, m, a, b, self, Initial(0, self, world), n, stack, frames, defs, world);
      frames := AtYield(self, m, b, frames, |stack|) + [EnteredFrame(self, a, 0, |stack| + 2)];
      n, stack := n + 6, stack + [self] + [self] + [self];
    }
  }

  lemma NeverHalts(p: Program, h: Host, f: Name, m: nat, a: nat, b: nat, self: Value, world: World, k: nat)
    requires DeepCode(p, f, m, a, b) && h.find({(h.classOf(self), f)}, self, f) == Defined(h.classOf(self))
    ensures !Halted(p.sets, Run(p.sets, h, Initial(0, self, world), k))
  {
    hide Run, DeepCode;
    var n, stack, frames := ComesAgain(p, h, f, m, a, b, self, world, k);
    if Halted(p.sets, Run(p.sets, h, Initial(0, self, world), k)) {
      HaltedStays(p.sets, h, Initial(0, self, world), k, n);
      assert false;
    }
  }

  // ------------------------------------------------------------ its meaning

  function Body(): Ev.MethodDef {
    Ev.MethodDef([], [YIELDING])
  }

  /** The activations of the method and of the block passed to it. */
  function Activations(st: Ev.EState, self: Value, body: seq<Stmt>, sc: Scope): Ev.EState
    requires |st.envs| > 0
  {
    var b := Some(Ev.BlockVal([], body, [sc.cur] + sc.outer, |st.envs| - 1));
    Ev.PushEnv(Ev.PushEnv(st, Ev.Env(map[], self, None, b)), Ev.Env(map[], self, Some(|st.envs| - 1), b))
  }

  /** An error in the block is the error of the statement. */
  lemma PassingFails(h: Host, fuel: nat, f: Name, s: Stmt, st: Ev.EState, sc: Scope)
    requires fuel >= 2 && |st.envs| > 0
    requires
      var self := Ev.Current(st).self;
      var key := (h.classOf(self), f);
      st.defs == map[key := Body()] && h.find({key}, self, f) == Defined(h.classOf(self))
    requires
      var r := Ev.EvalStmt(h, fuel - 2, Activations(st, Ev.Current(st).self, [s], sc), s,
                           Scope([], [sc.cur] + sc.outer));
      r.Error? && r.err == InternalError
    ensures
      var r := Ev.EvalStmt(h, fuel, st, Passing(f, [s]), sc);
      r.Error? && r.err == InternalError
  {
    hide Ev.EvalStmt, BindValues;
    var self, body, sc' := Ev.Current(st).self, [s], Scope([], [sc.cur] + sc.outer);
    var b := Ev.BlockVal([], body, [sc.cur] + sc.outer, |st.envs| - 1);
    var inside := Activations(st, self, body, sc);
    OneFails(h, fuel - 2, inside, s, sc');
    var called := Ev.PushEnv(st, Ev.Env(map[], self, None, Some(b)));
    YieldFails(h, fuel - 1, called, b);
    MethodFails(h, fuel - 1, called);
    CallFails(h, fuel, f, st, b);
    PassingCalls(h, fuel, f, st, body, sc);
  }

  lemma OneFails(h: Host, fuel: nat, st: Ev.EState, s: Stmt, sc: Scope)
    requires Ev.EvalStmt(h, fuel, st, s, sc).Error?
    ensures Ev.EvalStmts(h, fuel, st, [s], 1, sc) == Ev.EvalStmt(h, fuel, st, s, sc)
  {
    hide Ev.EvalStmt;
    assert Ev.EvalStmts(h, fuel, st, [s], 0, sc) == Ev.Done(st) && AfterStmts([s], 0, sc) == sc;
  }

  lemma YieldFails(h: Host, fuel: nat, st: Ev.EState, b: Ev.BlockVal)
    requires fuel >= 1 && |st.envs| > 0 && Ev.Current(st).ep.None? && Ev.Current(st).block == Some(b) && b.params == []
    requires
      var inside := Ev.PushEnv(st, Ev.Env(map[], Ev.Current(st).self, Some(b.ep), Some(b)));
      var r := Ev.EvalStmts(h, fuel - 1, inside, b.body, |b.body|, Scope([], b.outer));
      r.Error? && r.err == InternalError
    ensures
      var r := Ev.YieldCall(h, fuel, st, []);
      r.Error? && r.err == InternalError
  {
    hide Ev.EvalStmts;
    assert Ev.Home(st.envs, |st.envs| - 1) == Some(|st.envs| - 1);
    assert Ev.Bound([], Ev.SomeAll([]), 0) == map[];
    assert Distinct([], 0) == [];
  }

  lemma YieldStatement(h: Host, fuel: nat, st: Ev.EState, sc: Scope)
    requires |st.envs| > 0 && Ev.YieldCall(h, fuel, st, []).Error?
    ensures Ev.EvalStmt(h, fuel, st, YIELDING, sc) == Ev.YieldCall(h, fuel, st, [])
  {
    hide Ev.YieldCall;
    assert Ev.EvalAll(h, fuel, st, [], 0, sc) == Ev.Outs([], st);
    assert Ev.Eval(h, fuel, st, Yield([]), sc) == Ev.YieldCall(h, fuel, st, []);
  }

  lemma MethodFails(h: Host, fuel: nat, st: Ev.EState)
    requires |st.envs| > 0 && Ev.YieldCall(h, fuel, st, []).Error?
    ensures Ev.RunMethod(h, fuel, st, Body()) == Ev.YieldCall(h, fuel, st, [])
  {
    hide Ev.YieldCall, Ev.EvalStmt;
    assert Ev.Defaults(h, fuel, st, [], 0) == Ev.Done(st) && AfterParams([], 0, EMPTY) == EMPTY;
    YieldStatement(h, fuel, st, EMPTY);
    OneFails(h, fuel, st, YIELDING, EMPTY);
  }

  lemma CallFails(h: Host, fuel: nat, f: Name, st: Ev.EState, b: Ev.BlockVal)
    requires fuel >= 1 && |st.envs| > 0
    requires
      var self := Ev.Current(st).self;
      var key := (h.classOf(self), f);
      && st.defs == map[key := Body()] && h.find({key}, self, f) == Defined(h.classOf(self))
      && Ev.RunMethod(h, fuel - 1, Ev.PushEnv(st, Ev.Env(map[], self, None, Some(b))), Body()).Error?
    ensures
      var self := Ev.Current(st).self;
      Ev.Call(h, fuel, st, self, f, [], Some(ArgSet([], [])), Some(b))
      == Ev.RunMethod(h, fuel - 1, Ev.PushEnv(st, Ev.Env(map[], self, None, Some(b))), Body())
  {
    hide Ev.RunMethod, BindValues;
    assert st.defs.Keys == {(h.classOf(Ev.Current(st).self), f)};
    BindNothing();
    assert ParamSetOf([]) == ArgSet([], []);
    assert Ev.Bound([], [], 0) == map[];
  }

  lemma PassingCalls(h: Host, fuel: nat, f: Name, st: Ev.EState, body: seq<Stmt>, sc: Scope)
    requires |st.envs| > 0
    ensures
      var b := Some(Ev.BlockVal([], body, [sc.cur] + sc.outer, |st.envs| - 1));
      var r := Ev.Call(h, fuel, st, Ev.Current(st).self, f, [], Some(ArgSet([], [])), b);
      r.Error? ==> Ev.EvalStmt(h, fuel, st, Passing(f, body), sc) == r
  {
    hide Ev.Call;
    var self := Ev.Current(st).self;
    assert ArgSetOf([]) == ArgSet([], []);
    assert Ev.Eval(h, fuel, st, SelfRef, sc) == Ev.Val(self, st)
        && Ev.EvalAll(h, fuel, st, [], 0, sc) == Ev.Outs([], st);
    assert AfterAll([], 0, sc) == sc && After(SelfRef, sc) == sc;
  }

  /** By its text the yield is one of the program itself, which has no block. */
  lemma DeepYieldFails(h: Host, fuel: nat, st: Ev.EState, f: Name, self: Value)
    requires st.envs == [Ev.InitialEnv(self)]
    ensures
      var one := Activations(st, self, [Inner(f)], EMPTY);
      var two := Activations(one, self, [YIELDING], Scope([], [[]]));
      Ev.YieldCall(h, fuel, two, []) == Ev.Error(InternalError, two)
  {
    var one := Activations(st, self, [Inner(f)], EMPTY);
    var two := Activations(one, self, [YIELDING], Scope([], [[]]));
    assert two.envs[0] == Ev.InitialEnv(self) && two.envs[2].ep == Some(0) && two.envs[4].ep == Some(2);
    assert Ev.Home(two.envs, 0) == Some(0);
    assert Ev.Home(two.envs, 2) == Some(0);
    assert Ev.Home(two.envs, 4) == Some(0);
  }

  lemma MeantAsError(h: Host, fuel: nat, f: Name, self: Value, world: World)
    requires fuel >= 4 && f != DEFER_NAME && h.find({(h.classOf(self), f)}, self, f) == Defined(h.classOf(self))
    ensures
      var r := Ev.EvalProgram(h, fuel, self, world, YieldsDeep(f));
      r.Error? && r.err == InternalError
  {
    hide Ev.EvalStmt, Passing, Ev.YieldCall, Activations;
    var st := Ev.EState([Ev.InitialEnv(self)], map[], world);
    var defined := st.(defs := map[(h.classOf(self), f) := Body()]);
    var body := YieldsDeep(f);
    assert Ev.EvalStmts(h, fuel, st, body, 0, EMPTY) == Ev.Done(st) && AfterStmts(body, 0, EMPTY) == EMPTY;
    Defines(h, fuel, f, st);
    MethodLayout(f, HERE);
    assert Ev.EvalStmts(h, fuel, st, body, 1, EMPTY) == Ev.Done(defined) && AfterStmts(body, 1, EMPTY) == EMPTY;
    PassedTwice(h, fuel, f, defined, self);
  }

  lemma PassedTwice(h: Host, fuel: nat, f: Name, st: Ev.EState, self: Value)
    requires fuel >= 4 && st.envs == [Ev.InitialEnv(self)] && st.defs == map[(h.classOf(self), f) := Body()]
    requires h.find({(h.classOf(self), f)}, self, f) == Defined(h.classOf(self))
    ensures
      var r := Ev.EvalStmt(h, fuel, st, Passing(f, [Inner(f)]), EMPTY);
      r.Error? && r.err == InternalError
  {
    hide Ev.EvalStmt, Passing, Ev.YieldCall;
    var one := Activations(st, self, [Inner(f)], EMPTY);
    var two := Activations(one, self, [YIELDING], Scope([], [[]]));
    DeepYieldFails(h, fuel - 4, st, f, self);
    YieldStatement(h, fuel - 4, two, Scope([], [[]] + [[]]));
    assert [EMPTY.cur] + EMPTY.outer == [[]] && Inner(f) == Passing(f, [YIELDING]);
    PassingFails(h, fuel - 2, f, YIELDING, one, Scope([], [[]]));
    PassingFails(h, fuel, f, Inner(f), st, EMPTY);
  }

  // ------------------------------------------------------------ the witness

  /** Generated code comes to a yield two blocks deep, in a program without a block.  Its meaning is an
      error; the machine goes into the block that encloses the yield, and never ends. */
  lemma DeepYieldReached(h: Host, f: Name, self: Value, world: World) returns (n: nat)
    requires f != DEFER_NAME && h.find({(h.classOf(self), f)}, self, f) == Defined(h.classOf(self))
    ensures forall fuel: nat {:trigger Ev.EvalProgram(h, fuel, self, world, YieldsDeep(f))} ::
              fuel >= 4 ==>
                var r := Ev.EvalProgram(h, fuel, self, world, YieldsDeep(f));
                r.Error? && r.err == InternalError
    ensures
      var p := Pipeline.Generated(YieldsDeep(f));
      var s, t := Run(p.sets, h, Initial(0, self, world), n), Run(p.sets, h, Initial(0, self, world), n + 1);
      && s.status == Running == t.status && |s.frames| == 5 && At(p, s.frames[4].unit, s.pc, IInvokeBlock(0))
      && Nesting(s.frames, 4) == 2 && s.frames[HomeOf(s.frames, 4)].block.None?
      && |t.frames| == 6 && t.pc == 0 && t.frames[5].unit == s.frames[2].unit && t.frames[5].ep == s.frames[2].ep
    ensures
      var p := Pipeline.Generated(YieldsDeep(f));
      forall k: nat :: !Halted(p.sets, Run(p.sets, h, Initial(0, self, world), k))
  {
    hide Run, At, YieldsDeep, Compiled, Patching.FinalOf, DeepCode, Ev.EvalProgram, AtYield, First;
    var p := Pipeline.Generated(YieldsDeep(f));
    assert YieldsDeep(f) != [] by { TwoStatements(f); }
    Patching.GeneratedCompiled(YieldsDeep(f));
    var m, a, b := DeepCodeFound(p, f);
    YieldAt(p, f, m, a, b);
    var n0 := ComesToBlock(p, h, f, m, a, b, self, world);
    var defs := map[(h.classOf(self), f) := m];
    assert defs.Keys == {(h.classOf(self), f)};
    FirstFrames(self, m, a);
    GoesRound(p, h, f, m, a, b, self, Initial(0, self, world), n0, [self] + [self], First(self, m, a), defs, world);
    DeepLinks(self, m, a, b);
    n := n0 + 5;
    forall k: nat ensures !Halted(p.sets, Run(p.sets, h, Initial(0, self, world), k)) {
      NeverHalts(p, h, f, m, a, b, self, world, k);
    }
    forall fuel: nat | fuel >= 4
      ensures
        var r := Ev.EvalProgram(h, fuel, self, world, YieldsDeep(f));
        r.Error? && r.err == InternalError
    {
      MeantAsError(h, fuel, f, self, world);
    }
  }

  lemma TwoStatements(f: Name)
    ensures |YieldsDeep(f)| == 2
  {
  }

  lemma YieldAt(p: Program, f: Name, m: nat, a: nat, b: nat)
    requires DeepCode(p, f, m, a, b)
    ensures At(p, b, 1, IInvokeBlock(0))
  {
    hide At;
  }
}
