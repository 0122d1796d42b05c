/**
 The whole way: statements are compiled, elided and interpreted, and end as the
 tree evaluator says; and the printed text of a value, read, compiled and run,
 is the value.
 */
module Runs {
  import opened Wrappers
  import opened Ast
  import opened Bytecode
  import opened Machine
  import opened WellFormed
  import opened Correctness
  import opened Optimised
  import opened Pipeline
  import opened Emission
  import opened Patching
  import opened Alignment
  import opened Boundaries
  import Relation
  import Ev = Evaluator
  import Generators
  import Interpreters
  import L = Layout
  import Parsing
  import R = Rebuilding
  import ReadBack

  /** A program that halts within the budget is run to its end, and whatever is run to its end ends as evaluated. */
  method RunProgram(body: seq<Stmt>, h: Host, self: Value, world: World, fuel: nat)
    returns (done: bool, t: State, ghost steps: nat)
    requires body != [] && WfUnit(MainSource(body))
    ensures done ==> forall f: nat {:trigger Ev.EvalProgram(h, f, self, world, body)} :: f > steps ==>
              var out := Ev.EvalProgram(h, f, self, world, body);
              !out.Timeout? && Matches(Generated(body), h, f, 0, 0, t, out)
    ensures
      var p := Generated(body);
      (exists n: nat :: n <= fuel && Halted(p.sets, Run(p.sets, h, Initial(0, self, world), n))) ==> done
  {
    hide Run, Halted, Ev.EvalProgram, EmitProgram, WfUnit, SetsElided, Relation.Sound, Relation.Agree;
    var g := new Generators.Generator();
    g.GenerateInstructions(body);
    ghost var p, order, s := Generated(body), g.finished, Initial(0, self, world);
    var i := new Interpreters.Interpreter(g.sets, h, 0, self, world);
    ghost var n;
    done, n := i.Execute(fuel);
    t := State(i.pc, i.stack, i.frames, i.defs, i.world, i.status);
    steps := 0;
    if done {
      steps := ElidedHaltsAsEvaluated(p, h, order, 0, self, world, n);
    } else {
      NotYet(p, h, order, self, world, n);
    }
  }

  /** Elided code that has not halted after n steps: the code as generated has not either. */
  lemma NotYet(p: L.Program, h: Host, order: seq<nat>, self: Value, world: World, n: nat)
    requires Relation.Sound(p) && |p.units| > 0 && p.units[0].MainSource?
    requires var code := SetsElided(p.sets, order); !Halted(code, Run(code, h, Initial(0, self, world), n))
    ensures forall m: nat {:trigger Run(p.sets, h, Initial(0, self, world), m)} :: m <= n ==>
              !Halted(p.sets, Run(p.sets, h, Initial(0, self, world), m))
  {
    hide Run, Halted, Step, SetsElided, Relation.Sound, AllAligned, PcsOk;
    var s, code := Initial(0, self, world), SetsElided(p.sets, order);
    StartsAligned(p, 0, self, world);
    ElidedSame(p.sets, h, order, s);
    var _ := SetsRun(p.sets, h, order, s, 0);
    forall m: nat | m <= n ensures !Halted(p.sets, Run(p.sets, h, s, m)) {
      if Halted(p.sets, Run(p.sets, h, s, m)) {
        HaltedSame(p.sets, code, Run(p.sets, h, s, m));
        HaltedStays(code, h, s, m, n);
      }
    }
  }

  /** The printed text of a value, read, compiled and run with budget enough, leaves just the value. */
  method RunInspected(v: Value, h: Host, self: Value, world: World, fuel: nat) returns (done: bool, r: Option<Value>)
    requires R.Rebuildable(v) && R.SubtractsIntegers(h)
    ensures done ==> r == Some(v)
    ensures R.Literal(R.ValueTree(v))
    ensures
      var p := Generated([R.StatementOf(R.NodeOf(R.ValueTree(v)))]);
      (exists n: nat :: n <= fuel && Halted(p.sets, Run(p.sets, h, Initial(0, self, world), n))) ==> done
  {
    hide R.Rebuildable, R.ValueTree, R.NodeOf, R.SubtractsIntegers, Ev.EvalStmts, Ev.Eval, Generated, Halted, Run;
    hide WfUnit, Relation.Agree;
    R.ValueLiteral(v);
    var tree := ReadBack.ReadInspected(v);
    var e := R.NodeOf(tree.value);
    ghost var st := Ev.EState([Ev.InitialEnv(self)], map[], world);
    R.EvalValue(h, 0, st, v, L.EMPTY);
    R.StatementRuns(h, 0, st, e, v);
    var t;
    ghost var steps;
    done, t, steps := RunProgram([R.StatementOf(e)], h, self, world, fuel);
    r := if |t.stack| == 1 then Some(t.stack[0]) else None;
    if done {
      R.EvalValue(h, steps + 1, st, v, L.EMPTY);
      R.StatementRuns(h, steps + 1, st, e, v);
      assert Ev.EvalProgram(h, steps + 1, self, world, [R.StatementOf(e)]) == Ev.Val(v, st);
    }
  }

  /** There is a budget that is enough. */
  lemma RebuildingHalts(v: Value, h: Host, self: Value, world: World) returns (n: nat)
    requires R.Rebuildable(v) && R.SubtractsIntegers(h)
    ensures R.Literal(R.ValueTree(v))
    ensures
      var p := Generated([R.StatementOf(R.NodeOf(R.ValueTree(v)))]);
      Halted(p.sets, Run(p.sets, h, Initial(0, self, world), n))
  {
    hide R.Rebuildable, R.ValueTree, R.NodeOf, R.SubtractsIntegers, Generated, Halted, Run, Parsing.ParseStatement;
    n := R.InspectRebuilds(v, h, [], self, world);
    R.TextParses(v);
  }
}
