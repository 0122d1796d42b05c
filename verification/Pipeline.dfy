/**
 From source to the code the machine is given: compiled, and elided any number
 of times.  Nothing a program does is lost on the way.
 */
module Pipeline {
  import opened Wrappers
  import opened Ast
  import opened Layout
  import opened Bytecode
  import opened Machine
  import opened Relation
  import opened Boundaries
  import opened Alignment
  import opened Optimised
  import opened Correctness
  import opened WellFormed
  import opened Emission
  import opened Patching
  import Ev = Evaluator

  lemma StartsAligned(p: Program, k: nat, self: Value, world: World)
    requires Sound(p)
    ensures AllAligned(p.sets) && PcsOk(p.sets, Initial(k, self, world))
  {
    hide Sound, AllAligned;
    CompiledAligned(p);
    assert forall i {:trigger PcOk(p.sets, Initial(k, self, world), i)} :: i == 0 ==>
      PcOk(p.sets, Initial(k, self, world), i);
  }

  /** Whatever the evaluator comes to, elided code comes to. */
  lemma ElidedProgramRuns(p: Program, h: Host, order: seq<nat>, fuel: nat, k: nat, self: Value, world: World)
    returns (n: nat)
    requires Sound(p) && k < |p.units| && p.units[k].MainSource?
    requires var out := Ev.EvalProgram(h, fuel, self, world, p.units[k].body); !out.Timeout? && !out.Undefined?
    ensures Matches(p, h, fuel, k, n, Run(SetsElided(p.sets, order), h, Initial(k, self, world), n),
                    Ev.EvalProgram(h, fuel, self, world, p.units[k].body))
    ensures forall t: State {:trigger Halted(SetsElided(p.sets, order), t)} :: Halted(SetsElided(p.sets, order), t) <==>
      Halted(p.sets, t)
  {
    hide Sound, AllAligned, PcsOk, Agree, SetsElided, Iterate, Run, Ev.EvalProgram;
    n := ProgramRuns(p, h, fuel, k, self, world);
    StartsAligned(p, k, self, world);
    ElidedSame(p.sets, h, order, Initial(k, self, world));
    var m := SetsRun(p.sets, h, order, Initial(k, self, world), 0);
    forall t: State ensures Halted(SetsElided(p.sets, order), t) <==> Halted(p.sets, t) {
      HaltedSame(p.sets, SetsElided(p.sets, order), t);
    }
  }

  /** Whenever elided code halts, it halts as the evaluator with enough fuel says. */
  lemma ElidedHaltsAsEvaluated(p: Program, h: Host, order: seq<nat>, k: nat, self: Value, world: World, n: nat)
    returns (steps: nat)
    requires Sound(p) && k < |p.units| && p.units[k].MainSource?
    requires Halted(SetsElided(p.sets, order), Run(SetsElided(p.sets, order), h, Initial(k, self, world), n))
    ensures forall fuel: nat {:trigger Ev.EvalProgram(h, fuel, self, world, p.units[k].body)} :: fuel > steps ==>
              var out := Ev.EvalProgram(h, fuel, self, world, p.units[k].body);
              !out.Timeout?
                && Matches(p, h, fuel, k, n, Run(SetsElided(p.sets, order), h, Initial(k, self, world), n), out)
  {
    hide Sound, AllAligned, PcsOk, Agree, SetsElided, Iterate, Run, Halted, Ev.EvalProgram;
    var s := Initial(k, self, world);
    StartsAligned(p, k, self, world);
    steps := SetsRun(p.sets, h, order, s, n);
    HaltedSame(p.sets, SetsElided(p.sets, order), Run(p.sets, h, s, steps));
    forall fuel: nat | fuel > steps
      ensures
        var out := Ev.EvalProgram(h, fuel, self, world, p.units[k].body);
        !out.Timeout? && Matches(p, h, fuel, k, n, Run(SetsElided(p.sets, order), h, s, n), out)
    {
      HaltsAsEvaluated(p, h, fuel, k, self, world, steps);
    }
  }

  /** Elided code runs forever exactly when the evaluator never comes to an end. */
  lemma ElidedDivergence(p: Program, h: Host, order: seq<nat>, k: nat, self: Value, world: World)
    requires Sound(p) && k < |p.units| && p.units[k].MainSource? && WithinModel(h, self, world, p.units[k].body)
    ensures (forall fuel: nat :: Ev.EvalProgram(h, fuel, self, world, p.units[k].body).Timeout?)
       <==> (forall n: nat ::
             !Halted(SetsElided(p.sets, order), Run(SetsElided(p.sets, order), h, Initial(k, self, world), n)))
  {
    hide Sound, AllAligned, PcsOk, SetsElided, Iterate, Run, Halted, Ev.EvalProgram;
    Divergence(p, h, k, self, world);
    StartsAligned(p, k, self, world);
    ElidedSame(p.sets, h, order, Initial(k, self, world));
  }

  /** Before and after any number of passes: code is walked exactly by operand
      counts, branches and constant indices are in range, and every frame of
      every run stands at an instruction boundary or at the end of its code. */
  lemma CodeStaysAligned(p: Program, h: Host, order: seq<nat>, k: nat, self: Value, world: World, n: nat)
    requires Sound(p)
    ensures AllAligned(SetsElided(p.sets, order))
    ensures PcsOk(SetsElided(p.sets, order), Run(SetsElided(p.sets, order), h, Initial(k, self, world), n))
  {
    hide Sound, AllAligned, PcsOk, SetsElided, Iterate, Run;
    StartsAligned(p, k, self, world);
    var m := SetsRun(p.sets, h, order, Initial(k, self, world), 0);
    RunKeepsPcs(SetsElided(p.sets, order), h, Initial(k, self, world), n);
  }

  // ------------------------------------------------------ from source to runs

  /** The program the generator makes of a statement list, anchors patched. */
  function Generated(body: seq<Stmt>): Program {
    FinalOf(EmitProgram(NOTHING, body)).p
  }

  /** The compiler is correct: for every well-formed program, what the generator
      emits, patches and elides ends as the tree evaluator says whenever that
      ends, and runs forever exactly when that never does. */
  lemma CompilerCorrect(body: seq<Stmt>, h: Host, order: seq<nat>, fuel: nat, self: Value, world: World)
    returns (n: nat)
    requires body != [] && WfUnit(MainSource(body))
    ensures
      var p := Generated(body);
      var code := SetsElided(p.sets, order);
      var out := Ev.EvalProgram(h, fuel, self, world, body);
      && (!out.Timeout? && !out.Undefined? ==>
            var t := Run(code, h, Initial(0, self, world), n);
            Matches(p, h, fuel, 0, n, t, out) && (Halted(code, t) <==> Halted(p.sets, t)))
      && (WithinModel(h, self, world, body) ==>
            ((forall more: nat :: Ev.EvalProgram(h, more, self, world, body).Timeout?)
             <==> (forall m: nat :: !Halted(code, Run(code, h, Initial(0, self, world), m)))))
  {
    hide Sound, SetsElided, Iterate, Run, Halted, Ev.EvalProgram, EmitProgram, WfUnit, Agree;
    var p := Generated(body);
    GeneratedSound(body);
    var out := Ev.EvalProgram(h, fuel, self, world, body);
    n := 0;
    if !out.Timeout? && !out.Undefined? { n := ElidedProgramRuns(p, h, order, fuel, 0, self, world); }
    if WithinModel(h, self, world, body) { ElidedDivergence(p, h, order, 0, self, world); }
  }
}
