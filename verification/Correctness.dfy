/**
 The compiler theorem for whole programs: the machine running a compiled program
 ends as the evaluator says, fails as it says, and runs forever exactly when the
 evaluator never comes to an end; it never gets stuck.
 */
module Correctness {
  import opened Wrappers
  import opened Ast
  import opened Layout
  import opened Bytecode
  import opened Machine
  import opened WellFormed
  import opened Relation
  import opened Steps
  import opened Simulation
  import Ev = Evaluator

  function MainFrame(k: nat, self: Value): Frame {
    Frame(k, [], self, None, None, 0, 0)
  }

  /** ExecInstructions: the program's set in a frame of its own, on an empty stack. */
  function Initial(k: nat, self: Value, world: World): State {
    State(0, [], [MainFrame(k, self)], map[], world, Running)
  }

  function SettingOf(p: Program, h: Host): Setting {
    Setting(p, h, s => Step(p.sets, h, s))
  }

  lemma InitialAgrees(p: Program, h: Host, k: nat, self: Value, world: World)
    requires k < |p.units| && p.units[k].MainSource?
    ensures Ready(SettingOf(p, h), Ev.EState([Ev.InitialEnv(self)], map[], world), Initial(k, self, world))
  {
    var frames := [MainFrame(k, self)];
    assert LinkedAt(p, frames, 0);
    assert VarsOk(Names(p.units[k]), map[], []);
    assert EnvOk(p, Ev.InitialEnv(self), frames[0]);
  }

  /** What the machine has come to after n steps, for each way the evaluator can end. */
  ghost predicate Matches(p: Program, h: Host, fuel: nat, k: nat, n: nat, t: State, out: Ev.Out) {
    match out
    case Done(st) => Halted(p.sets, t) && t.status == Running && t.stack == [] && Agree(p, st, t)
    case Val(v, st) => Halted(p.sets, t) && t.status == Running && t.stack == [v] && Agree(p, st, t)
    case Returned(v, st) =>
      Halted(p.sets, t) && t.status == Running && |t.stack| > 0 && t.stack[|t.stack| - 1] == v && Agree(p, st, t)
    case Error(e, st) => t.status == Raised(e) && t.world == st.world
    case Timeout => n >= fuel && !Halted(p.sets, t)
    case Undefined => true
    case _ => false
  }

  lemma ProgramRuns(p: Program, h: Host, fuel: nat, k: nat, self: Value, world: World) returns (n: nat)
    requires Sound(p) && k < |p.units| && p.units[k].MainSource?
    ensures Matches(p, h, fuel, k, n, Run(p.sets, h, Initial(k, self, world), n),
                    Ev.EvalProgram(h, fuel, self, world, p.units[k].body))
  {
    hide Exec, Step, Decode, EnvOk, LinkedAt, DefsOk, CodeStmts, WfStmts, Ev.EvalStmts, SizeStmts;
    var c := SettingOf(p, h);
    var s := Initial(k, self, world);
    var st := Ev.EState([Ev.InitialEnv(self)], map[], world);
    var body := p.units[k].body;
    InitialAgrees(p, h, k, self, world);
    assert UnitAt(p, k) && UnitWf(p, k);
    NamesNoDup(p.units[k]);
    n := StmtsSim(c, fuel, body, |body|, EMPTY, None, false, st, s);
    var out := Ev.EvalStmts(h, fuel, st, body, |body|, EMPTY);
    if out.Val? {
      Onward(c, fuel, s, n, out, SizeStmts(body, |body|, EMPTY, SiteOf(p, k, None)), None);
      LeaveSound(c, out.st, Later(c, s, n));
      IterateAdd(c.next, s, n, 1);
      n := n + 1;
    } else if out.Done? {
      LeaveSound(c, out.st, Later(c, s, n));
      IterateAdd(c.next, s, n, 1);
      n := n + 1;
    }
  }

  /** Whenever the machine halts, it halts as the evaluator with enough fuel says. */
  lemma HaltsAsEvaluated(p: Program, h: Host, fuel: nat, k: nat, self: Value, world: World, n: nat)
    requires Sound(p) && k < |p.units| && p.units[k].MainSource?
    requires Halted(p.sets, Run(p.sets, h, Initial(k, self, world), n)) && fuel > n
    ensures
      var out := Ev.EvalProgram(h, fuel, self, world, p.units[k].body);
      !out.Timeout? && Matches(p, h, fuel, k, n, Run(p.sets, h, Initial(k, self, world), n), out)
  {
    hide Exec, Step, Decode, Agree, Sound, Ev.EvalStmts;
    var s := Initial(k, self, world);
    var m := ProgramRuns(p, h, fuel, k, self, world);
    if m <= n {
      if Halted(p.sets, Run(p.sets, h, s, m)) { HaltedStays(p.sets, h, s, m, n); }
    } else {
      HaltedStays(p.sets, h, s, n, m);
    }
  }

  /** The evaluator never leaves what is modelled, however long it runs. */
  ghost predicate WithinModel(h: Host, self: Value, world: World, body: seq<Stmt>) {
    forall fuel: nat :: !Ev.EvalProgram(h, fuel, self, world, body).Undefined?
  }

  /** The machine runs forever exactly when no fuel is enough for the evaluator. */
  lemma Divergence(p: Program, h: Host, k: nat, self: Value, world: World)
    requires Sound(p) && k < |p.units| && p.units[k].MainSource? && WithinModel(h, self, world, p.units[k].body)
    ensures (forall fuel: nat :: Ev.EvalProgram(h, fuel, self, world, p.units[k].body).Timeout?)
       <==> (forall n: nat :: !Halted(p.sets, Run(p.sets, h, Initial(k, self, world), n)))
  {
    hide Exec, Step, Decode, Agree, Sound, Ev.EvalStmts;
    var s := Initial(k, self, world);
    var body := p.units[k].body;
    if forall fuel: nat :: Ev.EvalProgram(h, fuel, self, world, body).Timeout? {
      forall n: nat ensures !Halted(p.sets, Run(p.sets, h, s, n)) {
        if Halted(p.sets, Run(p.sets, h, s, n)) {
          HaltsAsEvaluated(p, h, n + 1, k, self, world, n);
        }
      }
    } else {
      var fuel: nat :| !Ev.EvalProgram(h, fuel, self, world, body).Timeout?;
      assert !Ev.EvalProgram(h, fuel, self, world, body).Undefined?;
      var n := ProgramRuns(p, h, fuel, k, self, world);
      assert Halted(p.sets, Run(p.sets, h, s, n));
    }
  }

  /** No run of a compiled program underflows the stack, reads a bad operand or jumps astray. */
  lemma NeverStuck(p: Program, h: Host, k: nat, self: Value, world: World, n: nat)
    requires Sound(p) && k < |p.units| && p.units[k].MainSource? && WithinModel(h, self, world, p.units[k].body)
    ensures Run(p.sets, h, Initial(k, self, world), n).status != Stuck
  {
    hide Exec, Step, Decode, Agree, Sound, Ev.EvalStmts;
    var s := Initial(k, self, world);
    if Run(p.sets, h, s, n).status == Stuck {
      HaltsAsEvaluated(p, h, n + 1, k, self, world, n);
    }
  }
}
