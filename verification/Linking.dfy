/**
 How a generator state relates to the program that comes out in the end: what
 has been appended stays, slots that wait for an anchor get its line, and a
 complete set gets no more code.
 */
module Linking {
  import opened Wrappers
  import opened Ast
  import opened Layout
  import opened Bytecode
  import opened Emission

  /** The finished program, and the lines of all anchors. */
  datatype Final = Final(p: Program, lines: seq<nat>)

  // ------------------------------------------------------------------ growth

  ghost predicate RefOk(g: Gen, r: AnchorRef) {
    r.unit < |g.sets| && r.index < |g.sets[r.unit].code| && r.anchor < |g.lines|
  }

  /** Two references to one slot. */
  ghost predicate Clash(r: AnchorRef, s: AnchorRef) {
    r.unit == s.unit && r.index == s.index
  }

  ghost predicate Consistent(g: Gen) {
    && |g.origins| == |g.sets|
    && (forall r, s {:trigger Clash(r, s)} :: r in g.refs && s in g.refs && Clash(r, s) ==> r == s)
    && (forall r {:trigger RefOk(g, r)} :: r in g.refs ==> RefOk(g, r))
    && forall u :: u in g.finished ==> u < |g.sets|
  }

  /** Set k is being written. */
  ghost predicate Open(g: Gen, k: nat) {
    Consistent(g) && k < |g.sets| && k !in g.finished
  }

  /** Sets up to now keep their code, except that set k may get more. */
  ghost predicate SetGrown(g: Gen, h: Gen, k: nat, j: nat)
    requires j < |g.sets| <= |h.sets|
  {
    if j == k then g.sets[j].code <= h.sets[j].code && g.sets[j].consts <= h.sets[j].consts
    else h.sets[j] == g.sets[j]
  }

  /** A slot that did not exist in g. */
  ghost predicate NewRef(g: Gen, k: nat, r: AnchorRef) {
    r.unit >= |g.sets| || (r.unit == k && r.index >= |g.sets[k].code|)
  }

  ghost predicate Grown(g: Gen, h: Gen, k: nat) {
    && |g.sets| <= |h.sets|
    && (forall j {:trigger SetGrown(g, h, k, j)} :: 0 <= j < |g.sets| ==> SetGrown(g, h, k, j))
    && g.origins <= h.origins
    && g.lines <= h.lines
    && g.refs <= h.refs
    && (forall r {:trigger NewRef(g, k, r)} :: r in h.refs ==> r in g.refs || NewRef(g, k, r))
    && g.finished <= h.finished
    && forall u {:trigger u in h.finished} :: u in h.finished ==> u in g.finished || u >= |g.sets|
  }

  lemma GrownTrans(f: Gen, g: Gen, h: Gen, k: nat)
    requires Grown(f, g, k) && Grown(g, h, k)
    ensures Grown(f, h, k)
  {
    forall j | 0 <= j < |f.sets| ensures SetGrown(f, h, k, j) {
      assert SetGrown(f, g, k, j) && SetGrown(g, h, k, j);
    }
    forall r | r in h.refs ensures r in f.refs || NewRef(f, k, r) {
      assert r in g.refs || NewRef(g, k, r);
      assert r in g.refs ==> r in f.refs || NewRef(f, k, r);
      if k < |f.sets| { assert SetGrown(f, g, k, k); }
    }
  }

  lemma StaysOpen(g: Gen, h: Gen, k: nat)
    requires Open(g, k) && Grown(g, h, k) && Consistent(h)
    ensures Open(h, k) && g.sets[k].code <= h.sets[k].code && h.origins[k] == g.origins[k]
  {
    assert SetGrown(g, h, k, k);
  }

  // ---------------------------------------------------- the final program

  ghost predicate Waiting(g: Gen, k: nat, i: nat) {
    exists a :: AnchorRef(a, k, i) in g.refs
  }

  function LoopIn(lines: seq<nat>, loop: Option<Anchors>): Option<Loop> {
    if loop.Some? then Some(Loop(LineOf(lines, loop.value.exit), LineOf(lines, loop.value.next))) else None
  }

  function LineOf(lines: seq<nat>, a: nat): nat {
    if a < |lines| then lines[a] else 0
  }

  function SourceOf(o: Origin, lines: seq<nat>): Source {
    match o
    case FromMain(body) => MainSource(body)
    case FromMethod(params, body) => MethodSource(params, body)
    case FromBlock(names, body, outer, loop) => BlockSource(names, body, outer, LoopIn(lines, loop))
  }

  ghost predicate SetIs(f: Final, g: Gen, k: nat)
    requires k < |g.sets| <= |f.p.sets|
  {
    && |g.sets[k].code| <= |f.p.sets[k].code|
    && g.sets[k].consts <= f.p.sets[k].consts
    && (forall i: nat {:trigger f.p.sets[k].code[i]} :: i < |g.sets[k].code| ==>
          Waiting(g, k, i) || f.p.sets[k].code[i] == g.sets[k].code[i])
    && (k in g.finished ==> |f.p.sets[k].code| == |g.sets[k].code| && f.p.sets[k].params == g.sets[k].params)
  }

  ghost predicate RefIs(f: Final, r: AnchorRef) {
    && r.unit < |f.p.sets| && r.index < |f.p.sets[r.unit].code|
    && f.p.sets[r.unit].code[r.index] == LineOf(f.lines, r.anchor)
  }

  ghost predicate LineIs(f: Final, g: Gen, a: nat)
    requires a < |g.lines|
  {
    g.lines[a].Some? ==> LineOf(f.lines, a) == g.lines[a].value
  }

  ghost predicate OriginIs(f: Final, g: Gen, u: nat)
    requires u < |g.origins| <= |f.p.units|
  {
    f.p.units[u] == SourceOf(g.origins[u], f.lines)
  }

  /** The final program has everything g has. */
  ghost predicate Extends(f: Final, g: Gen) {
    && |g.sets| <= |f.p.sets| && |g.origins| <= |f.p.units|
    && (forall a {:trigger LineIs(f, g, a)} :: 0 <= a < |g.lines| ==> LineIs(f, g, a))
    && (forall u {:trigger OriginIs(f, g, u)} :: 0 <= u < |g.origins| ==> OriginIs(f, g, u))
    && (forall k {:trigger SetIs(f, g, k)} :: 0 <= k < |g.sets| ==> SetIs(f, g, k))
    && (forall r {:trigger RefIs(f, r)} :: r in g.refs ==> RefIs(f, r))
  }

  /** What extends a later state extends an earlier one. */
  lemma ExtendsBefore(f: Final, g: Gen, h: Gen, k: nat)
    requires Open(g, k) && Consistent(h) && Grown(g, h, k) && Extends(f, h)
    ensures Extends(f, g)
  {
    forall a | 0 <= a < |g.lines| ensures LineIs(f, g, a) { assert LineIs(f, h, a); }
    forall u | 0 <= u < |g.origins| ensures OriginIs(f, g, u) { assert OriginIs(f, h, u); }
    forall j | 0 <= j < |g.sets| ensures SetIs(f, g, j) {
      assert SetIs(f, h, j) && SetGrown(g, h, k, j);
      forall i: nat | i < |g.sets[j].code| && Waiting(h, j, i) ensures Waiting(g, j, i) {
        var a :| AnchorRef(a, j, i) in h.refs;
        assert AnchorRef(a, j, i) in g.refs || NewRef(g, k, AnchorRef(a, j, i));
      }
    }
    forall r | r in g.refs ensures RefIs(f, r) { assert r in h.refs; assert RefIs(f, r); }
  }

  /** An anchor gets its line once. */
  lemma ExtendsUndefined(f: Final, g: Gen, a: nat, line: nat)
    requires a < |g.lines| && g.lines[a].None? && Extends(f, DefineAnchor(g, a, line))
    ensures Extends(f, g) && LineOf(f.lines, a) == line
  {
    var h := DefineAnchor(g, a, line);
    assert LineIs(f, h, a);
    forall b | 0 <= b < |g.lines| ensures LineIs(f, g, b) { assert LineIs(f, h, b); }
    forall u | 0 <= u < |g.origins| ensures OriginIs(f, g, u) { assert OriginIs(f, h, u); }
    forall j | 0 <= j < |g.sets| ensures SetIs(f, g, j) {
      assert SetIs(f, h, j);
      forall i: nat | i < |g.sets[j].code| && Waiting(h, j, i) ensures Waiting(g, j, i) { }
    }
  }

  // ------------------------------------------------------- what was appended

  ghost predicate Appended(g: Gen, h: Gen, k: nat, size: nat) {
    && Consistent(h) && Grown(g, h, k)
    && k < |g.sets| && |h.sets[k].code| == |g.sets[k].code| + size
  }

  /** One piece of code behind another. */
  lemma Then(f: Final, e: Gen, g: Gen, h: Gen, k: nat, m: nat, n: nat)
    requires Open(e, k) && Appended(e, g, k, m) && Appended(g, h, k, n)
    ensures Appended(e, h, k, m + n) && Open(h, k) && Open(g, k) && IsBlockSet(h, k) == IsBlockSet(e, k)
    ensures Extends(f, h) ==> Extends(f, g)
    ensures Extends(f, g) ==> Extends(f, e)
  {
    hide Extends;
    StaysOpen(e, g, k);
    StaysOpen(g, h, k);
    GrownTrans(e, g, h, k);
    if Extends(f, h) { ExtendsBefore(f, g, h, k); }
    if Extends(f, g) { ExtendsBefore(f, e, g, k); }
  }

  lemma NewAnchorAppended(g: Gen, k: nat, line: Option<nat>)
    requires Open(g, k)
    ensures Appended(g, NewAnchor(g, line), k, 0)
  {
    var h := NewAnchor(g, line);
    forall j | 0 <= j < |g.sets| ensures SetGrown(g, h, k, j) { }
    forall r | r in h.refs ensures RefOk(h, r) { assert RefOk(g, r); }
  }

  /** An anchor made after e may be defined. */
  lemma AnchorDefined(f: Final, e: Gen, g: Gen, k: nat, size: nat, a: nat, line: nat)
    requires Open(e, k) && Appended(e, g, k, size) && |e.lines| <= a < |g.lines| && g.lines[a].None?
    ensures Appended(e, DefineAnchor(g, a, line), k, size) && Open(DefineAnchor(g, a, line), k)
    ensures Extends(f, DefineAnchor(g, a, line)) ==> Extends(f, g) && LineOf(f.lines, a) == line
  {
    var h := DefineAnchor(g, a, line);
    forall j | 0 <= j < |e.sets| ensures SetGrown(e, h, k, j) { assert SetGrown(e, g, k, j); }
    forall r | r in h.refs ensures RefOk(h, r) { assert RefOk(g, r); }
    forall r | r in h.refs ensures r in e.refs || NewRef(e, k, r) { assert r in e.refs || NewRef(e, k, r); }
    StaysOpen(e, h, k);
    if Extends(f, h) { ExtendsUndefined(f, g, a, line); }
  }

  // ------------------------------------------------------------ instructions

  ghost predicate SlotOk(ins: InstructionSet, at: nat, o: Operand, lines: seq<nat>)
    requires at < |ins.code|
  {
    match o
    case Num(n) => ins.code[at] == n
    case Item(c) => InPool(ins, at) && ins.consts[ins.code[at]] == c
    case Line(a) => ins.code[at] == LineOf(lines, a)
  }

  /** What define wrote stands at pc. */
  ghost predicate Encoded(ins: InstructionSet, pc: nat, op: int, os: seq<Operand>, lines: seq<nat>) {
    && pc + |os| < |ins.code|
    && ins.code[pc] == op
    && forall j {:trigger os[j]} :: 0 <= j < |os| ==> SlotOk(ins, pc + 1 + j, os[j], lines)
  }

  predicate NoLines(os: seq<Operand>) {
    forall j {:trigger os[j]} :: 0 <= j < |os| ==> !os[j].Line?
  }

  lemma {:induction false} OperandsWritten(ins: InstructionSet, os: seq<Operand>, n: nat)
    requires n <= |os| && NoLines(os)
    ensures
      var r := WithOperands(ins, os, n);
      && |r.code| == |ins.code| + n && ins.code <= r.code && ins.consts <= r.consts && r.params == ins.params
      && forall j {:trigger os[j]} :: 0 <= j < n ==> SlotOk(r, |ins.code| + j, os[j], [])
  {
    if n > 0 {
      OperandsWritten(ins, os, n - 1);
    }
  }

  lemma EmitAppended(g: Gen, k: nat, op: int, os: seq<Operand>)
    requires Open(g, k) && NoLines(os)
    ensures Appended(g, Emit(g, k, op, os), k, 1 + |os|) && Emit(g, k, op, os).lines == g.lines
    ensures Emit(g, k, op, os).sets[k].params == g.sets[k].params
    ensures |Emit(g, k, op, os).sets| == |g.sets|
  {
    hide WithOperands;
    var h := Emit(g, k, op, os);
    OperandsWritten(g.sets[k].(code := g.sets[k].code + [op]), os, |os|);
    forall j | 0 <= j < |g.sets| ensures SetGrown(g, h, k, j) { }
    forall r | r in h.refs ensures RefOk(h, r) { assert RefOk(g, r); }
  }

  /** Only existing slots wait. */
  lemma WaitingBound(g: Gen, k: nat, i: nat)
    requires Consistent(g) && k < |g.sets| && Waiting(g, k, i)
    ensures i < |g.sets[k].code|
  {
    var a :| AnchorRef(a, k, i) in g.refs;
    assert RefOk(g, AnchorRef(a, k, i));
  }

  lemma OneLine(ins: InstructionSet, op: int, a: nat)
    ensures Defined(ins, op, [Line(a)]) == ins.(code := ins.code + [op] + [0])
  {
    var start := ins.(code := ins.code + [op]);
    assert WithOperands(start, [Line(a)], 0) == start;
  }

  lemma EmitEncoded(f: Final, g: Gen, k: nat, op: int, os: seq<Operand>)
    requires Open(g, k) && NoLines(os) && Extends(f, Emit(g, k, op, os))
    ensures Encoded(f.p.sets[k], |g.sets[k].code|, op, os, f.lines)
  {
    hide WithOperands;
    var h := Emit(g, k, op, os);
    var pc := |g.sets[k].code|;
    OperandsWritten(g.sets[k].(code := g.sets[k].code + [op]), os, |os|);
    assert SetIs(f, h, k);
    forall i: nat | pc <= i < |h.sets[k].code| ensures f.p.sets[k].code[i] == h.sets[k].code[i] {
      if Waiting(h, k, i) { WaitingBound(g, k, i); }
    }
    forall j | 0 <= j < |os| ensures SlotOk(f.p.sets[k], pc + 1 + j, os[j], f.lines) {
      assert SlotOk(h.sets[k], pc + 1 + j, os[j], []);
      assert f.p.sets[k].code[pc + 1 + j] == h.sets[k].code[pc + 1 + j];
    }
  }

  lemma EmitToAppended(g: Gen, k: nat, op: int, a: nat)
    requires Open(g, k) && a < |g.lines|
    ensures Appended(g, EmitTo(g, k, op, a), k, 2) && EmitTo(g, k, op, a).lines == g.lines
    ensures |EmitTo(g, k, op, a).sets| == |g.sets| && EmitTo(g, k, op, a).sets[k].params == g.sets[k].params
  {
    var h := EmitTo(g, k, op, a);
    OneLine(g.sets[k], op, a);
    forall j | 0 <= j < |g.sets| ensures SetGrown(g, h, k, j) { }
    forall r | r in h.refs ensures RefOk(h, r) { if r in g.refs { assert RefOk(g, r); } }
    forall r, s | r in h.refs && s in h.refs && Clash(r, s) ensures r == s {
      assert r in g.refs ==> RefOk(g, r);
      assert s in g.refs ==> RefOk(g, s);
    }
  }

  lemma EmitToEncoded(f: Final, g: Gen, k: nat, op: int, a: nat)
    requires Open(g, k) && a < |g.lines| && Extends(f, EmitTo(g, k, op, a))
    ensures Encoded(f.p.sets[k], |g.sets[k].code|, op, [Line(a)], f.lines)
  {
    var h := EmitTo(g, k, op, a);
    var pc := |g.sets[k].code|;
    OneLine(g.sets[k], op, a);
    assert SetIs(f, h, k);
    assert AnchorRef(a, k, pc + 1) in h.refs;
    assert RefIs(f, AnchorRef(a, k, pc + 1));
    if Waiting(h, k, pc) {
      var b :| AnchorRef(b, k, pc) in h.refs;
      assert AnchorRef(b, k, pc) in g.refs;
      WaitingBound(g, k, pc);
    }
    assert f.p.sets[k].code[pc] == h.sets[k].code[pc];
  }

  // ----------------------------------------------- what an instruction means

  function PlainMeaning(op: int): Instr {
    if op == PUT_TRUE then IPutBool(true)
    else if op == PUT_FALSE then IPutBool(false)
    else if op == PUT_SELF then IPutSelf
    else if op == PUT_NULL then IPutNull
    else if op == HAS_BLOCK then IHasBlock
    else if op == BREAK then IBreak
    else if op == POP then IPop
    else if op == DUP then IDup
    else if op == LEAVE then ILeave
    else IMalformed
  }

  function MeaningOf1(op: int, o: Operand, lines: seq<nat>): Instr {
    match o
    case Num(n) =>
      if op == PUT_INT then IPutInt(n)
      else if op == NEW_ARRAY then INewArray(n)
      else if op == EXPAND_ARRAY then IExpandArray(n)
      else if op == INVOKE_BLOCK then IInvokeBlock(n)
      else IMalformed
    case Item(c) =>
      if op == PUT_STRING && c.StrConst? then IPutString(c.s)
      else if op == BINARY_OPERATOR && c.NameConst? then IBinary(c.x)
      else if IsArithmetic(op) && c.NameConst? then IArith(op, c.x)
      else IMalformed
    case Line(a) =>
      if op == JUMP then IJump(LineOf(lines, a))
      else if op == BRANCH_IF then IBranchIf(LineOf(lines, a))
      else if op == BRANCH_UNLESS then IBranchUnless(LineOf(lines, a))
      else IMalformed
  }

  function MeaningOf2(op: int, o: Operand, q: Operand): Instr {
    if op == DEFER && o.Num? && q.Item? then IDefer(o.n, ItemSet(q.c))
    else if !o.Num? || !q.Num? then IMalformed
    else if op == GET_LOCAL then IGetLocal(o.n, q.n)
    else if op == SET_LOCAL then ISetLocal(o.n, q.n)
    else if op == SET_OPTIONAL then ISetOptional(o.n, q.n)
    else IMalformed
  }

  function ItemSet(c: Const): Option<nat> {
    if c.SetConst? then Some(c.id) else None
  }

  function ItemArgs(c: Const): Option<ArgSet> {
    if c.ArgsConst? then Some(c.args) else None
  }

  /** The instruction that define writes. */
  function Meaning(op: int, os: seq<Operand>, lines: seq<nat>): Instr {
    if |os| == 0 then PlainMeaning(op)
    else if |os| == 1 then MeaningOf1(op, os[0], lines)
    else if |os| == 2 then MeaningOf2(op, os[0], os[1])
    else if |os| == 3 && op == DEF_METHOD && os[0].Num? && os[1].Item? && os[1].c.NameConst? && os[2].Item? then
      IDefMethod(os[0].n, os[1].c.x, ItemSet(os[2].c))
    else if |os| == 4 && op == SEND && os[0].Item? && os[0].c.NameConst? && os[1].Num? && os[2].Item?
      && os[3].Item? then
      ISend(os[0].c.x, os[1].n, ItemSet(os[2].c), ItemArgs(os[3].c))
    else IMalformed
  }

  lemma MeaningDecoded(ins: InstructionSet, pc: nat, op: int, os: seq<Operand>, lines: seq<nat>)
    requires Encoded(ins, pc, op, os, lines) && !Meaning(op, os, lines).IMalformed?
    ensures Decode(ins, pc) == Meaning(op, os, lines)
  {
    if |os| == 1 {
      assert SlotOk(ins, pc + 1, os[0], lines);
    } else if |os| == 2 {
      assert SlotOk(ins, pc + 1, os[0], lines) && SlotOk(ins, pc + 2, os[1], lines);
    } else if |os| == 3 {
      assert SlotOk(ins, pc + 1, os[0], lines) && SlotOk(ins, pc + 2, os[1], lines)
          && SlotOk(ins, pc + 3, os[2], lines);
    } else if |os| == 4 {
      assert SlotOk(ins, pc + 1, os[0], lines) && SlotOk(ins, pc + 2, os[1], lines);
      assert SlotOk(ins, pc + 3, os[2], lines) && SlotOk(ins, pc + 4, os[3], lines);
    }
  }

  /** One instruction, from the generator to the decoded program. */
  lemma Emitted(f: Final, g: Gen, k: nat, op: int, os: seq<Operand>)
    requires Open(g, k) && NoLines(os) && !Meaning(op, os, f.lines).IMalformed?
    ensures Appended(g, Emit(g, k, op, os), k, 1 + |os|)
    ensures Emit(g, k, op, os).lines == g.lines && |Emit(g, k, op, os).sets| == |g.sets|
    ensures Emit(g, k, op, os).sets[k].params == g.sets[k].params
    ensures Extends(f, Emit(g, k, op, os)) ==> At(f.p, k, |g.sets[k].code|, Meaning(op, os, f.lines))
  {
    hide Decode, Meaning, Consistent, Appended, Emit;
    EmitAppended(g, k, op, os);
    if Extends(f, Emit(g, k, op, os)) {
      EmitEncoded(f, g, k, op, os);
      MeaningDecoded(f.p.sets[k], |g.sets[k].code|, op, os, f.lines);
    }
  }

  lemma EmittedTo(f: Final, g: Gen, k: nat, op: int, a: nat)
    requires Open(g, k) && a < |g.lines| && (op == JUMP || op == BRANCH_IF || op == BRANCH_UNLESS)
    ensures Appended(g, EmitTo(g, k, op, a), k, 2)
    ensures EmitTo(g, k, op, a).lines == g.lines && |EmitTo(g, k, op, a).sets| == |g.sets|
    ensures EmitTo(g, k, op, a).sets[k].params == g.sets[k].params
    ensures Extends(f, EmitTo(g, k, op, a)) ==> At(f.p, k, |g.sets[k].code|, MeaningOf1(op, Line(a), f.lines))
  {
    hide Decode, Consistent, Appended, EmitTo;
    EmitToAppended(g, k, op, a);
    if Extends(f, EmitTo(g, k, op, a)) {
      EmitToEncoded(f, g, k, op, a);
      MeaningDecoded(f.p.sets[k], |g.sets[k].code|, op, [Line(a)], f.lines);
    }
  }
}
