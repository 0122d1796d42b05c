/**
 Call frames and their stack (vm/call_frame.go).  A frame runs an instruction
 set; a block's frame has the frame its text stands in as environment, and the
 frame made where the block was passed as blockFrame, which is marked when a
 break ends the block.
 */
module CallFrames {
  import opened Wrappers
  import opened Binding
  import opened Machine

  class CallFrame {
    const isBlock: bool
    const blockFrame: CallFrame?
    const ep: CallFrame?
    const unit: nat              // the instruction set
    const self: Value
    ghost const level: nat       // environments have lower levels
    var locals: Slots<Value>
    var pc: nat
    var isRemoved: bool

    constructor (isBlock: bool, blockFrame: CallFrame?, ep: CallFrame?, unit: nat, self: Value, locals: Slots<Value>)
      ensures this.isBlock == isBlock && this.blockFrame == blockFrame && this.ep == ep && this.unit == unit
      ensures this.self == self
      ensures this.locals == locals && pc == 0 && !isRemoved
      ensures level == if ep == null then 0 else ep.level + 1
    {
      this.isBlock, this.blockFrame, this.ep, this.unit, this.self, this.locals := isBlock, blockFrame, ep, unit, self,
        locals;
      pc, isRemoved := 0, false;
      level := if ep == null then 0 else ep.level + 1;
    }

    method StopExecution(instructionsCount: nat)
      modifies `pc
      ensures pc == instructionsCount
    {
      pc := instructionsCount;
    }

    method SetAsRemoved()
      modifies this, blockFrame
      ensures isRemoved && (isBlock && blockFrame != null ==> blockFrame.isRemoved)
      ensures pc == old(pc) && locals == old(locals)
      ensures blockFrame != null ==> blockFrame.pc == old(blockFrame.pc) && blockFrame.locals == old(blockFrame.locals)
      ensures !isBlock && blockFrame != null && blockFrame != this ==> blockFrame.isRemoved == old(blockFrame.isRemoved)
    {
      isRemoved := true;
      if isBlock && blockFrame != null {
        blockFrame.isRemoved := true;
      }
    }
  }

  /** The frame made where a block is passed.  It never runs itself: each run of the block has
      a frame of its own, with this one as blockFrame. */
  ghost predicate Template(f: CallFrame) {
    f.isBlock && f.blockFrame == null
  }

  ghost predicate Wired(all: set<CallFrame>, f: CallFrame) {
    && (f.ep != null ==> f.ep in all && f.ep.level < f.level)
    && (f.blockFrame != null ==> f.blockFrame in all && Template(f.blockFrame))
    && (if f.isBlock then f.ep != null && (f.blockFrame != null ==> f.blockFrame.ep == f.ep) else f.ep == null)
  }

  ghost predicate Closed(all: set<CallFrame>) {
    forall f {:trigger Wired(all, f)} {:trigger f in all} :: f in all ==> Wired(all, f)
  }

  /** No block's text stands in the frame. */
  ghost predicate Unborrowed(all: set<CallFrame>, d: CallFrame) {
    forall g :: g in all ==> g.ep != d
  }

  lemma ClosedMore(all: set<CallFrame>, cf: CallFrame)
    requires Closed(all) && Wired(all, cf)
    ensures Closed(all + {cf})
  {
    forall f | f in all + {cf} ensures Wired(all + {cf}, f) {
      assert Wired(all, f);
    }
  }

  lemma UnborrowedMore(all: set<CallFrame>, cf: CallFrame, d: CallFrame)
    requires Closed(all) && Unborrowed(all, d) && Wired(all, cf) && (cf.ep != d || cf.blockFrame != null)
    ensures Unborrowed(all + {cf}, d)
  {
  }

  class CallFrameStack {
    var callFrames: seq<CallFrame?>
    var pointer: nat

    ghost predicate Valid()
      reads this
    {
      pointer <= |callFrames| && forall i :: 0 <= i < pointer ==> callFrames[i] != null
    }

    ghost function Contents(): seq<CallFrame?>
      requires Valid()
      reads this
    {
      callFrames[..pointer]
    }

    constructor ()
      ensures Valid() && Contents() == []
    {
      callFrames, pointer := [], 0;
    }

    method Push(cf: CallFrame)
      requires Valid()
      modifies this
      ensures Valid() && Contents() == old(Contents()) + [cf]
    {
      if |callFrames| <= pointer {
        callFrames := callFrames + [cf];
      } else {
        callFrames := callFrames[pointer := cf];
      }
      pointer := pointer + 1;
    }

    method Pop() returns (cf: CallFrame)
      requires Valid() && pointer > 0
      modifies this
      ensures Valid() && Contents() == old(Contents())[..old(pointer) - 1] && cf == old(Contents())[old(pointer) - 1]
    {
      pointer := pointer - 1;
      cf := callFrames[pointer];
      if pointer > 0 {
        callFrames := callFrames[pointer := null];
      }
    }
  }

  // ---------------------------------------------------------- environments

  /** The frame `depth` environments up. */
  function Up(cf: CallFrame, depth: nat): CallFrame?
    decreases depth
  {
    if depth == 0 then cf else if cf.ep == null then null else Up(cf.ep, depth - 1)
  }

  /** The locals of all frames. */
  ghost function LocalsOf(all: set<CallFrame>): map<CallFrame, Slots<Value>>
    reads all`locals
  {
    map f | f in all :: f.locals
  }

  /** A frame as the machine has it, with `below` the number of its environments. */
  ghost function FrameOf(cf: CallFrame, locals: Slots<Value>, below: nat): Frame {
    Frame(cf.unit, locals, cf.self, if below == 0 then None else Some(below - 1),
          if cf.blockFrame == null then None else Some(BlockRef(cf.blockFrame.unit, 0)), 0, 0)
  }

  /** A frame with its environments, outermost first: what the machine's frame list is to it. */
  ghost function Chain(all: set<CallFrame>, vars: map<CallFrame, Slots<Value>>, cf: CallFrame): (r: seq<Frame>)
    requires Closed(all) && cf in all && vars.Keys == all
    ensures |r| > 0
    ensures
      var f := r[|r| - 1];
      && f.unit == cf.unit && f.self == cf.self && f.locals == vars[cf]
      && (f.block.Some? <==> cf.blockFrame != null) && (f.ep.Some? <==> cf.ep != null)
    decreases cf.level
  {
    assert Wired(all, cf);
    var below := if cf.ep == null then [] else Chain(all, vars, cf.ep);
    below + [FrameOf(cf, vars[cf], |below|)]
  }

  /** Going up the environments is climbing the list. */
  lemma {:induction false} ChainClimb(all: set<CallFrame>, vars: map<CallFrame, Slots<Value>>, cf: CallFrame,
                                      frames: seq<Frame>, depth: nat)
    requires Closed(all) && cf in all && vars.Keys == all && Chain(all, vars, cf) <= frames
    ensures
      var lcf, at := Up(cf, depth), Climb(frames, |Chain(all, vars, cf)| - 1, depth);
      if lcf == null then at == None
      else lcf in all && lcf.level <= cf.level && Chain(all, vars, lcf) <= Chain(all, vars, cf)
             && at == Some(|Chain(all, vars, lcf)| - 1)
    decreases depth
  {
    assert Wired(all, cf);
    var c := Chain(all, vars, cf);
    assert frames[|c| - 1] == c[|c| - 1];
    if depth > 0 && cf.ep != null {
      assert Chain(all, vars, cf.ep) <= frames;
      ChainClimb(all, vars, cf.ep, frames, depth - 1);
    }
  }

  lemma NoFrame(all: set<CallFrame>, vars: map<CallFrame, Slots<Value>>, cf: CallFrame, depth: nat)
    requires Closed(all) && cf in all && vars.Keys == all && Up(cf, depth) == null
    ensures Climb(Chain(all, vars, cf), |Chain(all, vars, cf)| - 1, depth) == None
  {
    ChainClimb(all, vars, cf, Chain(all, vars, cf), depth);
  }

  /** The list of a frame does not change with locals of another at its level or above. */
  lemma {:induction false} ChainSame(all: set<CallFrame>, vars: map<CallFrame, Slots<Value>>, cf: CallFrame,
                                     x: CallFrame, l: Slots<Value>)
    requires Closed(all) && cf in all && x in all && vars.Keys == all && cf != x && cf.level <= x.level
    ensures Chain(all, vars[x := l], cf) == Chain(all, vars, cf)
    decreases cf.level
  {
    assert Wired(all, cf);
    if cf.ep != null { ChainSame(all, vars, cf.ep, x, l); }
  }

  /** Nor with more frames. */
  lemma {:induction false} ChainMore(all: set<CallFrame>, vars: map<CallFrame, Slots<Value>>,
                                     more: set<CallFrame>, vars': map<CallFrame, Slots<Value>>, cf: CallFrame)
    requires Closed(all) && cf in all && vars.Keys == all && Closed(more) && all <= more && vars'.Keys == more
    requires forall f :: f in all ==> vars'[f] == vars[f]
    ensures Chain(more, vars', cf) == Chain(all, vars, cf)
    decreases cf.level
  {
    assert Wired(all, cf);
    if cf.ep != null { ChainMore(all, vars, more, vars', cf.ep); }
  }

  lemma InClosed(all: set<CallFrame>, f: CallFrame)
    requires Closed(all) && f in all
    ensures Wired(all, f)
  {
  }

  /** The entries of the environments stand in front of the frame's own. */
  lemma ChainForm(all: set<CallFrame>, vars: map<CallFrame, Slots<Value>>, cf: CallFrame)
    requires Closed(all) && cf in all && vars.Keys == all
    ensures Wired(all, cf)
    ensures
      var below := if cf.ep == null then [] else Chain(all, vars, cf.ep);
      Chain(all, vars, cf) == below + [FrameOf(cf, vars[cf], |below|)]
  {
    hide FrameOf;
    InClosed(all, cf);
  }

  ghost predicate SetAt(before: seq<Frame>, after: seq<Frame>, j: nat, l: Slots<Value>) {
    j < |before| && after == before[j := before[j].(locals := l)]
  }

  lemma SetHere(all: set<CallFrame>, vars: map<CallFrame, Slots<Value>>, cf: CallFrame, l: Slots<Value>)
    requires Closed(all) && cf in all && vars.Keys == all
    ensures SetAt(Chain(all, vars, cf), Chain(all, vars[cf := l], cf), |Chain(all, vars, cf)| - 1, l)
  {
    hide Closed, Chain;
    ChainForm(all, vars, cf);
    ChainForm(all, vars[cf := l], cf);
    if cf.ep != null { ChainSame(all, vars, cf.ep, cf, l); }
  }

  lemma SetAbove(all: set<CallFrame>, vars: map<CallFrame, Slots<Value>>, cf: CallFrame, x: CallFrame, l: Slots<Value>,
                 j: nat)
    requires Closed(all) && cf in all && x in all && vars.Keys == all && Wired(all, cf) && cf.ep != null && cf != x
    requires SetAt(Chain(all, vars, cf.ep), Chain(all, vars[x := l], cf.ep), j, l)
    ensures SetAt(Chain(all, vars, cf), Chain(all, vars[x := l], cf), j, l)
  {
    hide Closed, Chain, FrameOf;
    ChainForm(all, vars, cf);
    ChainForm(all, vars[x := l], cf);
    var below := Chain(all, vars, cf.ep);
    var f := FrameOf(cf, vars[cf], |below|);
    assert (below + [f])[j := below[j].(locals := l)] == below[j := below[j].(locals := l)] + [f];
  }

  /** Setting the locals of one environment changes that entry of the list. */
  lemma {:induction false} ChainSet(all: set<CallFrame>, vars: map<CallFrame, Slots<Value>>, cf: CallFrame,
                                    x: CallFrame, l: Slots<Value>, depth: nat)
    requires Closed(all) && cf in all && vars.Keys == all && Up(cf, depth) == x
    ensures x in all && x.level <= cf.level
    ensures SetAt(Chain(all, vars, cf), Chain(all, vars[x := l], cf), |Chain(all, vars, x)| - 1, l)
    decreases depth
  {
    hide Closed, Chain, SetAt, FrameOf;
    InClosed(all, cf);
    if depth == 0 {
      SetHere(all, vars, cf, l);
    } else {
      ChainSet(all, vars, cf.ep, x, l, depth - 1);
      SetAbove(all, vars, cf, x, l, |Chain(all, vars, x)| - 1);
    }
  }

  /** insertLocal's frame: the one the address leads to, or, if the slot is missing there, the running one. */
  ghost function Stored(vars: map<CallFrame, Slots<Value>>, cf: CallFrame, lcf: CallFrame, index: nat): CallFrame
    requires lcf in vars.Keys
  {
    if Slot(vars[lcf], index).Some? then lcf else cf
  }

  /** insertLocal on frames is Insert on the list. */
  lemma InsertChain(all: set<CallFrame>, vars: map<CallFrame, Slots<Value>>, cf: CallFrame, index: nat, depth: nat,
                    v: Value)
    requires Closed(all) && cf in all && vars.Keys == all
    ensures Up(cf, depth) != null ==> Up(cf, depth) in all
    ensures
      var lcf, r := Up(cf, depth), Insert(Chain(all, vars, cf), index, depth, v);
      if lcf == null then r == None
      else
        var x := Stored(vars, cf, lcf, index);
        r == Some(Chain(all, vars[x := Fill(vars[x], index, v)], cf))
  {
    hide Closed, Chain, Slot, Fill, Climb;
    var c, lcf := Chain(all, vars, cf), Up(cf, depth);
    ChainClimb(all, vars, cf, c, depth);
    if lcf != null {
      var x := Stored(vars, cf, lcf, index);
      var l := Fill(vars[x], index, v);
      var d := Chain(all, vars, lcf);
      assert c[|d| - 1] == d[|d| - 1];
      if x == lcf { ChainSet(all, vars, cf, lcf, l, depth); } else { ChainSet(all, vars, cf, cf, l, 0); }
    }
  }

  /** An environment is borrowed. */
  lemma {:induction false} UpBorrowed(all: set<CallFrame>, cf: CallFrame, depth: nat)
    requires Closed(all) && cf in all && depth > 0 && Up(cf, depth) != null
    ensures !Unborrowed(all, Up(cf, depth))
    decreases depth
  {
    InClosed(all, cf);
    if depth > 1 { UpBorrowed(all, cf.ep, depth - 1); }
  }
}
