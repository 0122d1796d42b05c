/**
 What happens while frames run, and what stays as it was: which frames are
 entered, which blocks builtins run, which frames a break ends; and what no code
 touches that runs in between.
 */
module Events {
  import opened Wrappers
  import opened Binding
  import opened Machine
  import opened CallFrames

  /** A frame that was entered, and its locals at that time. */
  datatype Entered = Entered(frame: CallFrame, args: Slots<Value>)

  /** What a turn has called: a frame, by the number of its run, or a builtin, with the runs of
      blocks by builtins from one number up to another; and the block that was passed. */
  datatype Callee =
    | NoCallee
    | FrameRun(run: nat, block: CallFrame?)
    | BuiltinRun(first: nat, last: nat, block: CallFrame?)

  /** One turn of the loop over a frame's code: the states before and after it, what it has
      registered as deferred, what it has called, and the numbers of runs finished before and after it. */
  datatype Turn = Turn(before: State, after: State, deferred: Option<Entered>, callee: Callee, from: nat, to: nat)

  /** A finished frame: which entry it was, and the numbers of entries and of runs finished when it was left; its
      turns, the states at their start and end and the runs finished by then, and whether a break ended it; and
      what it left behind. */
  datatype Run = Run(entry: nat, until: nat, last: nat, turns: seq<Turn>, start: State, end: State, from: nat, to: nat,
                     broke: bool, value: Value, defs: map<MethodKey, nat>, world: World)

  /** A run of a block by a builtin: whether the block was marked in it, the value it left, and the
      runs finished in it, the last of which is the block's. */
  datatype Round = Round(block: CallFrame, x: Value, broke: bool, value: Value, first: nat, run: nat)

  /** What has happened so far: the frames entered, those finished, the runs of blocks by builtins, the
      frames ended by a break, and whether no code has reached below its frame's part of the stack. */
  datatype History = History(entered: seq<Entered>, runs: seq<Run>, rounds: seq<Round>, broken: set<CallFrame>,
                             tidy: bool)

  datatype FrameState = FrameState(pc: nat, isRemoved: bool, locals: Slots<Value>)

  /** All frames there are, with their states, and what has happened. */
  datatype Shot = Shot(past: History, frames: map<CallFrame, FrameState>)

  /** The entries that are finished. */
  ghost function Finished(runs: seq<Run>): set<nat> {
    set r | r in runs :: r.entry
  }

  /** Everything entered in between is finished, and nothing that was entered before has been finished. */
  ghost predicate Settled(before: History, after: History) {
    && before.runs <= after.runs
    && (forall k: nat {:trigger k in Finished(after.runs)} :: |before.entered| <= k < |after.entered| ==>
        k in Finished(after.runs))
    && (forall j {:trigger after.runs[j]} :: |before.runs| <= j < |after.runs| ==>
        after.runs[j].entry >= |before.entered|)
  }

  /** What can have happened between two states: frames that existed before have been entered
      only if they are in the one set, ended by a break or yielded to only if in the other. */
  ghost predicate Onward(all: set<CallFrame>, before: History, after: History, entered: set<CallFrame>,
                         mine: set<CallFrame>)
  {
    && before.entered <= after.entered && before.rounds <= after.rounds && before.broken <= after.broken
    && (after.tidy ==> before.tidy)
    && (forall j {:trigger after.entered[j]} :: |before.entered| <= j < |after.entered| ==>
        after.entered[j].frame !in all - entered)
    && (forall j {:trigger after.rounds[j]} :: |before.rounds| <= j < |after.rounds| ==>
        after.rounds[j].block !in all - mine)
    && (forall f :: f in after.broken && f !in before.broken ==> f !in all - mine)
  }

  /** Frames that have been made or set aside before, and do not run, stay as they are and get no blocks. */
  ghost predicate Untouched(before: map<CallFrame, FrameState>, after: map<CallFrame, FrameState>, mine: set<CallFrame>)
  {
    && before.Keys <= after.Keys
    && (forall f {:trigger after[f]} :: f in before && f !in mine && !Template(f) ==>
          after[f].pc == before[f].pc && after[f].isRemoved == before[f].isRemoved)
    && (forall f {:trigger Unborrowed(after.Keys, f)} {:trigger after[f]} ::
          f in before && f !in mine && Unborrowed(before.Keys, f) ==>
            after[f].locals == before[f].locals && Unborrowed(after.Keys, f))
  }

  ghost predicate Kept(a: Shot, b: Shot, entered: set<CallFrame>, mine: set<CallFrame>) {
    Onward(a.frames.Keys, a.past, b.past, entered, mine) && Settled(a.past, b.past)
      && Untouched(a.frames, b.frames, mine)
  }

  lemma SettledTwice(a: History, b: History, c: History)
    requires Settled(a, b) && Settled(b, c) && a.entered <= b.entered
    ensures Settled(a, c)
  {
    forall k: nat | |a.entered| <= k < |c.entered| ensures k in Finished(c.runs) {
      if k < |b.entered| {
        assert k in Finished(b.runs);
        var r :| r in b.runs && r.entry == k;
        assert r in c.runs;
      }
    }
    forall j | |a.runs| <= j < |c.runs| ensures c.runs[j].entry >= |a.entered| {
      if j < |b.runs| { assert c.runs[j] == b.runs[j]; }
    }
  }

  lemma OnwardTwice(all: set<CallFrame>, mid: set<CallFrame>, a: History, b: History, c: History,
                    entered: set<CallFrame>, mine: set<CallFrame>, entered': set<CallFrame>, mine': set<CallFrame>)
    requires all <= mid && Onward(all, a, b, entered, mine) && Onward(mid, b, c, entered', mine')
    requires all * entered' <= entered && all * mine' <= mine
    ensures Onward(all, a, c, entered, mine)
  {
    forall j | |a.entered| <= j < |c.entered| ensures c.entered[j].frame !in all - entered {
      if j < |b.entered| { assert c.entered[j] == b.entered[j]; }
    }
    forall j | |a.rounds| <= j < |c.rounds| ensures c.rounds[j].block !in all - mine {
      if j < |b.rounds| { assert c.rounds[j] == b.rounds[j]; }
    }
  }

  lemma UntouchedTwice(a: map<CallFrame, FrameState>, b: map<CallFrame, FrameState>, c: map<CallFrame, FrameState>,
                       mine: set<CallFrame>, mine': set<CallFrame>)
    requires Untouched(a, b, mine) && Untouched(b, c, mine') && a.Keys * mine' <= mine
    ensures Untouched(a, c, mine)
  {
    hide Unborrowed;
    forall f | f in a && f !in mine && !Template(f) ensures c[f].pc == a[f].pc && c[f].isRemoved == a[f].isRemoved {
      assert b[f].pc == a[f].pc;
    }
    forall f | f in a && f !in mine && Unborrowed(a.Keys, f)
      ensures c[f].locals == a[f].locals && Unborrowed(c.Keys, f)
    {
      assert b[f].locals == a[f].locals && Unborrowed(b.Keys, f);
    }
  }

  /** One stretch after the other. */
  lemma KeptTwice(a: Shot, b: Shot, c: Shot, entered: set<CallFrame>, mine: set<CallFrame>,
                  entered': set<CallFrame>, mine': set<CallFrame>, all: set<CallFrame>, ours: set<CallFrame>)
    requires Kept(a, b, entered, mine) && Kept(b, c, entered', mine')
    requires a.frames.Keys * (entered + entered') <= all && a.frames.Keys * (mine + mine') <= ours
    ensures Kept(a, c, all, ours)
  {
    hide Onward, Untouched, Settled;
    KeptWider(a, b, entered, mine, all, ours);
    assert a.frames.Keys <= b.frames.Keys && a.past.entered <= b.past.entered by { KeysKept(a, b, entered, mine); }
    SettledTwice(a.past, b.past, c.past);
    OnwardTwice(a.frames.Keys, b.frames.Keys, a.past, b.past, c.past, all, ours, entered', mine');
    UntouchedTwice(a.frames, b.frames, c.frames, ours, mine');
  }

  lemma KeptWider(a: Shot, b: Shot, entered: set<CallFrame>, mine: set<CallFrame>, all: set<CallFrame>,
                  ours: set<CallFrame>)
    requires Kept(a, b, entered, mine) && a.frames.Keys * entered <= all && a.frames.Keys * mine <= ours
    ensures Kept(a, b, all, ours)
  {
    hide Unborrowed;
  }

  lemma KeptTidy(a: Shot, b: Shot, entered: set<CallFrame>, mine: set<CallFrame>)
    requires Kept(a, b, entered, mine)
    ensures b.past.tidy ==> a.past.tidy
  {
  }

  /** A frame makes a frame for a block, and calls something. */
  lemma KeptCall(a: Shot, b: Shot, c: Shot, mine: set<CallFrame>, f: CallFrame)
    requires Kept(a, b, {}, {f}) && Kept(b, c, {}, mine) && f in a.frames && !Template(f) && a.frames.Keys !! mine
    ensures Kept(a, c, {}, {f}) && (c.past.tidy ==> a.past.tidy) && f in b.frames && f in c.frames
    ensures c.frames[f].pc == b.frames[f].pc && c.frames[f].isRemoved == b.frames[f].isRemoved
    ensures f in c.past.broken <==> f in b.past.broken
  {
    hide Kept;
    KeysKept(a, b, {}, {f});
    KeptFrame(b, c, {}, mine, f);
    KeptBroken(b, c, {}, mine, f);
    KeptTwice(a, b, c, {}, {f}, {}, mine, {}, {f});
    KeptTidy(a, c, {}, {f});
  }

  lemma KeptBroken(a: Shot, b: Shot, entered: set<CallFrame>, mine: set<CallFrame>, f: CallFrame)
    requires Kept(a, b, entered, mine) && f in a.frames && f !in mine
    ensures f in b.past.broken <==> f in a.past.broken
  {
    hide Untouched, Settled;
  }

  /** What is kept of the history. */
  lemma KeptPast(a: Shot, b: Shot, entered: set<CallFrame>, mine: set<CallFrame>)
    requires Kept(a, b, entered, mine)
    ensures Onward(a.frames.Keys, a.past, b.past, entered, mine) && a.frames.Keys <= b.frames.Keys
  {
  }

  lemma KeysKept(a: Shot, b: Shot, entered: set<CallFrame>, mine: set<CallFrame>)
    requires Kept(a, b, entered, mine)
    ensures a.frames.Keys <= b.frames.Keys && a.past.entered <= b.past.entered
  {
  }

  lemma KeptSame(a: Shot)
    ensures Kept(a, a, {}, {})
  {
  }

  /** A new frame is one more, in which nothing stands; the frame its block's text stands in gets
      a block by it, unless there has been a frame for that block. */
  lemma KeptMore(a: Shot, b: Shot, cf: CallFrame)
    requires Closed(a.frames.Keys) && Wired(a.frames.Keys, cf) && cf !in a.frames && b.past == a.past
    requires cf in b.frames && b.frames == a.frames[cf := b.frames[cf]]
    ensures Kept(a, b, {}, if cf.ep == null || cf.blockFrame != null then {} else {cf.ep})
    ensures Unborrowed(b.frames.Keys, cf)
  {
    hide Unborrowed;
    assert b.frames.Keys == a.frames.Keys + {cf};
    Unstarted(a.frames.Keys, cf);
    forall f | f in a.frames && Unborrowed(a.frames.Keys, f) && (f != cf.ep || cf.blockFrame != null)
      ensures Unborrowed(b.frames.Keys, f)
    {
      UnborrowedMore(a.frames.Keys, cf, f);
    }
  }

  /** A frame is entered, its code run, and its run put on record. */
  lemma KeptRun(a: Shot, b: Shot, c: Shot, d: Shot, cf: CallFrame, args: Slots<Value>, r: Run)
    requires cf in a.frames && b == Shot(a.past.(entered := a.past.entered + [Entered(cf, args)]), a.frames)
    requires Kept(b, c, {}, {cf})
    requires d == Shot(c.past.(runs := c.past.runs + [r]), c.frames) && r.entry == |a.past.entered|
    ensures Kept(a, d, {cf}, {cf})
  {
    hide Untouched;
    var n := |a.past.entered|;
    assert d.past.runs[|c.past.runs|] == r;
    forall k: nat | n <= k < |d.past.entered| ensures k in Finished(d.past.runs) {
      if k > n {
        assert k in Finished(c.past.runs);
        var r' :| r' in c.past.runs && r'.entry == k;
        assert r' in d.past.runs;
      }
    }
    forall j | |a.past.runs| <= j < |d.past.runs| ensures d.past.runs[j].entry >= n {
      if j < |c.past.runs| { assert d.past.runs[j] == c.past.runs[j]; }
    }
  }

  lemma Unstarted(all: set<CallFrame>, cf: CallFrame)
    requires Closed(all) && Wired(all, cf) && cf !in all
    ensures Unborrowed(all + {cf}, cf)
  {
    forall g | g in all + {cf} ensures g.ep != cf {
      if g != cf { assert Wired(all, g); }
    }
  }

  /** What is kept of one frame. */
  lemma KeptFrame(a: Shot, b: Shot, entered: set<CallFrame>, mine: set<CallFrame>, f: CallFrame)
    requires Kept(a, b, entered, mine) && f in a.frames && f !in mine && !Template(f)
    ensures f in b.frames && b.frames[f].pc == a.frames[f].pc && b.frames[f].isRemoved == a.frames[f].isRemoved
    ensures Unborrowed(a.frames.Keys, f) ==> b.frames[f].locals == a.frames[f].locals && Unborrowed(b.frames.Keys, f)
  {
  }

  /** A run of the block has ended in a break. */
  ghost predicate BrokenOff(b: CallFrame, broken: set<CallFrame>) {
    exists f :: f in broken && f.blockFrame == b
  }

  lemma NotBroken(all: set<CallFrame>, broken: set<CallFrame>, b: CallFrame)
    requires Closed(all) && broken <= all && b !in all
    ensures !BrokenOff(b, broken)
  {
    forall f | f in broken ensures f.blockFrame != b {
      assert Wired(all, f);
    }
  }

  lemma BrokenMore(b: CallFrame, broken: set<CallFrame>, cf: CallFrame)
    ensures BrokenOff(b, broken + {cf}) <==> BrokenOff(b, broken) || cf.blockFrame == b
  {
    if BrokenOff(b, broken) {
      var f :| f in broken && f.blockFrame == b;
      assert f in broken + {cf};
    }
    if cf.blockFrame == b { assert cf in broken + {cf}; }
  }

  /** The entries of these frames. */
  ghost function Only(es: seq<Entered>, fs: set<CallFrame>): seq<Entered> {
    if es == [] then [] else Only(es[..|es| - 1], fs) + (if es[|es| - 1].frame in fs then [es[|es| - 1]] else [])
  }

  /** The frame has been entered once, before everything that was entered since. */
  ghost predicate EnteredOnce(before: seq<Entered>, after: seq<Entered>, cf: CallFrame, args: Slots<Value>) {
    && before + [Entered(cf, args)] <= after
    && forall j {:trigger after[j]} :: |before| < j < |after| ==> after[j].frame != cf
  }

  /** The runs of this block. */
  ghost function RoundsOf(rs: seq<Round>, b: CallFrame): seq<Round> {
    if rs == [] then [] else RoundsOf(rs[..|rs| - 1], b) + (if rs[|rs| - 1].block == b then [rs[|rs| - 1]] else [])
  }

  ghost function Reversed(es: seq<Entered>): (r: seq<Entered>)
    ensures |r| == |es| && forall j :: 0 <= j < |es| ==> r[j] == es[|es| - 1 - j]
  {
    if es == [] then [] else Reversed(es[1..]) + [es[0]]
  }

  lemma NoneReversed(es: seq<Entered>)
    ensures Reversed(es[|es|..]) == []
  {
  }

  lemma FirstReversed(es: seq<Entered>, i: nat)
    requires i < |es|
    ensures Reversed(es[i..]) == Reversed(es[i + 1..]) + [es[i]]
  {
    assert es[i..][1..] == es[i + 1..];
  }

  lemma {:induction false} OnlyAppend(a: seq<Entered>, b: seq<Entered>, fs: set<CallFrame>)
    ensures Only(a + b, fs) == Only(a, fs) + Only(b, fs)
    decreases |b|
  {
    if b == [] {
      assert a + b == a;
    } else {
      assert (a + b)[..|a + b| - 1] == a + b[..|b| - 1];
      OnlyAppend(a, b[..|b| - 1], fs);
    }
  }

  lemma {:induction false} OnlyNone(es: seq<Entered>, fs: set<CallFrame>)
    requires forall j {:trigger es[j]} :: 0 <= j < |es| ==> es[j].frame !in fs
    ensures Only(es, fs) == []
    decreases |es|
  {
    if es != [] { OnlyNone(es[..|es| - 1], fs); }
  }

  /** A frame entered once, at the start. */
  lemma OnlyFirst(es: seq<Entered>, fs: set<CallFrame>)
    requires es != [] && es[0].frame in fs && forall j {:trigger es[j]} :: 1 <= j < |es| ==> es[j].frame !in fs
    ensures Only(es, fs) == [es[0]]
  {
    assert es == [es[0]] + es[1..];
    OnlyAppend([es[0]], es[1..], fs);
    OnlyNone(es[1..], fs);
    assert Only([es[0]][..0], fs) == [];
  }

  lemma {:induction false} RoundsAppend(a: seq<Round>, c: seq<Round>, b: CallFrame)
    ensures RoundsOf(a + c, b) == RoundsOf(a, b) + RoundsOf(c, b)
    decreases |c|
  {
    if c == [] {
      assert a + c == a;
    } else {
      assert (a + c)[..|a + c| - 1] == a + c[..|c| - 1];
      RoundsAppend(a, c[..|c| - 1], b);
    }
  }

  lemma {:induction false} RoundsNone(rs: seq<Round>, b: CallFrame)
    requires forall j {:trigger rs[j]} :: 0 <= j < |rs| ==> rs[j].block != b
    ensures RoundsOf(rs, b) == []
    decreases |rs|
  {
    if rs != [] { RoundsNone(rs[..|rs| - 1], b); }
  }

  /** A builtin has run the block for the first elements in turn, up to the last or to the
      first run in which the block was marked. */
  ghost predicate Visits(rs: seq<Round>, b: CallFrame, elems: seq<Value>) {
    && |rs| <= |elems|
    && (forall j {:trigger rs[j]} :: 0 <= j < |rs| ==>
        rs[j].block == b && rs[j].x == elems[j] && (rs[j].broke ==> j == |rs| - 1))
    && (|rs| < |elems| ==> |rs| > 0 && rs[|rs| - 1].broke)
  }

  ghost function Frames(es: seq<Entered>): set<CallFrame> {
    set e | e in es :: e.frame
  }

  ghost predicate NotEntered(past: History, cf: CallFrame) {
    forall e :: e in past.entered ==> e.frame != cf
  }

  /** Registered frames that have not run: all different, and no block's text stands in them. */
  ghost predicate Pending(now: Shot, deferStack: seq<CallFrame>, registered: seq<Entered>) {
    && |deferStack| == |registered|
    && (forall j {:trigger deferStack[j]} {:trigger registered[j]} :: 0 <= j < |registered| ==>
          var d := deferStack[j];
          && registered[j].frame == d && d in now.frames && !Template(d)
          && now.frames[d] == FrameState(0, false, registered[j].args) && Unborrowed(now.frames.Keys, d)
          && NotEntered(now.past, d))
    && (forall i, j :: 0 <= i < j < |registered| ==> deferStack[i] != deferStack[j])
  }

  lemma PendingFrames(now: Shot, deferStack: seq<CallFrame>, registered: seq<Entered>)
    requires Pending(now, deferStack, registered)
    ensures |deferStack| == |registered| && Frames(registered) <= now.frames.Keys
    ensures deferStack[..|deferStack|] == deferStack && registered[..|registered|] == registered
  {
  }

  lemma PendingLast(now: Shot, deferStack: seq<CallFrame>, registered: seq<Entered>)
    requires Pending(now, deferStack, registered) && |registered| > 0
    ensures |deferStack| == |registered|
    ensures
      var n := |registered| - 1;
      var d := deferStack[n];
      && registered[n].frame == d && d in now.frames && !Template(d)
      && now.frames[d] == FrameState(0, false, registered[n].args)
      && d !in deferStack[..n] && NotEntered(now.past, d) && Pending(now, deferStack[..n], registered[..n])
  {
    hide Unborrowed, NotEntered;
  }

  lemma StillNotEntered(a: Shot, b: Shot, entered: set<CallFrame>, mine: set<CallFrame>, d: CallFrame)
    requires Kept(a, b, entered, mine) && d in a.frames && d !in entered && NotEntered(a.past, d)
    ensures NotEntered(b.past, d)
  {
    hide Untouched, Settled;
    forall e | e in b.past.entered ensures e.frame != d {
      var j :| 0 <= j < |b.past.entered| && b.past.entered[j] == e;
      if j < |a.past.entered| { assert a.past.entered[j] in a.past.entered; }
    }
  }

  /** Running another frame leaves them pending. */
  lemma StillPending(a: Shot, b: Shot, entered: set<CallFrame>, mine: set<CallFrame>, deferStack: seq<CallFrame>,
                     registered: seq<Entered>)
    requires Kept(a, b, entered, mine) && Pending(a, deferStack, registered)
    requires forall d :: d in deferStack ==> d !in mine && d !in entered
    ensures Pending(b, deferStack, registered)
  {
    hide Unborrowed, Kept, NotEntered;
    forall j | 0 <= j < |registered|
      ensures
        var d := deferStack[j];
        && d in b.frames && b.frames[d] == FrameState(0, false, registered[j].args) && Unborrowed(b.frames.Keys, d)
        && NotEntered(b.past, d)
    {
      KeptFrame(a, b, entered, mine, deferStack[j]);
      StillNotEntered(a, b, entered, mine, deferStack[j]);
    }
  }

  lemma InFrames(es: seq<Entered>, i: nat)
    requires i < |es|
    ensures es[i].frame in Frames(es)
  {
  }

  lemma OnceEntered(before: seq<Entered>, a: Shot, b: Shot, mine: set<CallFrame>, cf: CallFrame, args: Slots<Value>)
    requires a.past.entered == before + [Entered(cf, args)] && cf in a.frames && Kept(a, b, {}, mine)
    ensures EnteredOnce(before, b.past.entered, cf, args)
  {
    hide Untouched;
  }

  lemma FirstEntered(before: seq<Entered>, after: seq<Entered>, cf: CallFrame, args: Slots<Value>)
    requires EnteredOnce(before, after, cf, args)
    ensures |before| < |after| && after[|before|] == Entered(cf, args)
  {
  }

  ghost predicate NoneEntered(before: seq<Entered>, after: seq<Entered>, fs: set<CallFrame>) {
    before <= after && forall j {:trigger after[j]} :: |before| <= j < |after| ==> after[j].frame !in fs
  }

  lemma PendingAll(now: Shot, deferStack: seq<CallFrame>, registered: seq<Entered>)
    requires Pending(now, deferStack, registered)
    ensures forall d :: d in deferStack ==> d in Frames(registered)
    ensures Frames(registered) <= now.frames.Keys
  {
    forall d | d in deferStack ensures d in Frames(registered) {
      var j :| 0 <= j < |deferStack| && deferStack[j] == d;
      assert registered[j] in registered;
    }
  }

  lemma NothingPending(now: Shot)
    ensures Pending(now, [], []) && Frames([]) == {} && NoneEntered(now.past.entered, now.past.entered, {})
  {
  }

  lemma NoneEnteredIn(a: seq<Entered>, b: seq<Entered>, c: seq<Entered>, fs: set<CallFrame>)
    requires a == b && b == c
    ensures NoneEntered(a, c, fs)
  {
  }

  lemma NoneNew(a: Shot, b: Shot, mine: set<CallFrame>, fs: set<CallFrame>)
    requires Kept(a, b, {}, mine) && fs <= a.frames.Keys
    ensures NoneEntered(a.past.entered, b.past.entered, fs)
  {
    hide Untouched;
  }

  lemma NoneLonger(a: seq<Entered>, b: seq<Entered>, c: seq<Entered>, fs: set<CallFrame>, more: set<CallFrame>,
                   known: set<CallFrame>)
    requires NoneEntered(a, b, fs) && NoneEntered(b, c, more) && fs <= more && (more - fs) !! known
    requires forall e :: e in b ==> e.frame in known
    ensures NoneEntered(a, c, more)
  {
    forall j | |a| <= j < |c| ensures c[j].frame !in more {
      if j < |b| {
        assert c[j] == b[j] && b[j] in b;
      }
    }
  }

  ghost function With(registered: seq<Entered>, deferred: Option<Entered>): seq<Entered> {
    if deferred.Some? then registered + [deferred.value] else registered
  }

  lemma PendingMore(now: Shot, deferStack: seq<CallFrame>, registered: seq<Entered>, d: CallFrame, args: Slots<Value>)
    requires Pending(now, deferStack, registered) && d in now.frames && d !in Frames(registered) && !Template(d)
    requires now.frames[d] == FrameState(0, false, args) && Unborrowed(now.frames.Keys, d) && NotEntered(now.past, d)
    ensures Pending(now, deferStack + [d], registered + [Entered(d, args)])
    ensures Frames(registered + [Entered(d, args)]) == Frames(registered) + {d}
  {
    hide Unborrowed, NotEntered;
    PendingAll(now, deferStack, registered);
    var more := registered + [Entered(d, args)];
    forall f ensures f in Frames(more) <==> f in Frames(registered) + {d} {
      if f in Frames(registered) {
        var e :| e in registered && e.frame == f;
        assert e in more;
      }
      if f == d { assert Entered(d, args) in more; }
    }
  }

  lemma NoneYet(es: seq<Entered>, fs: set<CallFrame>, registered: seq<Entered>)
    ensures Only(es[|es|..], fs) == Reversed(registered[|registered|..])
  {
  }

  /** A registered frame is entered, and nothing that was registered after that. */
  lemma OneMore(a: seq<Entered>, b: seq<Entered>, c: seq<Entered>, keys: set<CallFrame>, registered: seq<Entered>,
                i: nat)
    requires i < |registered| && a <= b && EnteredOnce(b, c, registered[i].frame, registered[i].args)
    requires Frames(registered) <= keys
    requires forall j {:trigger c[j]} :: |b| <= j < |c| ==> c[j].frame !in keys - {registered[i].frame}
    requires Only(b[|a|..], Frames(registered)) == Reversed(registered[i + 1..])
    ensures Only(c[|a|..], Frames(registered)) == Reversed(registered[i..])
  {
    var fs := Frames(registered);
    assert registered[i] in registered;
    assert c[|b|] == registered[i];
    OnlyMore(a, b, c, fs);
    assert registered[i..][1..] == registered[i + 1..];
  }

  /** What is entered before the registered frames, and then they. */
  lemma OnlyAfter(a: seq<Entered>, b: seq<Entered>, c: seq<Entered>, fs: set<CallFrame>)
    requires a <= b <= c && forall j {:trigger b[j]} :: |a| <= j < |b| ==> b[j].frame !in fs
    ensures Only(c[|a|..], fs) == Only(c[|b|..], fs)
  {
    assert c[|a|..] == b[|a|..] + c[|b|..];
    OnlyAppend(b[|a|..], c[|b|..], fs);
    OnlyNone(b[|a|..], fs);
  }

  /** The elements `map` gives. */
  ghost function Mapped(rs: seq<Round>, n: nat): seq<Value> {
    seq(n, j requires 0 <= j => if j < |rs| && !rs[j].broke then rs[j].value else NilV)
  }

  /** The block has been run once more, and by no builtin else. */
  ghost predicate Ran(before: seq<Round>, after: seq<Round>, r: Round) {
    && before <= after && |before| < |after| && after[|after| - 1] == r
    && forall j {:trigger after[j]} :: |before| <= j < |after| - 1 ==> after[j].block != r.block
  }

  lemma RoundsKept(a: Shot, b: Shot, entered: set<CallFrame>, mine: set<CallFrame>, block: CallFrame)
    requires Kept(a, b, entered, mine) && block in a.frames && block !in mine
    ensures a.past.rounds <= b.past.rounds
    ensures forall j {:trigger b.past.rounds[j]} :: |a.past.rounds| <= j < |b.past.rounds| ==>
      b.past.rounds[j].block != block
  {
    hide Untouched;
  }

  lemma RanAfter(before: seq<Round>, mid: seq<Round>, r: Round)
    requires before <= mid && forall j {:trigger mid[j]} :: |before| <= j < |mid| ==> mid[j].block != r.block
    ensures Ran(before, mid + [r], r)
  {
    var after := mid + [r];
    forall j | |before| <= j < |after| - 1 ensures after[j].block != r.block {
      assert after[j] == mid[j];
    }
  }

  lemma NoRounds(rounds: seq<Round>, block: CallFrame)
    ensures RoundsOf(rounds[|rounds|..], block) == []
    ensures Looped(rounds, rounds, block, [], [], false)
    ensures rounds <= rounds
  {
  }

  lemma MoreRounds(a: seq<Round>, b: seq<Round>, c: seq<Round>, r: Round)
    requires a <= b && Ran(b, c, r)
    ensures RoundsOf(c[|a|..], r.block) == RoundsOf(b[|a|..], r.block) + [r]
  {
    var rest := c[|b|..|c| - 1];
    assert c[|a|..] == b[|a|..] + (rest + [r]);
    RoundsAppend(b[|a|..], rest + [r], r.block);
    RoundsNone(rest, r.block);
    assert (rest + [r])[..|rest|] == rest;
  }

  /** A builtin's loop has run the block for these elements; broke: the block was marked in the last run. */
  ghost predicate Looped(before: seq<Round>, after: seq<Round>, b: CallFrame, elems: seq<Value>, rs: seq<Round>,
                         broke: bool)
  {
    && before <= after && RoundsOf(after[|before|..], b) == rs && |rs| == |elems| && (broke ==> |rs| > 0)
    && forall j {:trigger rs[j]} :: 0 <= j < |rs| ==>
         rs[j].block == b && rs[j].x == elems[j] && (rs[j].broke <==> broke && j == |rs| - 1)
  }

  /** One run more. */
  lemma Visited(a: seq<Round>, b: seq<Round>, c: seq<Round>, block: CallFrame, elems: seq<Value>, i: nat,
                rs: seq<Round>, r: Round)
    returns (more: seq<Round>)
    requires i < |elems| && Looped(a, b, block, elems[..i], rs, false) && r.block == block && r.x == elems[i]
    requires Ran(b, c, r)
    ensures more == rs + [r] && |rs| == i && Looped(a, c, block, elems[..i + 1], more, r.broke)
  {
    hide RoundsOf;
    MoreRounds(a, b, c, r);
    more := rs + [r];
    assert elems[..i + 1] == elems[..i] + [elems[i]];
  }

  lemma LoopedVisits(before: seq<Round>, after: seq<Round>, b: CallFrame, done: seq<Value>, rs: seq<Round>, broke: bool,
                     elems: seq<Value>)
    requires Looped(before, after, b, done, rs, broke) && done <= elems && (!broke ==> done == elems)
    ensures Visits(rs, b, elems) && before <= after && RoundsOf(after[|before|..], b) == rs
  {
    hide RoundsOf;
  }

  lemma OnlyMore(a: seq<Entered>, b: seq<Entered>, c: seq<Entered>, fs: set<CallFrame>)
    requires a <= b <= c && |b| < |c| && c[|b|].frame in fs
    requires forall j {:trigger c[j]} :: |b| < j < |c| ==> c[j].frame !in fs
    ensures Only(c[|a|..], fs) == Only(b[|a|..], fs) + [c[|b|]]
  {
    assert c[|a|..] == b[|a|..] + c[|b|..];
    OnlyAppend(b[|a|..], c[|b|..], fs);
    OnlyFirst(c[|b|..], fs);
  }
}
