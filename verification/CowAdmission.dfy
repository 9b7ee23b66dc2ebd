/**
 When an operation on an array fails, and what the write-owned marker is for: once a write
 that may not allocate has been admitted to an array, no later one is shut out.
 */
module CowAdmission {
  import opened Basics
  import opened CowArrays
  import opened CowInvariant
  import opened CowSteps
  import opened CowRuns

  /** Where the step of thread t leaves it. */
  function After(s: State, t: nat, input: Input): Pc
    requires Shaped(s, t)
  {
    StepSizes(s, t, input);
    Step(s, t, input).threads[t].pc
  }

  // ------------------------------------------------------- what makes it fail

  /** The source of a copy has as many holders as its count can hold. */
  predicate AtLimit(s: State, src: nat) {
    && src < |s.views| && s.views[src].link.Side? && s.views[src].link.id in s.sides
    && s.sides[s.views[src].link.id].refs == 0x7FFF_FFFF
  }

  /** Array d shares its buffer with another array, or with one that is about to show it. */
  ghost predicate SharesItsBuffer(s: State, t: nat, d: nat) {
    d < |s.views| && s.views[d].link.Side? && OtherHolder(s, t, d, s.views[d].link.id)
  }

  /** The value of one array has no place in the buffer of the other. */
  predicate NoRoom(s: State, dest: View, from: View) {
    || |dest.sizes| != |from.sizes|
    || (dest.data.Some? && dest.data.value in s.bufs && |s.bufs[dest.data.value]| < Count(from.sizes))
  }

  /** Why an operation fails, at the place where it does. */
  ghost predicate MustFail(s: State, t: nat)
    requires Shaped(s, t)
  {
    var op := s.threads[t].op;
    match s.threads[t].pc
    case Share(_) => AtLimit(s, op.src) && s.views[op.d].link != s.views[op.src].link
    case Prepare => !MayAllocate(op) && SharesItsBuffer(s, t, op.d)
    case Shape => !MayAllocate(op) && NoRoom(s, s.views[op.d], s.views[op.src])
    case _ => false
  }

  /** An operation fails exactly for one of three reasons: the count of the source is at its
      limit; or it may not allocate, and its array shares its buffer or has no room. */
  lemma FailsExactly(s: State, own: Owners, t: nat, input: Input)
    requires Inv(s, own) && t < |s.threads| && Busy(s.threads[t]) && Shaped(s, t)
    ensures After(s, t, input) == Idle(false) <==> MustFail(s, t)
  {
    hide Inv, Begin, StepShare, StepCompare, StepPrepare, StepClone, StepDetach, StepStore, StepShape, StepRelease;
    hide StepDestroy, StepDiscard, StepAttach, StepAllocate, StepFill, Settled, Exclusive, ViewOk, Read;
    hide AtLimit, SharesItsBuffer, NoRoom;
    Now(s, own, t);
    StepSizes(s, t, input);
    match s.threads[t].pc {
      case Share(_) => ShareFails(s, own, t, input.spare);
      case Prepare => PrepareFails(s, own, t, input.spare);
      case Shape => ShapeFails(s, own, t);
      case _ => OthersSucceed(s, own, t, input);
    }
  }

  lemma ShareFails(s: State, own: Owners, t: nat, spare: nat)
    requires Inv(s, own) && Shaped(s, t) && s.threads[t].pc.Share?
    requires t < |StepShare(s, t, spare).threads|
    ensures var op := s.threads[t].op;
            StepShare(s, t, spare).threads[t].pc == Idle(false) <==>
              AtLimit(s, op.src) && s.views[op.d].link != s.views[op.src].link
  {
    hide Inv;
    var op := s.threads[t].op;
    AtView(s, own, op.src);
    AtView(s, own, op.d);
    if s.views[op.src].link.Side? {
      HolderCounts(s, own, s.views[op.src].link.id);
    }
  }

  lemma PrepareFails(s: State, own: Owners, t: nat, spare: nat)
    requires Inv(s, own) && Shaped(s, t) && s.threads[t].pc.Prepare?
    requires t < |StepPrepare(s, t, spare).threads|
    ensures StepPrepare(s, t, spare).threads[t].pc == Idle(false) <==>
            !MayAllocate(s.threads[t].op) && SharesItsBuffer(s, t, s.threads[t].op.d)
  {
    hide Inv, OtherHolder;
    var d := s.threads[t].op.d;
    AtView(s, own, d);
    if s.views[d].link.Side? {
      var k := s.views[d].link.id;
      HolderCounts(s, own, k);
      if s.sides[k].refs == 1 {
        SoleHolder(s, own, k, d);
      } else {
        OtherHolds(s, own, k, d, t);
      }
    }
  }

  /** A count above one means another holder. */
  lemma OtherHolds(s: State, own: Owners, k: nat, d: nat, t: nat)
    requires Inv(s, own) && k in s.sides && s.sides[k].refs > 1 && d < |s.views| && s.views[d].link == Side(k)
    requires t < |s.threads| && !Keeps(s.threads[t].pc, k)
    ensures OtherHolder(s, t, d, k)
  {
    hide Inv, Keeps;
    SideNow(s, own, k);
    if ThreadHolders(s, k) != {} {
      var u :| u in ThreadHolders(s, k);
    } else {
      MoreThanOne(ViewHolders(s, k), d);
      var a :| a in ViewHolders(s, k) - {d};
    }
  }

  lemma MoreThanOne(xs: set<nat>, d: nat)
    requires |xs| > 1
    ensures xs - {d} != {}
  {
    var rest := xs - {d};
    assert xs == rest || xs == rest + {d};
  }

  lemma ShapeFails(s: State, own: Owners, t: nat)
    requires Inv(s, own) && Shaped(s, t) && s.threads[t].pc.Shape?
    requires t < |StepShape(s, t).threads|
    ensures var op := s.threads[t].op;
            StepShape(s, t).threads[t].pc == Idle(false) <==>
              !MayAllocate(op) && NoRoom(s, s.views[op.d], s.views[op.src])
  {
    hide Inv, Product;
    AtView(s, own, s.threads[t].op.d);
    AtView(s, own, s.threads[t].op.src);
  }

  lemma OthersSucceed(s: State, own: Owners, t: nat, input: Input)
    requires Inv(s, own) && Shaped(s, t) && Busy(s.threads[t])
    requires !s.threads[t].pc.Share? && !s.threads[t].pc.Prepare? && !s.threads[t].pc.Shape?
    ensures After(s, t, input) != Idle(false)
  {
    hide Inv, StepShare, StepPrepare, StepShape, Begin, Settled, Exclusive, ViewOk, Read;
    Now(s, own, t);
    if s.threads[t].pc.Detach? {
      HolderCounts(s, own, s.threads[t].pc.side);
    }
  }

  // ------------------------------------------------------------- the marker

  /** The place of a thread behind prepare_write, and on the way there. */
  predicate Prepared(pc: Pc) {
    pc.Store? || pc.Shape? || pc.Fill?
  }

  /** Which operations get to let storage go, and to what end. */
  predicate AfterOf(op: Op, after: Then) {
    match after
    case ToAttach(_) => op.Copy? && op.share
    case ToPrepared => MayAllocate(op)
    case ToAllocate => op.Copy? && op.alloc
    case ToEnd => !op.Write?
    case ToFail => MayAllocate(op)
  }

  /** What the operation of a thread says about the marker of its array: one that may not
      allocate has set it before it goes on to write, and gives up no storage, unless it
      shares another array or there is none. */
  predicate ThreadMarked(v: View, th: Thread) {
    && (Prepared(th.pc) && !MayAllocate(th.op) && v.data.Some? ==> v.link.WriteOwned?)
    && (th.pc.Clone? || th.pc.Detach? || th.pc.Allocate? ==> MayAllocate(th.op))
    && (th.pc.Release? || th.pc.Destroy? || th.pc.Discard? ==> AfterOf(th.op, th.pc.after))
    && (th.pc.Share? || th.pc.Attach? ==> th.op.Copy? && th.op.share)
    && (th.pc.Release? && th.pc.after.ToEnd? ==> th.op.Free? || (th.op.Copy? && (th.op.alloc || v.data.None?)))
  }

  ghost predicate Marked(s: State) {
    forall t :: 0 <= t < |s.threads| && s.threads[t].op.d < |s.views| ==>
      ThreadMarked(s.views[s.threads[t].op.d], s.threads[t])
  }

  /** These steps change no view. */
  predicate Viewless(pc: Pc) {
    pc.Compare? || pc.Clone? || pc.Store? || pc.Destroy? || pc.Discard? || pc.Fill? || pc.Fault?
  }

  lemma ViewsStay(s: State, t: nat, input: Input)
    requires Shaped(s, t) && Viewless(s.threads[t].pc)
    ensures Step(s, t, input).views == s.views
  {
    hide Apply, Count, Capacity, NextPc, Begin, StepShare, StepPrepare, StepDetach, StepShape, StepRelease, StepAttach;
    hide StepAllocate;
  }

  lemma OneViewChanges(s: State, t: nat, input: Input)
    requires Shaped(s, t) && !Viewless(s.threads[t].pc) && !s.threads[t].pc.Idle? && !s.threads[t].pc.Share?
    ensures var s', d := Step(s, t, input), s.threads[t].op.d;
            |s'.views| == |s.views| && s'.views == s.views[d := s'.views[d]]
  {
    hide Apply, Count, Capacity, Begin, ShapeOutcome, NextPc;
    hide StepShare, StepCompare, StepClone, StepStore, StepDestroy, StepDiscard, StepFill;
  }

  /** A step of thread t leaves alone the storage of every array but its own; it may only let
      a private one be shared. */
  lemma Elsewhere(s: State, t: nat, input: Input, a: nat)
    requires Shaped(s, t) && a < |s.views| && a != s.threads[t].op.d && !s.threads[t].pc.Idle?
    ensures a < |Step(s, t, input).views|
    ensures var v := Step(s, t, input).views[a];
            v == s.views[a] || (s.views[a].link.Own? && v.data == s.views[a].data && v.sizes == s.views[a].sizes)
  {
    if s.threads[t].pc.Share? {
      hide Apply, Count, Capacity;
    } else {
      hide Step;
      if Viewless(s.threads[t].pc) {
        ViewsStay(s, t, input);
      } else {
        OneViewChanges(s, t, input);
      }
    }
  }

  /** Nor does it change a marked array, unless it lets it go. */
  lemma MarkerStays(s: State, own: Owners, t: nat, input: Input, a: nat)
    requires Inv(s, own) && Shaped(s, t) && a < |s.views| && s.views[a].link.WriteOwned?
    requires !(s.threads[t].pc.Release? && s.threads[t].op.d == a)
    ensures a < |Step(s, t, input).views| && Step(s, t, input).views[a].link.WriteOwned?
    ensures Step(s, t, input).views[a].data == s.views[a].data
  {
    hide Inv, Apply, Count, Capacity, Begin, NextPc, Read, Settled, Exclusive;
    if s.threads[t].pc.Idle? {
      BeginDeep(s, t, input);
    } else if a != s.threads[t].op.d {
      Elsewhere(s, t, input, a);
    } else {
      Now(s, own, t);
      AtView(s, own, a);
    }
  }

  /** What a step does to the array of its thread and to the thread. */
  ghost predicate Leaves(s: State, t: nat, s': State)
    requires t < |s.threads|
  {
    var d := s.threads[t].op.d;
    && d < |s'.views| && t < |s'.threads| && s'.threads[t].op == s.threads[t].op
    && ThreadMarked(s'.views[d], s'.threads[t])
  }

  lemma ShareMarked(s: State, t: nat, spare: nat)
    requires Shaped(s, t) && ThreadMarked(s.views[s.threads[t].op.d], s.threads[t]) && s.threads[t].pc.Share?
    ensures Leaves(s, t, StepShare(s, t, spare))
  {
    hide Apply;
  }

  lemma PrepareMarked(s: State, t: nat, spare: nat)
    requires Shaped(s, t) && ThreadMarked(s.views[s.threads[t].op.d], s.threads[t])
    requires s.threads[t].pc.Prepare? || s.threads[t].pc.Allocate?
    ensures s.threads[t].pc.Prepare? ==> Leaves(s, t, StepPrepare(s, t, spare))
    ensures s.threads[t].pc.Allocate? ==> Leaves(s, t, StepAllocate(s, t, spare))
  {
    hide Apply, Capacity;
  }

  lemma ShapeMarked(s: State, t: nat)
    requires Shaped(s, t) && ThreadMarked(s.views[s.threads[t].op.d], s.threads[t])
    requires s.threads[t].pc.Shape? || s.threads[t].pc.Compare?
    ensures s.threads[t].pc.Shape? ==> Leaves(s, t, StepShape(s, t))
    ensures s.threads[t].pc.Compare? ==> Leaves(s, t, StepCompare(s, t))
  {
    hide Apply, Capacity, Count;
  }

  lemma WritingMarked(s: State, t: nat)
    requires Shaped(s, t) && ThreadMarked(s.views[s.threads[t].op.d], s.threads[t])
    requires s.threads[t].pc.Clone? || s.threads[t].pc.Store? || s.threads[t].pc.Fill?
    ensures s.threads[t].pc.Clone? ==> Leaves(s, t, StepClone(s, t))
    ensures s.threads[t].pc.Store? ==> Leaves(s, t, StepStore(s, t))
    ensures s.threads[t].pc.Fill? ==> Leaves(s, t, StepFill(s, t))
  {
    hide Apply, Count;
  }

  lemma ReleaseMarked(s: State, t: nat)
    requires Shaped(s, t) && ThreadMarked(s.views[s.threads[t].op.d], s.threads[t]) && s.threads[t].pc.Release?
    requires !s.threads[t].pc.after.ToPrepared? && !s.threads[t].pc.after.ToFail?
    ensures Leaves(s, t, StepRelease(s, t))
  {
    hide Apply;
  }

  lemma LettingGoMarked(s: State, t: nat)
    requires Shaped(s, t) && ThreadMarked(s.views[s.threads[t].op.d], s.threads[t])
    requires s.threads[t].pc.Detach? || s.threads[t].pc.Destroy? || s.threads[t].pc.Discard? || s.threads[t].pc.Attach?
    ensures s.threads[t].pc.Detach? ==> Leaves(s, t, StepDetach(s, t))
    ensures s.threads[t].pc.Destroy? ==> Leaves(s, t, StepDestroy(s, t))
    ensures s.threads[t].pc.Discard? ==> Leaves(s, t, StepDiscard(s, t))
    ensures s.threads[t].pc.Attach? ==> Leaves(s, t, StepAttach(s, t))
  {}

  lemma OwnMarked(s: State, own: Owners, t: nat, input: Input)
    requires Inv(s, own) && Shaped(s, t) && Busy(s.threads[t])
    requires ThreadMarked(s.views[s.threads[t].op.d], s.threads[t])
    ensures Leaves(s, t, Step(s, t, input))
  {
    hide Inv, ThreadMarked, Leaves, Read, Settled, Exclusive, ViewOk;
    hide Begin, StepShare, StepCompare, StepPrepare, StepClone, StepDetach, StepStore, StepShape, StepRelease;
    hide StepDestroy, StepDiscard, StepAttach, StepAllocate, StepFill;
    Now(s, own, t);
    match s.threads[t].pc {
      case Share(_) => ShareMarked(s, t, input.spare);
      case Prepare => PrepareMarked(s, t, input.spare);
      case Allocate => PrepareMarked(s, t, input.spare);
      case Shape => ShapeMarked(s, t);
      case Compare => ShapeMarked(s, t);
      case Clone(_, _, _) => WritingMarked(s, t);
      case Store => WritingMarked(s, t);
      case Fill(_) => WritingMarked(s, t);
      case Release(_) => ReleaseMarked(s, t);
      case _ => LettingGoMarked(s, t);
    }
  }

  lemma OtherMarked(s: State, own: Owners, t: nat, input: Input, u: nat)
    requires Inv(s, own) && Shaped(s, t) && !s.threads[t].pc.Idle? && u < |s.threads| && u != t
    requires Busy(s.threads[t]) && InBounds(|s.views|, s.threads[u].op)
    requires ThreadMarked(s.views[s.threads[u].op.d], s.threads[u])
    ensures s.threads[u].op.d < |Step(s, t, input).views|
    ensures ThreadMarked(Step(s, t, input).views[s.threads[u].op.d], s.threads[u])
  {
    hide Step;
    var a := s.threads[u].op.d;
    StepSizes(s, t, input);
    if a == s.threads[t].op.d {
      assert !Writes(s.threads[u], a);
    } else {
      Elsewhere(s, t, input, a);
    }
  }

  lemma BeginMarked(s: State, t: nat, input: Input)
    requires t < |s.threads| && s.threads[t].pc.Idle? && Marked(s)
    ensures Marked(Begin(s, t, input))
  {
    var s' := Begin(s, t, input);
    BeginDeep(s, t, input);
    forall u | 0 <= u < |s'.threads| && s'.threads[u].op.d < |s'.views|
      ensures ThreadMarked(s'.views[s'.threads[u].op.d], s'.threads[u])
    {
      if u != t {
        assert ThreadMarked(s.views[s.threads[u].op.d], s.threads[u]);
      }
    }
  }

  lemma StepMarked(s: State, own: Owners, t: nat, input: Input)
    requires Inv(s, own) && Shaped(s, t) && Marked(s)
    ensures Marked(Step(s, t, input))
  {
    hide Step, Begin, ThreadMarked, Inv, Local;
    Now(s, own, t);
    if s.threads[t].pc.Idle? {
      BeginMarked(s, t, input);
      StepIsBegin(s, t, input);
    } else if s.threads[t].pc.Fault? {
      StepIsNothing(s, t, input);
    } else {
      var s' := Step(s, t, input);
      StepLocal(s, t, input);
      OthersStay(s, t, s');
      OwnMarked(s, own, t, input);
      forall u | 0 <= u < |s'.threads| && s'.threads[u].op.d < |s'.views|
        ensures ThreadMarked(s'.views[s'.threads[u].op.d], s'.threads[u])
      {
        if u != t {
          Now(s, own, u);
          OtherMarked(s, own, t, input, u);
        }
      }
    }
  }

  lemma OthersStay(s: State, t: nat, s': State)
    requires Local(s, t, s')
    ensures |s'.threads| == |s.threads| && forall u :: 0 <= u < |s.threads| && u != t ==> s'.threads[u] == s.threads[u]
  {}

  lemma StepIsBegin(s: State, t: nat, input: Input)
    requires Shaped(s, t) && s.threads[t].pc.Idle?
    ensures Step(s, t, input) == Begin(s, t, input)
  {}

  lemma StepIsNothing(s: State, t: nat, input: Input)
    requires Shaped(s, t) && s.threads[t].pc.Fault?
    ensures Step(s, t, input) == s
  {}

  lemma {:induction false} RunMarked(arrays: nat, threads: nat, sched: seq<Move>) returns (own: Owners)
    requires 0 < arrays
    ensures Inv(Run(arrays, threads, sched), own) && Marked(Run(arrays, threads, sched))
  {
    own := RunInv(arrays, threads, sched);
    if sched != [] {
      hide Step, Inv, Marked;
      var before, m := sched[..|sched| - 1], sched[|sched| - 1];
      var own0 := RunMarked(arrays, threads, before);
      if Shaped(Run(arrays, threads, before), m.thread) {
        StepMarked(Run(arrays, threads, before), own0, m.thread, m.input);
      }
    }
  }

  // -------------------------------------------------------- writers admitted

  /** The move lets the storage of array a go. */
  predicate LetsGo(s: State, t: nat, a: nat) {
    t < |s.threads| && s.threads[t].pc.Release? && s.threads[t].op.d == a
  }

  /** The move ends a write to array a that could not allocate and found storage there. */
  predicate Admits(s: State, s': State, t: nat, a: nat) {
    && t < |s.threads| && t < |s'.threads| && a < |s'.views|
    && Busy(s.threads[t]) && s.threads[t].op.Write? && !s.threads[t].op.alloc && s.threads[t].op.d == a
    && s'.threads[t].pc == Idle(true) && s'.views[a].data.Some?
  }

  /** A write that may not allocate has succeeded on array a, and its storage has not been
      let go since. */
  ghost predicate Admitted(arrays: nat, threads: nat, sched: seq<Move>, a: nat) {
    sched != [] &&
    var before, m := sched[..|sched| - 1], sched[|sched| - 1];
    var s, s' := Run(arrays, threads, before), Run(arrays, threads, sched);
    !LetsGo(s, m.thread, a) && (Admits(s, s', m.thread, a) || Admitted(arrays, threads, before, a))
  }

  lemma AdmitsMarked(s: State, own: Owners, t: nat, input: Input, a: nat)
    requires Inv(s, own) && Marked(s) && Shaped(s, t) && Admits(s, Step(s, t, input), t, a) && !LetsGo(s, t, a)
    ensures a < |s.views| && s.views[a].link.WriteOwned?
  {
    hide Inv, Apply, Count, Capacity, Begin, Read, Settled, Exclusive, ViewOk;
    Now(s, own, t);
    assert ThreadMarked(s.views[a], s.threads[t]);
  }

  lemma StandingStill(s: State, t: nat, a: nat)
    ensures !Admits(s, s, t, a)
  {}

  /** An array to which a writer has been admitted stays marked, so nobody shares it. */
  lemma {:induction false} AdmittedStays(arrays: nat, threads: nat, sched: seq<Move>, a: nat)
    requires 0 < arrays && a < arrays && Admitted(arrays, threads, sched, a)
    ensures Run(arrays, threads, sched).views[a].link.WriteOwned? && Run(arrays, threads, sched).views[a].data.Some?
  {
    hide Step, Inv, Marked, Admits;
    var before, m := sched[..|sched| - 1], sched[|sched| - 1];
    var s := Run(arrays, threads, before);
    var own := RunMarked(arrays, threads, before);
    if Shaped(s, m.thread) && Admits(s, Step(s, m.thread, m.input), m.thread, a) {
      AdmitsMarked(s, own, m.thread, m.input, a);
    } else {
      StandingStill(s, m.thread, a);
      AdmittedStays(arrays, threads, before, a);
    }
    if Shaped(s, m.thread) {
      MarkerStays(s, own, m.thread, m.input, a);
    }
    AtView(s, own, a);
  }

  /** What array a is then let go for: it is freed, or the value of another array is put there
      by an operation that shares it or may allocate. */
  lemma LetGoFor(arrays: nat, threads: nat, sched: seq<Move>, a: nat, t: nat)
    requires 0 < arrays && a < arrays && t < threads && Admitted(arrays, threads, sched, a)
    requires LetsGo(Run(arrays, threads, sched), t, a)
    ensures var op := Run(arrays, threads, sched).threads[t].op; op.Free? || (op.Copy? && (op.share || op.alloc))
  {
    var own := RunMarked(arrays, threads, sched);
    AdmittedStays(arrays, threads, sched, a);
    Now(Run(arrays, threads, sched), own, t);
  }

  /** Once a writer has been admitted to array a, no write to it fails, and no other operation
      on it fails for sharing its buffer, until its storage is let go. */
  lemma NeverShutOut(arrays: nat, threads: nat, sched: seq<Move>, a: nat, t: nat, input: Input)
    requires 0 < arrays && a < arrays && t < threads && Admitted(arrays, threads, sched, a)
    requires var s := Run(arrays, threads, sched);
             Shaped(s, t) && Busy(s.threads[t]) && s.threads[t].op.d == a
    ensures var s := Run(arrays, threads, sched);
            && (s.threads[t].op.Write? || s.threads[t].pc.Prepare? ==> After(s, t, input) != Idle(false))
            && forall b :: 0 <= b < arrays ==> !s.views[b].link.Side? || s.views[b].data != s.views[a].data
  {
    hide Inv, Step;
    var s := Run(arrays, threads, sched);
    var own := RunMarked(arrays, threads, sched);
    AdmittedStays(arrays, threads, sched, a);
    FailsExactly(s, own, t, input);
    AtView(s, own, a);
    forall b | 0 <= b < arrays ensures !s.views[b].link.Side? || s.views[b].data != s.views[a].data {
      AtView(s, own, b);
    }
  }

  // ------------------------------------------------------ no needless work

  /** A buffer is cloned only if another array shares it, exchanged for a bigger one only if
      the value has no room in it, and copied in place of being shared only if a writer has
      been admitted to it. */
  lemma NoNeedlessWork(s: State, own: Owners, t: nat, input: Input)
    requires Inv(s, own) && Shaped(s, t) && Busy(s.threads[t])
    ensures var op, pc, pc' := s.threads[t].op, s.threads[t].pc, After(s, t, input);
            && (pc.Prepare? && pc'.Clone? ==> SharesItsBuffer(s, t, op.d))
            && (pc.Shape? && pc'.Release? && pc'.after.ToAllocate? ==>
                  var dest := s.views[op.d].data;
                  dest.None? || dest.value !in s.bufs || |s.bufs[dest.value]| < Capacity(s.views[op.src].sizes))
            && (pc.Share? && pc'.Compare? ==> s.views[op.src].link.WriteOwned? || s.views[op.src].data.None?)
  {
    hide Inv, Apply, Count, Product, Begin, Read, Settled, Exclusive, OtherHolder;
    hide StepClone, StepDetach, StepStore, StepRelease, StepDestroy, StepDiscard, StepAttach, StepAllocate, StepFill;
    Now(s, own, t);
    StepSizes(s, t, input);
    var d := s.threads[t].op.d;
    if s.threads[t].pc.Prepare? && s.views[d].link.Side? {
      HolderCounts(s, own, s.views[d].link.id);
      if s.sides[s.views[d].link.id].refs > 1 {
        OtherHolds(s, own, s.views[d].link.id, d, t);
      }
    }
  }

  /** The marker is set by operations that may not allocate, and by no other. */
  lemma MarkedOnlyBy(s: State, t: nat, input: Input, a: nat)
    requires Shaped(s, t) && !s.threads[t].pc.Idle? && a < |s.views| && !s.views[a].link.WriteOwned?
    requires |Step(s, t, input).views| == |s.views| && Step(s, t, input).views[a].link.WriteOwned?
    ensures s.threads[t].pc.Prepare? && a == s.threads[t].op.d && !MayAllocate(s.threads[t].op)
  {
    if s.threads[t].pc.Prepare? || s.threads[t].pc.Share? {
      hide Apply, Count, Capacity;
      hide StepClone, StepDetach, StepStore, StepShape, StepRelease, StepDestroy, StepDiscard, StepAttach;
      hide StepAllocate, StepFill, Begin;
    } else {
      hide Step;
      if Viewless(s.threads[t].pc) {
        ViewsStay(s, t, input);
      } else {
        OneViewChanges(s, t, input);
        OwnLink(s, t, input);
      }
    }
  }

  lemma OwnLink(s: State, t: nat, input: Input)
    requires Shaped(s, t) && !Viewless(s.threads[t].pc) && !s.threads[t].pc.Idle?
    requires !s.threads[t].pc.Share? && !s.threads[t].pc.Prepare?
    ensures var s', d := Step(s, t, input), s.threads[t].op.d;
            d < |s'.views| && (s'.views[d].link.WriteOwned? ==> s.views[d].link.WriteOwned?)
  {
    hide Apply, Count, Capacity, Begin, NextPc;
    hide StepShare, StepPrepare, StepCompare, StepClone, StepStore, StepDestroy, StepDiscard, StepFill;
  }

  /** Whatever else works on the array, a clone is installed only over the storage it was
      made from; otherwise it is thrown away and the operation fails. */
  lemma InstalledOverItsSource(s: State, t: nat, input: Input)
    requires Shaped(s, t) && s.threads[t].pc.Detach? && s.threads[t].pc.side in s.sides
    requires s.threads[t].pc.buf in s.bufs
    ensures var s', d, k, b := Step(s, t, input), s.threads[t].op.d, s.threads[t].pc.side, s.threads[t].pc.buf;
            if s.views[d].link == Side(k) && s.sides[k].refs > 0
            then |s'.views| == |s.views| && s'.views[d] == View(Some(b), s.views[d].sizes, Own)
            else && s'.views == s.views && Shaped(s', t) && After(s', t, input) == Idle(false)
                 && Step(s', t, input).bufs == s.bufs - {b}
  {
    hide Apply, Count, Capacity;
    assert Step(s, t, input) == StepDetach(s, t);
    var s' := Step(s, t, input);
    if s'.threads[t].pc.Discard? {
      assert Step(s', t, input) == StepDiscard(s', t);
    }
  }

  // ----------------------------------------------- copies of a value onto itself

  /** Arrays on one buffer show the same value. */
  lemma OneBuffer(s: State, own: Owners, a: nat, b: nat)
    requires Inv(s, own) && a < |s.views| && b < |s.views| && a != b
    requires s.views[a].data.Some? && s.views[a].data == s.views[b].data
    ensures s.views[a].link.Side? && s.views[a] == s.views[b]
  {
    hide Inv;
    AtView(s, own, a);
    AtView(s, own, b);
  }

  /** Copying one of two views of a value onto the other succeeds at once and leaves both
      views, the buffers and the counts alone. */
  lemma OntoItself(s: State, own: Owners, t: nat, input: Input)
    requires Inv(s, own) && Shaped(s, t) && s.threads[t].pc.Compare?
    requires var op := s.threads[t].op;
             op.Copy? && op.src != op.d && s.views[op.d].data.Some? && s.views[op.d].data == s.views[op.src].data
    ensures var s' := Step(s, t, input);
            && After(s, t, input) == Idle(true) && s'.views == s.views && s'.bufs == s.bufs && s'.sides == s.sides
  {
    hide Inv, Apply;
    OneBuffer(s, own, s.threads[t].op.d, s.threads[t].op.src);
  }

  // -------------------------------------------------------------- dimensions

  /** The number of elements is the product over the dimensions, however they are grouped. */
  lemma {:induction false} CountGrouped(a: seq<nat>, b: seq<nat>)
    ensures Product(a + b) == Product(a) * Product(b)
    ensures |a| == 1 ==> Product(a) == a[0]
    ensures a != [] && b != [] ==> Count(a + b) == Count(a) * Count(b)
    ensures Count([]) == 0
  {
    if a == [] {
      assert a + b == b;
    } else {
      assert (a + b)[1..] == a[1..] + b;
      CountGrouped(a[1..], b);
      Grouped(a[0], Product(a[1..]), Product(b));
    }
  }

  lemma Grouped(x: nat, y: nat, z: nat)
    ensures x * (y * z) == (x * y) * z
  {}
}
