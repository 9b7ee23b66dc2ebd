/**
 Runs of the copy-on-write protocol: memory safety, reference accounting and
 agreement with eager deep copies, under every schedule of the threads.
 */
module CowRuns {
  import opened Basics
  import opened CowArrays
  import opened CowInvariant
  import opened CowSteps

  datatype Move = Move(thread: nat, input: Input)

  /** Arrays that have no storage yet, and threads with nothing to do. */
  function Initial(arrays: nat, threads: nat): State {
    State(seq(arrays, _ => CLEARED), map[], map[], seq(threads, _ => Thread(Free(0), Idle(false), 0)),
          seq(arrays, _ => EMPTY))
  }

  function Next(s: State, m: Move): (s': State)
    ensures |s'.views| == |s.views| && |s'.threads| == |s.threads| && (|s.deep| == |s.views| ==> |s'.deep| == |s.deep|)
  {
    if Shaped(s, m.thread) then
      StepSizes(s, m.thread, m.input);
      Step(s, m.thread, m.input)
    else s
  }

  lemma StepSizes(s: State, t: nat, input: Input)
    requires Shaped(s, t)
    ensures var s' := Step(s, t, input);
            |s'.views| == |s.views| && |s'.threads| == |s.threads| && |s'.deep| == |s.deep|
  {
    hide Begin, StepShare, StepCompare, StepPrepare, StepClone, StepDetach, StepStore, StepShape, StepRelease;
    hide StepDestroy, StepDiscard, StepAttach, StepAllocate, StepFill;
    if s.threads[t].pc.Idle? {
      BeginDeep(s, t, input);
    } else {
      StepLocal(s, t, input);
    }
  }

  /** The state a schedule leads to. */
  function Run(arrays: nat, threads: nat, sched: seq<Move>): (s: State)
    ensures |s.views| == arrays == |s.deep| && |s.threads| == threads
  {
    if sched == [] then Initial(arrays, threads)
    else Next(Run(arrays, threads, sched[..|sched| - 1]), sched[|sched| - 1])
  }

  lemma InitialInv(arrays: nat, threads: nat)
    requires 0 < arrays
    ensures Inv(Initial(arrays, threads), map[])
  {}

  lemma {:induction false} RunInv(arrays: nat, threads: nat, sched: seq<Move>) returns (own: Owners)
    requires 0 < arrays
    ensures Inv(Run(arrays, threads, sched), own)
  {
    if sched == [] {
      InitialInv(arrays, threads);
      own := map[];
    } else {
      hide Step, Inv;
      var before, m := sched[..|sched| - 1], sched[|sched| - 1];
      own := RunInv(arrays, threads, before);
      var s := Run(arrays, threads, before);
      if m.thread < |s.threads| {
        own := StepKeeps(s, own, m.thread, m.input);
      }
    }
  }

  // ------------------------------------------------------------- results

  /** No schedule makes a thread touch freed memory or free it twice. */
  lemma NeverFaults(arrays: nat, threads: nat, sched: seq<Move>, t: nat)
    requires 0 < arrays && t < threads
    ensures !Run(arrays, threads, sched).threads[t].pc.Fault?
  {
    var own := RunInv(arrays, threads, sched);
    assert PcOk(Run(arrays, threads, sched), own, t);
  }

  /** Every array that no operation is in the middle of changing reads as if all
      copies had been deep. */
  lemma ReadsAsDeepCopies(arrays: nat, threads: nat, sched: seq<Move>, a: nat)
    requires 0 < arrays && a < arrays && Settled(Run(arrays, threads, sched), a)
    ensures var s := Run(arrays, threads, sched); |s.deep| == arrays && Read(s, a) == s.deep[a]
  {
    var own := RunInv(arrays, threads, sched);
    SettledReads(Run(arrays, threads, sched), own, a);
  }

  /** The deep-copy model moves by whole operations: a step leaves it alone or
      applies the operation of its thread. */
  lemma DeepMovesByOperations(s: State, t: nat, input: Input)
    requires Shaped(s, t)
    ensures if s.threads[t].pc.Idle? then Step(s, t, input).deep == s.deep else Local(s, t, Step(s, t, input))
  {
    hide Begin, StepShare, StepCompare, StepPrepare, StepClone, StepDetach, StepStore, StepShape, StepRelease;
    hide StepDestroy, StepDiscard, StepAttach, StepAllocate, StepFill, Local;
    if s.threads[t].pc.Idle? {
      BeginDeep(s, t, input);
    } else {
      StepLocal(s, t, input);
    }
  }

  lemma BeginDeep(s: State, t: nat, input: Input)
    requires t < |s.threads| && s.threads[t].pc.Idle?
    ensures var s' := Begin(s, t, input);
            && s'.deep == s.deep && s'.views == s.views && s'.sides == s.sides && s'.bufs == s.bufs
            && |s'.threads| == |s.threads|
  {}

  /** An operation that has ended took effect once if it succeeded and not at all
      if it failed. */
  lemma EffectOnce(arrays: nat, threads: nat, sched: seq<Move>, t: nat)
    requires 0 < arrays && t < threads
    ensures var th := Run(arrays, threads, sched).threads[t];
            th.applied <= 1 && (th.pc.Idle? ==> th.applied == if th.pc.ok then 1 else 0)
  {
    var own := RunInv(arrays, threads, sched);
    Now(Run(arrays, threads, sched), own, t);
  }

  /** The count of each sidecar is the number of arrays that point to it and of
      threads about to point an array to it. */
  lemma RefsAreHolders(arrays: nat, threads: nat, sched: seq<Move>, k: nat)
    requires 0 < arrays
    ensures var s := Run(arrays, threads, sched);
            k in s.sides ==>
              && s.sides[k].refs == |ViewHolders(s, k)| + |ThreadHolders(s, k)|
              && (s.sides[k].refs == 0 ==>
                    exists t :: 0 <= t < threads && s.threads[t].pc.Destroy? && s.threads[t].pc.side == k)
  {
    var own := RunInv(arrays, threads, sched);
    var s := Run(arrays, threads, sched);
    if k in s.sides {
      SideNow(s, own, k);
    }
  }

  /** The thread copies elements out of buffer b. */
  predicate CopiesFrom(s: State, t: nat, b: nat) {
    && t < |s.threads|
    && match s.threads[t].pc
       case Clone(k, _, _) => k in s.sides && s.sides[k].data == b
       case Fill(_) => s.threads[t].op.Copy? && s.threads[t].op.src < |s.views| &&
           s.views[s.threads[t].op.src].data == Some(b)
       case _ => false
  }

  /** A buffer is freed only when no array shows it and nobody copies from it. */
  lemma FreedUnread(s: State, own: Owners, t: nat, input: Input, b: nat)
    requires Inv(s, own) && t < |s.threads| && b in s.bufs
    requires Shaped(s, t) && b !in Step(s, t, input).bufs
    ensures s.threads[t].pc.Destroy? || s.threads[t].pc.Discard?
    ensures forall a :: 0 <= a < |s.views| ==> s.views[a].data != Some(b)
    ensures forall u: nat :: !CopiesFrom(s, u, b)
  {
    FreedOwned(s, own, t, input, b);
    forall a | 0 <= a < |s.views| ensures s.views[a].data != Some(b) {
      AtView(s, own, a);
    }
    forall u: nat ensures !CopiesFrom(s, u, b) {
      if u < |s.threads| {
        NotCopied(s, own, t, b, u);
      }
    }
  }

  lemma FreedOwned(s: State, own: Owners, t: nat, input: Input, b: nat)
    requires Inv(s, own) && t < |s.threads| && b in s.bufs
    requires Shaped(s, t) && b !in Step(s, t, input).bufs
    ensures b in own && own[b] == ByThread(t) && (s.threads[t].pc.Destroy? || s.threads[t].pc.Discard?)
  {
    hide Inv, Exclusive, Settled, ViewOk, Read, Committed, ThenOk, Step;
    Now(s, own, t);
    OnlyThereFreed(s, t, input, b);
  }

  lemma OnlyThereFreed(s: State, t: nat, input: Input, b: nat)
    requires Shaped(s, t) && b in s.bufs && b !in Step(s, t, input).bufs
    ensures match s.threads[t].pc {
              case Destroy(k, _) => k in s.sides && s.sides[k].data == b
              case Discard(buf, _) => buf == b
              case _ => false
            }
  {
    hide Apply, Count, Capacity, Begin, ShapeOutcome, NextPc;
    if s.threads[t].pc.Idle? {
      BeginDeep(s, t, input);
    }
  }

  lemma NotCopied(s: State, own: Owners, t: nat, b: nat, u: nat)
    requires Inv(s, own) && t < |s.threads| && b in own && own[b] == ByThread(t) && u < |s.threads|
    ensures !CopiesFrom(s, u, b)
  {
    hide Inv;
    Now(s, own, u);
    if s.threads[u].pc.Fill? {
      AtView(s, own, s.threads[u].op.src);
    }
  }

  /** A sidecar goes in one of two ways: its last holder takes the buffer over, or
      its count has reached zero and the buffer goes with it. */
  lemma SidecarEnds(s: State, own: Owners, t: nat, input: Input, k: nat)
    requires Inv(s, own) && t < |s.threads| && k in s.sides
    requires Shaped(s, t) && k !in Step(s, t, input).sides
    ensures |Step(s, t, input).views| == |s.views|
    ensures var s', d, b := Step(s, t, input), s.threads[t].op.d, s.sides[k].data;
            if s.threads[t].pc.Prepare?
            then && ViewHolders(s, k) == {d} && ThreadHolders(s, k) == {}
                 && s'.views[d].data == Some(b) && !s'.views[d].link.Side? && s'.bufs == s.bufs
            else && s.threads[t].pc.Destroy? && s.threads[t].pc.side == k && s.sides[k].refs == 0
                 && b in s.bufs && s'.bufs == s.bufs - {b}
  {
    hide Inv, Exclusive, Settled, Read, Committed, ThenOk, Apply, Count, Capacity, Begin, ViewOk, ShapeOutcome, NextPc;
    Now(s, own, t);
    StepSizes(s, t, input);
    if s.threads[t].pc.Idle? {
      BeginDeep(s, t, input);
    }
    if s.threads[t].pc.Prepare? {
      SoleHolder(s, own, k, s.threads[t].op.d);
    }
  }

  /** Nothing is lost: with no operation under way, every live buffer is shown by
      an array, and every sidecar has a holder. */
  lemma NothingLost(arrays: nat, threads: nat, sched: seq<Move>, b: nat)
    requires 0 < arrays
    requires forall t :: 0 <= t < |Run(arrays, threads, sched).threads| ==>
             Run(arrays, threads, sched).threads[t].pc.Idle?
    ensures var s := Run(arrays, threads, sched);
            b in s.bufs ==> exists a :: 0 <= a < arrays && s.views[a].data == Some(b)
  {
    hide Run, Inv;
    var own := RunInv(arrays, threads, sched);
    var s := Run(arrays, threads, sched);
    if b in s.bufs {
      Owned(s, own, b);
      BufNow(s, own, b);
      if own[b].BySide? {
        SideNow(s, own, own[b].k);
        SomeView(s, own, own[b].k);
      }
    }
  }

  lemma Owned(s: State, own: Owners, b: nat)
    requires Inv(s, own) && b in s.bufs
    ensures b in own
  {}

  lemma SomeView(s: State, own: Owners, k: nat)
    requires Inv(s, own) && k in s.sides && forall t :: 0 <= t < |s.threads| ==> s.threads[t].pc.Idle?
    ensures exists a :: 0 <= a < |s.views| && s.views[a].data == Some(s.sides[k].data)
  {
    hide Inv;
    SideNow(s, own, k);
    assert ThreadHolders(s, k) == {};
    var a :| a in ViewHolders(s, k);
    AtView(s, own, a);
  }

  /** A step of one thread never shows through an array that its operation does
      not write. */
  lemma OthersKeepTheirValue(s: State, own: Owners, t: nat, input: Input, a: nat)
    requires Inv(s, own) && t < |s.threads| && a < |s.views| && Shaped(s, t)
    requires |Step(s, t, input).threads| == |s.threads| && a != Step(s, t, input).threads[t].op.d
    requires !s.threads[t].pc.Idle? && Settled(s, a)
    ensures a < |Step(s, t, input).views| && Read(Step(s, t, input), a) == Read(s, a)
  {
    hide Inv, Step, Read;
    var own' := StepKeeps(s, own, t, input);
    var s' := Step(s, t, input);
    StepSizes(s, t, input);
    StepLocal(s, t, input);
    ApplyLocal(s.deep, s.threads[t].op, a);
    SettledReads(s, own, a);
    forall u | 0 <= u < |s'.threads| ensures !Changing(s'.threads[u], a) {}
    SettledReads(s', own', a);
  }

  lemma ApplyLocal(deep: seq<Value>, op: Op, a: nat)
    requires InBounds(|deep|, op) && a < |deep| && a != op.d
    ensures Apply(deep, op)[a] == deep[a]
  {}

  /** The step moves thread t only, and leaves the deep-copy model alone or
      applies the operation of the thread to it. */
  ghost predicate Local(s: State, t: nat, s': State) {
    && t < |s.threads| && |s'.deep| == |s.deep| == |s.views| == |s'.views| && |s'.threads| == |s.threads|
    && s'.threads[t].op == s.threads[t].op && InBounds(|s.deep|, s.threads[t].op)
    && (forall u :: 0 <= u < |s.threads| && u != t ==> s'.threads[u] == s.threads[u])
    && ((s'.deep == s.deep && s'.threads[t].applied == s.threads[t].applied) ||
        (s'.deep == Apply(s.deep, s.threads[t].op) && s'.threads[t].applied == s.threads[t].applied + 1))
  }

  lemma StepLocal(s: State, t: nat, input: Input)
    requires Shaped(s, t) && !s.threads[t].pc.Idle?
    ensures Local(s, t, Step(s, t, input))
  {
    hide Local, Begin, StepShare, StepCompare, StepPrepare, StepClone, StepDetach, StepStore, StepShape, StepRelease;
    hide StepDestroy, StepDiscard, StepAttach, StepAllocate, StepFill;
    match s.threads[t].pc {
      case Share(_) => ShareLocal(s, t, input.spare);
      case Compare => OtherLocal(s, t);
      case Prepare => PrepareLocal(s, t, input.spare);
      case Clone(_, _, _) => CloneLocal(s, t);
      case Detach(_, _) => CloneLocal(s, t);
      case Store => StoreLocal(s, t);
      case Shape => OtherLocal(s, t);
      case Release(_) => ReleaseLocal(s, t);
      case Destroy(_, _) => LetGoLocal(s, t);
      case Discard(_, _) => LetGoLocal(s, t);
      case Attach(_) => LetGoLocal(s, t);
      case Allocate => PrepareLocal(s, t, input.spare);
      case Fill(_) => StoreLocal(s, t);
      case Fault => SameLocal(s, t);
    }
  }

  lemma SameLocal(s: State, t: nat)
    requires Shaped(s, t)
    ensures Local(s, t, s)
  {
    hide Apply, Count, Capacity;
  }

  lemma ShareLocal(s: State, t: nat, spare: nat)
    requires Shaped(s, t) && s.threads[t].pc.Share?
    ensures Local(s, t, StepShare(s, t, spare))
  {
    hide Apply, Count, Capacity;
  }

  lemma OtherLocal(s: State, t: nat)
    requires Shaped(s, t) && (s.threads[t].pc.Compare? || s.threads[t].pc.Shape?)
    ensures s.threads[t].pc.Compare? ==> Local(s, t, StepCompare(s, t))
    ensures s.threads[t].pc.Shape? ==> Local(s, t, StepShape(s, t))
  {
    hide Apply, Count, Capacity;
  }

  lemma PrepareLocal(s: State, t: nat, spare: nat)
    requires Shaped(s, t) && (s.threads[t].pc.Prepare? || s.threads[t].pc.Allocate?)
    ensures s.threads[t].pc.Prepare? ==> Local(s, t, StepPrepare(s, t, spare))
    ensures s.threads[t].pc.Allocate? ==> Local(s, t, StepAllocate(s, t, spare))
  {
    hide Apply, Count, Capacity;
  }

  lemma CloneLocal(s: State, t: nat)
    requires Shaped(s, t) && (s.threads[t].pc.Clone? || s.threads[t].pc.Detach?)
    ensures s.threads[t].pc.Clone? ==> Local(s, t, StepClone(s, t))
    ensures s.threads[t].pc.Detach? ==> Local(s, t, StepDetach(s, t))
  {
    hide Apply, Count, Capacity;
  }

  lemma StoreLocal(s: State, t: nat)
    requires Shaped(s, t) && (s.threads[t].pc.Store? || s.threads[t].pc.Fill?)
    ensures s.threads[t].pc.Store? ==> Local(s, t, StepStore(s, t))
    ensures s.threads[t].pc.Fill? ==> Local(s, t, StepFill(s, t))
  {
    hide Apply, Count, Capacity;
  }

  lemma ReleaseLocal(s: State, t: nat)
    requires Shaped(s, t) && s.threads[t].pc.Release?
    ensures Local(s, t, StepRelease(s, t))
  {
    hide Apply, Count, Capacity;
  }

  lemma LetGoLocal(s: State, t: nat)
    requires Shaped(s, t)
    requires s.threads[t].pc.Destroy? || s.threads[t].pc.Discard? || s.threads[t].pc.Attach?
    ensures s.threads[t].pc.Destroy? ==> Local(s, t, StepDestroy(s, t))
    ensures s.threads[t].pc.Discard? ==> Local(s, t, StepDiscard(s, t))
    ensures s.threads[t].pc.Attach? ==> Local(s, t, StepAttach(s, t))
  {
    hide Apply, Count, Capacity;
  }
}
