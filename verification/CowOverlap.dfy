/**
 What callers owe the copy-on-write protocol: the reference of an array keeps the
 shared buffer alive only while one operation works on that array.
 */
module CowOverlap {
  import opened Basics
  import opened CowArrays
  import opened CowRuns

  /** With overlap a write may also begin while other writes to its array are under way. */
  predicate MayStart(overlap: bool, s: State, op: Op) {
    || MayBegin(s, op)
    || (overlap && op.Write? && InBounds(|s.views|, op) && |s.deep| == |s.views|
        && forall u :: 0 <= u < |s.threads| ==>
             !Reads(s.threads[u], op.d) && (Writes(s.threads[u], op.d) ==> s.threads[u].op.Write?))
  }

  function NextWith(overlap: bool, s: State, m: Move): (s': State)
    ensures |s'.views| == |s.views| && |s'.threads| == |s.threads| && (|s.deep| == |s.views| ==> |s'.deep| == |s.deep|)
  {
    if Shaped(s, m.thread) && s.threads[m.thread].pc.Idle? && MayStart(overlap, s, m.input.op)
    then Start(s, m.thread, m.input.op)
    else Next(s, m)
  }

  function RunWith(overlap: bool, arrays: nat, threads: nat, sched: seq<Move>): (s: State)
    ensures |s.views| == arrays == |s.deep| && |s.threads| == threads
  {
    if sched == [] then Initial(arrays, threads)
    else NextWith(overlap, RunWith(overlap, arrays, threads, sched[..|sched| - 1]), sched[|sched| - 1])
  }

  lemma {:induction false} ApartAsRun(arrays: nat, threads: nat, sched: seq<Move>)
    ensures RunWith(false, arrays, threads, sched) == Run(arrays, threads, sched)
  {
    if sched != [] {
      ApartAsRun(arrays, threads, sched[..|sched| - 1]);
      NextApart(Run(arrays, threads, sched[..|sched| - 1]), sched[|sched| - 1]);
    }
  }

  lemma NextApart(s: State, m: Move)
    ensures NextWith(false, s, m) == Next(s, m)
  {
    hide Start, MayBegin, StepShare, StepCompare, StepPrepare, StepClone, StepDetach, StepStore, StepShape;
    hide StepRelease, StepDestroy, StepDiscard, StepAttach, StepAllocate, StepFill;
  }

  // ------------------------------------------------------- a run that overlaps

  lemma OneMore(sched: seq<Move>, m: Move)
    ensures RunWith(true, 2, 3, sched + [m]) == NextWith(true, RunWith(true, 2, 3, sched), m)
  {
    assert (sched + [m])[..|sched|] == sched;
  }

  const REST := Thread(Free(0), Idle(false), 0)
  const ONE := Value([1], [Blank])
  const MAKE := Init(0, [1])
  const SHARE := Copy(1, 0, true, true)
  const CHANGE := Write(0, 0, Blank, true)

  /** One buffer that both arrays show. */
  const SHOWN := View(Some(0), [1], Side(0))

  function BothShow(a: Thread, b: Thread): State {
    State([SHOWN, SHOWN], map[0 := Sidecar(2, 0, [1])], map[0 := [Blank]], [a, b, REST], [ONE, ONE])
  }

  lemma OneElement()
    ensures Count([1]) == 1 && Capacity([1]) == 1 && Blanks(1) == [Blank]
  {
    assert Product([1]) == 1 * Product([]);
  }

  lemma Made() returns (sched: seq<Move>)
    ensures RunWith(true, 2, 3, sched) ==
            State([View(Some(0), [1], Own), CLEARED], map[], map[0 := [Blank]],
                  [Thread(MAKE, Idle(true), 1), REST, REST], [ONE, EMPTY])
  {
    OneElement();
    var m := Move(0, Input(MAKE, 0));
    OneMore([], m);
    assert RunWith(true, 2, 3, [] + [m]) ==
           State([CLEARED, CLEARED], map[], map[], [Thread(MAKE, Allocate, 0), REST, REST], [EMPTY, EMPTY]);
    sched := [] + [m];
    OneMore(sched, m);
    sched := sched + [m];
  }

  lemma Candidate() returns (sched: seq<Move>)
    ensures RunWith(true, 2, 3, sched) ==
            State([View(Some(0), [1], Own), CLEARED], map[], map[0 := [Blank]],
                  [Thread(SHARE, Share(true), 0), REST, REST], [ONE, EMPTY])
  {
    sched := Made();
    var m := Move(0, Input(SHARE, 0));
    OneMore(sched, m);
    sched := sched + [m];
    assert RunWith(true, 2, 3, sched).threads[0] == Thread(SHARE, Share(false), 0);
    OneMore(sched, m);
    sched := sched + [m];
  }

  lemma Retained() returns (sched: seq<Move>)
    ensures RunWith(true, 2, 3, sched) ==
            State([SHOWN, CLEARED], map[0 := Sidecar(2, 0, [1])], map[0 := [Blank]],
                  [Thread(SHARE, Release(ToAttach(0)), 1), REST, REST], [ONE, ONE])
  {
    sched := Candidate();
    var m := Move(0, Input(SHARE, 0));
    OneMore(sched, m);
    sched := sched + [m];
  }

  lemma MadeAndShared() returns (sched: seq<Move>)
    ensures RunWith(true, 2, 3, sched) == BothShow(Thread(SHARE, Idle(true), 1), REST)
  {
    hide StepShare, StepCompare, StepPrepare, StepClone, StepDetach, StepStore, StepShape, StepAllocate, StepFill;
    hide StepDestroy, StepDiscard, Start;
    sched := Retained();
    var m := Move(0, Input(SHARE, 0));
    OneMore(sched, m);
    sched := sched + [m];
    assert RunWith(true, 2, 3, sched) ==
           State([SHOWN, CLEARED], map[0 := Sidecar(2, 0, [1])], map[0 := [Blank]],
                 [Thread(SHARE, Attach(0), 1), REST, REST], [ONE, ONE]);
    OneMore(sched, m);
    sched := sched + [m];
  }

  /** Two writers of array 0 are about to enter the lock. */
  lemma BothBegin() returns (sched: seq<Move>)
    ensures RunWith(true, 2, 3, sched) == BothShow(Thread(CHANGE, Prepare, 0), Thread(CHANGE, Prepare, 0))
  {
    sched := MadeAndShared();
    OneMore(sched, Move(0, Input(CHANGE, 0)));
    sched := sched + [Move(0, Input(CHANGE, 0))];
    assert RunWith(true, 2, 3, sched) == BothShow(Thread(CHANGE, Prepare, 0), REST);
    OneMore(sched, Move(1, Input(CHANGE, 0)));
    sched := sched + [Move(1, Input(CHANGE, 0))];
  }

  /** Both clone the buffer. */
  function Cloning(a: Thread): State {
    BothShow(a, Thread(CHANGE, Clone(0, 2, 0), 0)).(bufs := map[0 := [Blank], 1 := [Blank], 2 := [Blank]])
  }

  lemma BothClone() returns (sched: seq<Move>)
    ensures RunWith(true, 2, 3, sched) == Cloning(Thread(CHANGE, Clone(0, 1, 0), 0))
  {
    OneElement();
    sched := BothBegin();
    OneMore(sched, Move(0, Input(CHANGE, 1)));
    sched := sched + [Move(0, Input(CHANGE, 1))];
    assert RunWith(true, 2, 3, sched) ==
           BothShow(Thread(CHANGE, Clone(0, 1, 0), 0), Thread(CHANGE, Prepare, 0)).(
             bufs := map[0 := [Blank], 1 := [Blank]]);
    OneMore(sched, Move(1, Input(CHANGE, 2)));
    sched := sched + [Move(1, Input(CHANGE, 2))];
  }

  lemma SameAgain(bufs: map<nat, seq<Elem>>, b: nat)
    requires b in bufs && bufs[b] == [Blank]
    ensures bufs[b := [Blank][0 := Blank]] == bufs
  {
    assert [Blank][0 := Blank] == [Blank];
  }

  lemma OneHasCloned() returns (sched: seq<Move>)
    ensures RunWith(true, 2, 3, sched) == Cloning(Thread(CHANGE, Detach(0, 1), 0))
  {
    hide StepShare, StepCompare, StepStore, StepShape, StepAttach, StepAllocate, StepFill;
    hide StepPrepare, StepDetach, StepRelease, StepDestroy, StepDiscard, Start;
    sched := BothClone();
    var m, bufs := Move(0, Input(CHANGE, 0)), Cloning(REST).bufs;
    OneMore(sched, m);
    sched := sched + [m];
    SameAgain(bufs, 1);
    assert RunWith(true, 2, 3, sched) == Cloning(Thread(CHANGE, Clone(0, 1, 1), 0));
    OneMore(sched, m);
    sched := sched + [m];
  }

  /** The first writer has given the reference of array 0 up. */
  function Detached(refs: nat, c: Thread): State {
    var s := Cloning(Thread(CHANGE, Store, 0));
    s.(views := [View(Some(1), [1], Own), if refs == 0 then CLEARED else SHOWN],
       sides := map[0 := Sidecar(refs, 0, [1])], threads := s.threads[2 := c],
       deep := [ONE, if refs == 0 then EMPTY else ONE])
  }

  lemma OneDetaches() returns (sched: seq<Move>)
    ensures RunWith(true, 2, 3, sched) == Detached(1, REST)
  {
    sched := OneHasCloned();
    OneMore(sched, Move(0, Input(CHANGE, 0)));
    sched := sched + [Move(0, Input(CHANGE, 0))];
  }

  /** Array 1 lets go of the last reference. */
  lemma LastReleases() returns (sched: seq<Move>)
    ensures RunWith(true, 2, 3, sched) == Detached(0, Thread(Free(1), Destroy(0, ToEnd), 1))
  {
    hide StepShare, StepCompare, StepStore, StepShape, StepAttach, StepAllocate, StepFill;
    hide StepPrepare, StepClone, StepDetach;
    sched := OneDetaches();
    var m := Move(2, Input(Free(1), 0));
    OneMore(sched, m);
    sched := sched + [m];
    assert RunWith(true, 2, 3, sched) == Detached(1, Thread(Free(1), Release(ToEnd), 0));
    OneMore(sched, m);
    sched := sched + [m];
  }

  /** The buffer goes with it. */
  lemma BufferGoes() returns (sched: seq<Move>)
    ensures var s := RunWith(true, 2, 3, sched);
            s.threads[1] == Thread(CHANGE, Clone(0, 2, 0), 0) && s.sides == map[]
  {
    sched := LastReleases();
    var m := Move(2, Input(Free(1), 0));
    OneMore(sched, m);
    sched := sched + [m];
  }

  /** Memory is safe under every schedule exactly when writes to one array do not overlap:
      the second look at the storage field comes too late for a writer whose buffer has
      gone while it was cloning. */
  lemma SafeExactlyApart(overlap: bool)
    ensures !overlap <==>
              forall arrays: nat, threads: nat, sched, t: nat ::
                0 < arrays && t < threads ==> !RunWith(overlap, arrays, threads, sched).threads[t].pc.Fault?
  {
    if overlap {
      var sched := BufferGoes();
      var m := Move(1, Input(CHANGE, 0));
      OneMore(sched, m);
      assert RunWith(true, 2, 3, sched + [m]).threads[1].pc == Fault;
    } else {
      forall arrays: nat, threads: nat, sched, t: nat | 0 < arrays && t < threads
        ensures !RunWith(false, arrays, threads, sched).threads[t].pc.Fault?
      {
        ApartAsRun(arrays, threads, sched);
        NeverFaults(arrays, threads, sched, t);
      }
    }
  }
}
