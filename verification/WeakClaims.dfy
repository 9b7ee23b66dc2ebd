/**
 What a weak compare-and-swap does to the answer INVALID: a task that nothing waits for
 and that waits for nothing can be skipped by every thread.
 */
module WeakClaims {
  import opened Basics
  import opened Dispatch
  import opened DispatchInvariant
  import opened DispatchSafety
  import opened DispatchProgress
  import Q = SerialEquivalence
  import X = SerialExact

  /** The task has no edge to or from another one. */
  ghost predicate Isolated(c: Config, y: nat) {
    y < |c.dep| && c.dep[y] == {} && forall j :: 0 <= j < |c.dep| ==> y !in c.dep[j]
  }

  lemma {:induction false} ReachesNone(c: Config, y: nat, j: nat)
    requires ValidConfig(c) && Isolated(c, y)
    ensures !Q.Reaches(c.dep, y, j)
    decreases j
  {
    if Q.Reaches(c.dep, y, j) {
      var k :| k in c.dep[j] && k < j && Q.Reaches(c.dep, y, k);
      ReachesNone(c, y, k);
    }
  }

  /** Only thread 0 has moved, and the task is still there for it to take. */
  ghost predicate Spared(c: Config, s: State, y: nat) {
    && Shape(c, s) && y < |c.dep| && s.status[y] == Available
    && forall t :: 0 < t < c.threads ==> s.pcs[t] == Get(None)
  }

  lemma MoveOn(c: Config, sched: seq<Move>, v: View, m: Move) returns (v': View)
    requires ValidConfig(c) && Legal(c, sched) && Inv(c, Run(c, sched), v) && LegalMove(c, m)
    ensures Legal(c, sched + [m]) && Inv(c, Run(c, sched + [m]), v') && Shape(c, Run(c, sched))
    ensures Run(c, sched + [m]) == Step(c, Run(c, sched), m.thread, m.spurious)
  {
    hide Inv, Step;
    RunAfter(c, sched, m);
    v' := NextKeeps(c, Run(c, sched), v, m);
    Bounds(c, Run(c, sched), v, m.thread);
  }

  /** A step of thread 0 while it has work in hand. */
  lemma BusyMove(c: Config, s: State, v: View, y: nat)
    requires ValidConfig(c) && Inv(c, s, v) && Spared(c, s, y) && !Idle(s.pcs[0])
    ensures var s' := Step(c, s, 0, false);
            && |s'.status| == |c.dep| && |s'.pcs| == c.threads && s'.status[y] == Available
            && (forall t :: 0 < t < c.threads ==> s'.pcs[t] == Get(None))
            && !s'.pcs[0].Scan? && !s'.pcs[0].Claim? && !s'.pcs[0].Stopped?
  {
    WriterFacts(c, s, v, 0);
    hide Inv, Step;
    BusyPc(c, s);
    BusyStatus(c, s, y);
  }

  lemma BusyPc(c: Config, s: State)
    requires ValidConfig(c) && Shape(c, s) && !Idle(s.pcs[0])
    ensures var s' := Step(c, s, 0, false);
            && |s'.pcs| == c.threads && (forall t :: 0 < t < c.threads ==> s'.pcs[t] == s.pcs[t])
            && !s'.pcs[0].Scan? && !s'.pcs[0].Claim? && !s'.pcs[0].Stopped?
  {
    hide Start, ScanPc, AfterScan;
  }

  lemma BusyStatus(c: Config, s: State, y: nat)
    requires ValidConfig(c) && Shape(c, s) && !Idle(s.pcs[0]) && y < |c.dep| && s.status[y] == Available
    requires s.pcs[0].Get? && s.pcs[0].next.Some? ==> s.status[s.pcs[0].next.value] == Waiting
    requires s.pcs[0].Release? ==> s.status[s.pcs[0].j] == Waiting
    requires s.pcs[0].Work? ==> s.status[s.pcs[0].task] == InProgress
    ensures var s' := Step(c, s, 0, false); |s'.status| == |c.dep| && s'.status[y] == Available
  {
    hide Start, ScanPc, AfterScan, SeekPc, LookPc, NotifyPc;
  }

  /** Where a look of thread 0 at task i leads. */
  lemma LookLeads(c: Config, s: State, i: nat, w: nat)
    requires ValidConfig(c) && Shape(c, s) && i < |c.dep|
    ensures var pc := ScanPc(c, s, 0, i, w);
            && InRange(c, s, pc) && Hand(pc) == [] && LocalWork(c, s.watch, pc) == 0
            && (s.status[i] == Available ==> pc == Claim(i, w))
            && (s.status[i] == Done ==> pc == AfterScan(c, 0, i, w))
            && (s.status[i] != Available ==> exists w' :: pc == AfterScan(c, 0, i, w'))
  {
    if s.status[i] == Waiting {
      assert ScanPc(c, s, 0, i, w) == AfterScan(c, 0, i, w + 1);
    } else if s.status[i] != Available {
      assert ScanPc(c, s, 0, i, w) == AfterScan(c, 0, i, w);
    }
  }

  /** A look of thread 0 at task i. */
  lemma LookMove(c: Config, s: State, v: View, y: nat, i: nat, w: nat)
    requires ValidConfig(c) && Inv(c, s, v) && Spared(c, s, y) && s.pcs[0] == Scan(i, w)
    ensures i < |c.dep| && Start(c, 0) == 0
    ensures var s' := Step(c, s, 0, false);
            && Spared(c, s', y) && s'.status == s.status && LoadOf(c, s') == LoadOf(c, s)
            && (s.status[i] == Available ==> s'.pcs[0] == Claim(i, w))
            && (s.status[i] == Done ==> s'.pcs[0] == AfterScan(c, 0, i, w))
            && (s.status[i] != Available ==> exists w' :: s'.pcs[0] == AfterScan(c, 0, i, w'))
  {
    hide Inv, LoadOf, ScanPc, AfterScan;
    Bounds(c, s, v, 0);
    LookLeads(c, s, i, w);
    LocalMove(c, s, 0, ScanPc(c, s, 0, i, w));
  }

  /** Its compare-and-swap fails. */
  lemma SpareMove(c: Config, s: State, v: View, y: nat, i: nat, w: nat)
    requires ValidConfig(c) && c.weak && Inv(c, s, v) && Spared(c, s, y) && s.pcs[0] == Claim(i, w)
    ensures i < |c.dep|
    ensures var s' := Step(c, s, 0, true);
            Spared(c, s', y) && s' == At(s, 0, AfterScan(c, 0, i, w)) && LoadOf(c, s') == LoadOf(c, s)
  {
    hide LoadOf;
    Bounds(c, s, v, 0);
    StepShape(c, s, v, 0, true);
    hide Inv;
    LocalMove(c, s, 0, AfterScan(c, 0, i, w));
  }

  /** Its compare-and-swap succeeds. */
  lemma TakeMove(c: Config, s: State, v: View, y: nat, i: nat, w: nat)
    requires ValidConfig(c) && Inv(c, s, v) && Spared(c, s, y) && s.pcs[0] == Claim(i, w) && i != y
    requires i < |s.status| && s.status[i] == Available
    ensures var s' := Step(c, s, 0, false);
            Spared(c, s', y) && s'.pcs[0] == Work(i, 0) && Lighter(LoadOf(c, s'), LoadOf(c, s))
  {
    hide LoadOf, Lighter;
    Bounds(c, s, v, 0);
    StepShape(c, s, v, 0, false);
    hide Inv;
    TaskWrite(c, s, Step(c, s, 0, false), i);
  }

  /** The scan has not yet come to task x, which can be taken; it takes that or an earlier
      one, but never the spared one. */
  lemma {:induction false} ScanTake(c: Config, sched: seq<Move>, v: View, y: nat, x: nat, i: nat, w: nat)
    returns (sched': seq<Move>, v': View)
    requires ValidConfig(c) && c.weak && Legal(c, sched) && Inv(c, Run(c, sched), v) && Spared(c, Run(c, sched), y)
    requires i <= x < |c.dep| && x != y && Run(c, sched).status[x] == Available && Run(c, sched).pcs[0] == Scan(i, w)
    ensures Legal(c, sched') && Inv(c, Run(c, sched'), v') && Spared(c, Run(c, sched'), y)
    ensures !Idle(Run(c, sched').pcs[0]) && Lighter(LoadOf(c, Run(c, sched')), LoadOf(c, Run(c, sched)))
    decreases |c.dep| - i
  {
    hide Inv, Step, Run, LoadOf, Legal;
    var s := Run(c, sched);
    LookMove(c, s, v, y, i, w);
    sched' := sched + [Move(0, false)];
    v' := MoveOn(c, sched, v, Move(0, false));
    if s.status[i] != Available {
      var w' :| Run(c, sched').pcs[0] == AfterScan(c, 0, i, w');
      sched', v' := ScanTake(c, sched', v', y, x, i + 1, w');
    } else if i == y {
      SpareMove(c, Run(c, sched'), v', y, i, w);
      var one := sched';
      sched' := one + [Move(0, true)];
      v' := MoveOn(c, one, v', Move(0, true));
      sched', v' := ScanTake(c, sched', v', y, x, i + 1, w);
    } else {
      TakeMove(c, Run(c, sched'), v', y, i, w);
      var one := sched';
      sched' := one + [Move(0, false)];
      v' := MoveOn(c, one, v', Move(0, false));
    }
  }

  /** With everything else done the scan finds nothing, meets no waiting task, and thread 0
      is told that there is nothing more to do. */
  lemma {:induction false} ScanOut(c: Config, sched: seq<Move>, v: View, y: nat, i: nat) returns (sched': seq<Move>)
    requires ValidConfig(c) && c.weak && Legal(c, sched) && Inv(c, Run(c, sched), v) && Spared(c, Run(c, sched), y)
    requires Run(c, sched).pcs[0] == Scan(i, 0)
    requires forall x :: 0 <= x < |c.dep| && x != y ==> Run(c, sched).status[x] == Done
    ensures Legal(c, sched') && LeftTooEarly(c, Run(c, sched'))
    decreases |c.dep| - i
  {
    hide Inv, Step, Run, LoadOf, Legal;
    var s := Run(c, sched);
    LookMove(c, s, v, y, i, 0);
    sched' := sched + [Move(0, false)];
    var v' := MoveOn(c, sched, v, Move(0, false));
    if i == y {
      SpareMove(c, Run(c, sched'), v', y, i, 0);
      var one := sched';
      sched' := one + [Move(0, true)];
      v' := MoveOn(c, one, v', Move(0, true));
    }
    if i + 1 == |c.dep| {
      assert Run(c, sched').pcs[0] == Stopped && !Claimed(Run(c, sched').status[y]);
    } else {
      sched' := ScanOut(c, sched', v', y, i + 1);
    }
  }

  /** Thread 0 does all other tasks alone and then leaves. */
  lemma {:induction false} LeavesOne(c: Config, sched: seq<Move>, v: View, y: nat) returns (sched': seq<Move>)
    requires ValidConfig(c) && c.weak && Isolated(c, y) && Legal(c, sched) && Inv(c, Run(c, sched), v)
    requires Spared(c, Run(c, sched), y) && (Run(c, sched).pcs[0] == Get(None) || !Idle(Run(c, sched).pcs[0]))
    ensures Legal(c, sched') && LeftTooEarly(c, Run(c, sched'))
    decreases LoadOf(c, Run(c, sched)).tasks, LoadOf(c, Run(c, sched)).nodes, LoadOf(c, Run(c, sched)).local
  {
    hide Inv, Step, Run, LoadOf, Legal, LeftTooEarly;
    var s := Run(c, sched);
    sched' := sched + [Move(0, false)];
    var v' := MoveOn(c, sched, v, Move(0, false));
    if !Idle(s.pcs[0]) {
      BusyMove(c, s, v, y);
      BusyStep(c, s, v, 0);
      sched' := LeavesOne(c, sched', v', y);
    } else {
      StartMove(c, s, v, y);
      var s' := Run(c, sched');
      if x: nat :| x < |c.dep| && x != y && s'.status[x] != Done {
        ReachesNone(c, y, x);
        var z := X.AvailableBeside(c, s', v', y, x);
        sched', v' := ScanTake(c, sched', v', y, z, 0, 0);
        sched' := LeavesOne(c, sched', v', y);
      } else {
        sched' := ScanOut(c, sched', v', y, 0);
      }
    }
  }

  /** The scan of thread 0 begins at task 0. */
  lemma StartMove(c: Config, s: State, v: View, y: nat)
    requires ValidConfig(c) && Inv(c, s, v) && Spared(c, s, y) && s.pcs[0] == Get(None)
    ensures var s' := Step(c, s, 0, false);
            Spared(c, s', y) && s'.status == s.status && s'.pcs[0] == Scan(0, 0) && LoadOf(c, s') == LoadOf(c, s)
  {
    hide LoadOf;
    StepShape(c, s, v, 0, false);
    hide Inv;
    assert Start(c, 0) == 0;
    LocalMove(c, s, 0, Scan(0, 0));
  }

  /** For a graph with an isolated task, whatever the rest of it, a thread can be told
      INVALID while a task is unclaimed exactly when the compare-and-swap may fail
      spuriously: the code asks for the weak form, so on such hardware a task can be left
      for nobody. */
  lemma InvalidIsTrustedIffStrong(c: Config, y: nat)
    requires ValidConfig(c) && Isolated(c, y)
    ensures c.weak <==> exists sched :: Legal(c, sched) && LeftTooEarly(c, Run(c, sched))
  {
    hide Inv, Step, LeftTooEarly;
    if c.weak {
      var v := InitialInv(c);
      Bounds(c, Initial(c), v, 0);
      assert Spared(c, Initial(c), y) && Run(c, []) == Initial(c);
      var sched := LeavesOne(c, [], v, y);
    } else {
      forall sched | Legal(c, sched) ensures !LeftTooEarly(c, Run(c, sched)) {
        InvalidMeansClaimed(c, sched);
      }
    }
  }
}
