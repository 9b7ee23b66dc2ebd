/**
 Progress of the dispatcher: under a strong CAS every fair run finishes every
 task.  The measure is lexicographic: statuses and open lists, watch nodes in
 hand, local work of the threads, distance of a scan from an available task.
 */
module DispatchProgress {
  import opened Basics
  import opened Dispatch
  import opened DispatchInvariant
  import opened DispatchSafety

  // --------------------------------------------------------------- measure

  function Sum(w: seq<nat>): nat {
    if w == [] then 0 else Sum(w[..|w| - 1]) + w[|w| - 1]
  }

  lemma {:induction false} SumUpdate(w: seq<nat>, i: nat, x: nat)
    requires i < |w|
    ensures Sum(w[i := x]) + w[i] == Sum(w) + x
  {
    var u := w[i := x];
    var last := |w| - 1;
    if i < last {
      SumUpdate(w[..last], i, x);
      assert u[..last] == w[..last][i := x];
    } else {
      assert u[..last] == w[..last];
    }
  }

  function TaskWeight(st: Status, w: Watch): nat {
    Rank(st) + if w.Open? then 1 else 0
  }

  ghost function TaskWeights(s: State): seq<nat>
    requires |s.status| == |s.watch|
  {
    seq(|s.status|, i requires 0 <= i < |s.status| => TaskWeight(s.status[i], s.watch[i]))
  }

  ghost function HandSizes(s: State): seq<nat> {
    seq(|s.pcs|, t requires 0 <= t < |s.pcs| => |Hand(s.pcs[t])|)
  }

  /** A bound on the work left for the watchers still to be walked. */
  function NodeWork(rest: seq<nat>): nat {
    if rest == [] then 0 else 8 * rest[0] + 12 + NodeWork(rest[1..])
  }

  /** The turns left in the two search loops. */
  function TurnsLeft(again: bool, j: nat, k: nat): nat
    requires k <= j
  {
    if again then j - k + 1 else j - k + j + 2
  }

  /** The local work left; a CAS that is bound to fail counts more than the
      read that will follow it. */
  function LocalWork(c: Config, watch: seq<Watch>, pc: Pc): nat
    requires |watch| == |c.dep| == |c.work|
    requires pc.Seek? || pc.Look? || pc.Push? ==> pc.k <= pc.j < |c.dep|
    requires pc.Work? || pc.Swap? ==> pc.task < |c.dep|
  {
    match pc
    case Work(i, r) => if r < c.work[i] then c.work[i] - r else 0
    case Close(_) => 2
    case Swap(i, seen) => if watch[i] == Open(seen) then 1 else 3
    case Notify(rest, _) => 1 + NodeWork(rest)
    case Seek(again, j, k, _, rest, _) => 4 * TurnsLeft(again, j, k) + 2 + NodeWork(rest)
    case Look(again, j, k, _, rest, _) => 4 * TurnsLeft(again, j, k) + 1 + NodeWork(rest)
    case Push(again, j, k, _, seen, rest, _) =>
      4 * TurnsLeft(again, j, k) + (if watch[k] == Open(seen) then 0 else 2) + NodeWork(rest)
    case Release(_, rest, _) => 2 + NodeWork(rest)
    case _ => 0
  }

  ghost function LocalWorks(c: Config, s: State): seq<nat>
    requires ValidConfig(c) && Shape(c, s)
  {
    seq(|s.pcs|, t requires 0 <= t < |s.pcs| =>
      assert InRange(c, s, s.pcs[t]); LocalWork(c, s.watch, s.pcs[t]))
  }

  /** Statuses and open lists, nodes in hand, local work. */
  datatype Load = Load(tasks: nat, nodes: nat, local: nat)

  ghost function LoadOf(c: Config, s: State): Load
    requires ValidConfig(c) && Shape(c, s)
  {
    Load(Sum(TaskWeights(s)), Sum(HandSizes(s)), Sum(LocalWorks(c, s)))
  }

  ghost predicate Lighter(a: Load, b: Load) {
    a.tasks < b.tasks
    || (a.tasks == b.tasks && a.nodes < b.nodes)
    || (a.tasks == b.tasks && a.nodes == b.nodes && a.local < b.local)
  }

  /** A thread that only looks for work. */
  predicate Idle(pc: Pc) {
    pc == Get(None) || pc.Scan? || pc.Claim? || pc.Stopped?
  }

  // ------------------------------------------------- each step and the load

  /** A write to one task's status or list. */
  lemma TaskWrite(c: Config, s: State, s': State, i: nat)
    requires ValidConfig(c) && Shape(c, s) && Shape(c, s') && i < |c.dep|
    requires s'.status == s.status[i := s'.status[i]] && s'.watch == s.watch[i := s'.watch[i]]
    requires TaskWeight(s'.status[i], s'.watch[i]) < TaskWeight(s.status[i], s.watch[i])
    ensures Lighter(LoadOf(c, s'), LoadOf(c, s))
  {
    SumUpdate(TaskWeights(s), i, TaskWeight(s'.status[i], s'.watch[i]));
    assert TaskWeights(s') == TaskWeights(s)[i := TaskWeight(s'.status[i], s'.watch[i])];
  }

  /** A watcher leaves the hand of t for a list that stays open. */
  lemma NodeHung(c: Config, s: State, s': State, t: nat, k: nat)
    requires ValidConfig(c) && Shape(c, s) && Shape(c, s') && t < c.threads && k < |c.dep|
    requires s'.status == s.status && s'.pcs == s.pcs[t := s'.pcs[t]]
    requires s.watch[k].Open? && s'.watch[k].Open? && s'.watch == s.watch[k := s'.watch[k]]
    requires |Hand(s'.pcs[t])| < |Hand(s.pcs[t])|
    ensures Lighter(LoadOf(c, s'), LoadOf(c, s))
  {
    assert TaskWeights(s') == TaskWeights(s);
    SumUpdate(HandSizes(s), t, |Hand(s'.pcs[t])|);
    assert HandSizes(s') == HandSizes(s)[t := |Hand(s'.pcs[t])|];
  }

  /** A step that touches nothing shared. */
  lemma LocalMove(c: Config, s: State, t: nat, pc: Pc)
    requires ValidConfig(c) && Shape(c, s) && t < c.threads && InRange(c, s, pc)
    requires |Hand(pc)| == |Hand(s.pcs[t])|
    ensures InRange(c, s, s.pcs[t]) && Shape(c, At(s, t, pc))
    ensures var s' := At(s, t, pc);
            && LoadOf(c, s').tasks == LoadOf(c, s).tasks && LoadOf(c, s').nodes == LoadOf(c, s).nodes
            && LoadOf(c, s').local + LocalWork(c, s.watch, s.pcs[t]) ==
               LoadOf(c, s).local + LocalWork(c, s.watch, pc)
  {
    var s' := At(s, t, pc);
    ShapeAfter(c, s, s', t);
    assert TaskWeights(s') == TaskWeights(s);
    assert HandSizes(s') == HandSizes(s);
    SumUpdate(LocalWorks(c, s), t, LocalWork(c, s.watch, pc));
    assert LocalWorks(c, s') == LocalWorks(c, s)[t := LocalWork(c, s.watch, pc)];
  }

  /** One turn of the search, or the return to the walk, is less work. */
  lemma SeekLess(c: Config, s: State, pc: Pc)
    requires ValidConfig(c) && Shape(c, s) && InRange(c, s, pc) && pc.Seek?
    ensures InRange(c, s, SeekPc(c, s, pc))
    ensures LocalWork(c, s.watch, SeekPc(c, s, pc)) < LocalWork(c, s.watch, pc)
  {}

  lemma LookLess(c: Config, s: State, pc: Pc)
    requires ValidConfig(c) && Shape(c, s) && InRange(c, s, pc) && pc.Look?
    ensures InRange(c, s, LookPc(s, pc))
    ensures LocalWork(c, s.watch, LookPc(s, pc)) < LocalWork(c, s.watch, pc)
  {}

  lemma NotifyLess(c: Config, s: State, rest: seq<nat>, next: Option<nat>)
    requires ValidConfig(c) && Shape(c, s)
    requires forall x <- Listed(next) + rest :: x < |c.dep|
    ensures InRange(c, s, NotifyPc(rest, next))
    ensures LocalWork(c, s.watch, NotifyPc(rest, next)) < 1 + NodeWork(rest)
  {
    NotifyLearns(c, s, rest, next);
  }

  /** The load of a local step of a thread that is at work. */
  lemma LocalStepLighter(c: Config, s: State, v: View, t: nat)
    requires ValidConfig(c) && Inv(c, s, v) && t < c.threads
    requires s.pcs[t].Close? || s.pcs[t].Notify? || s.pcs[t].Seek? || s.pcs[t].Look?
    ensures Shape(c, s) && Shape(c, Step(c, s, t, false))
    ensures Lighter(LoadOf(c, Step(c, s, t, false)), LoadOf(c, s))
  {
    hide Inv, SeekPc, LookPc, NotifyPc;
    Bounds(c, s, v, t);
    var pc := s.pcs[t];
    match pc
    case Close(i) =>
      LocalMove(c, s, t, Swap(i, s.watch[i].watchers));
    case Notify(rest, next) =>
      HandBounds(c, s, v, t);
      assert Hand(pc) == Listed(next) + rest;
      NotifyLess(c, s, rest, next);
      NotifyLearns(c, s, rest, next);
      LocalMove(c, s, t, NotifyPc(rest, next));
    case Seek(_, _, _, _, _, _) =>
      SeekLess(c, s, pc);
      SoughtAt(c, s, v, t);
      SeekLearns(c, s, pc);
      LocalMove(c, s, t, SeekPc(c, s, pc));
    case Look(_, _, _, _, _, _) =>
      LookLess(c, s, pc);
      assert |Hand(LookPc(s, pc))| == |Hand(pc)| by { LookHand(s, pc); }
      LocalMove(c, s, t, LookPc(s, pc));
  }

  lemma SoughtAt(c: Config, s: State, v: View, t: nat)
    requires ValidConfig(c) && Inv(c, s, v) && t < c.threads
    ensures InRange(c, s, s.pcs[t]) && Sought(c, s, s.pcs[t])
  {}

  lemma LookHand(s: State, pc: Pc)
    requires pc.Look? && pc.k < |s.watch|
    ensures Hand(LookPc(s, pc)) == Hand(pc)
  {}

  /** The load of a step that starts or ends a task or closes a list. */
  lemma TaskStepLighter(c: Config, s: State, v: View, t: nat)
    requires ValidConfig(c) && Inv(c, s, v) && t < c.threads
    requires (s.pcs[t].Get? && s.pcs[t].next.Some?) || s.pcs[t].Work? || s.pcs[t].Swap?
    ensures Shape(c, s) && Shape(c, Step(c, s, t, false))
    ensures Lighter(LoadOf(c, Step(c, s, t, false)), LoadOf(c, s))
  {
    hide Inv, Lighter, LoadOf;
    Bounds(c, s, v, t);
    WriterFacts(c, s, v, t);
    var s' := Step(c, s, t, false);
    StepShape(c, s, v, t, false);
    var pc := s.pcs[t];
    match pc
    case Get(next) => TaskWrite(c, s, s', next.value);
    case Work(i, r) =>
      if r < c.work[i] {
        LocalMove(c, s, t, Work(i, r + 1));
        LocalLess(LoadOf(c, s'), LoadOf(c, s));
      } else {
        TaskWrite(c, s, s', i);
      }
    case Swap(i, seen) =>
      if s.watch[i] == Open(seen) {
        TaskWrite(c, s, s', i);
      } else {
        LocalMove(c, s, t, Close(i));
        LocalLess(LoadOf(c, s'), LoadOf(c, s));
      }
  }

  lemma LocalLess(a: Load, b: Load)
    requires a.tasks == b.tasks && a.nodes == b.nodes && a.local < b.local
    ensures Lighter(a, b)
  {}

  lemma StepShape(c: Config, s: State, v: View, t: nat, spurious: bool)
    requires ValidConfig(c) && Inv(c, s, v) && t < c.threads && (spurious ==> c.weak)
    ensures Shape(c, s) && Shape(c, Step(c, s, t, spurious))
  {
    var v' := StepKeeps(c, s, v, t, spurious);
  }

  /** The load of a step that places a watcher. */
  lemma WatchStepLighter(c: Config, s: State, v: View, t: nat)
    requires ValidConfig(c) && Inv(c, s, v) && t < c.threads
    requires s.pcs[t].Push? || s.pcs[t].Release?
    ensures Shape(c, s) && Shape(c, Step(c, s, t, false))
    ensures Lighter(LoadOf(c, Step(c, s, t, false)), LoadOf(c, s))
  {
    hide Inv, Lighter, LoadOf;
    Bounds(c, s, v, t);
    WriterFacts(c, s, v, t);
    var s' := Step(c, s, t, false);
    StepShape(c, s, v, t, false);
    match s.pcs[t]
    case Push(again, j, k, wait, seen, rest, next) =>
      if s.watch[k] == Open(seen) {
        NodeHung(c, s, s', t, k);
      } else {
        LocalMove(c, s, t, Look(again, j, k, wait, rest, next));
        LocalLess(LoadOf(c, s'), LoadOf(c, s));
      }
    case Release(j, rest, next) =>
      TaskWrite(c, s, s', j);
  }

  /** Every step of a thread that has something to do lowers the load. */
  lemma BusyStep(c: Config, s: State, v: View, t: nat)
    requires ValidConfig(c) && Inv(c, s, v) && t < c.threads && !Idle(s.pcs[t])
    ensures Shape(c, s) && Shape(c, Step(c, s, t, false))
    ensures Lighter(LoadOf(c, Step(c, s, t, false)), LoadOf(c, s))
  {
    hide Inv, Lighter, Step, LoadOf;
    Bounds(c, s, v, t);
    match s.pcs[t]
    case Close(_) => LocalStepLighter(c, s, v, t);
    case Notify(_, _) => LocalStepLighter(c, s, v, t);
    case Seek(_, _, _, _, _, _) => LocalStepLighter(c, s, v, t);
    case Look(_, _, _, _, _, _) => LocalStepLighter(c, s, v, t);
    case Push(_, _, _, _, _, _, _) => WatchStepLighter(c, s, v, t);
    case Release(_, _, _) => WatchStepLighter(c, s, v, t);
    case _ => TaskStepLighter(c, s, v, t);
  }

  /** A step of an idle thread starts a task or changes nothing shared. */
  lemma IdleStep(c: Config, s: State, v: View, t: nat)
    requires ValidConfig(c) && Inv(c, s, v) && t < c.threads && Idle(s.pcs[t])
    ensures Shape(c, s) && Shape(c, Step(c, s, t, false))
    ensures var s' := Step(c, s, t, false);
            || Lighter(LoadOf(c, s'), LoadOf(c, s))
            || (s' == At(s, t, s'.pcs[t]) && Idle(s'.pcs[t]) && LoadOf(c, s') == LoadOf(c, s))
  {
    hide Inv, Lighter, LoadOf;
    Bounds(c, s, v, t);
    StepShape(c, s, v, t, false);
    var s' := Step(c, s, t, false);
    var pc := s.pcs[t];
    if pc.Claim? && s.status[pc.i] == Available {
      TaskWrite(c, s, s', pc.i);
    } else if pc.Stopped? {
      assert s' == At(s, t, Stopped);
    } else {
      LocalMove(c, s, t, s'.pcs[t]);
    }
  }

  // ------------------------------------------- when every thread is looking

  ghost predicate AllDone(s: State) {
    forall x :: 0 <= x < |s.status| ==> s.status[x] == Done
  }

  ghost predicate AllIdle(s: State) {
    forall t :: 0 <= t < |s.pcs| ==> Idle(s.pcs[t])
  }

  /** The number of tasks a cyclic scan from first passes before it reaches i. */
  function Slot(n: nat, first: nat, i: nat): nat
    requires first < n && i < n
  {
    if first <= i then i - first else i + n - first
  }

  /** Steps until an idle thread claims task i, if nothing else happens. */
  function Distance(c: Config, t: nat, pc: Pc, i: nat): nat
    requires ValidConfig(c) && t < c.threads && i < |c.dep|
    requires pc.Scan? || pc.Claim? ==> pc.i < |c.dep|
  {
    var n, first := |c.dep|, Start(c, t);
    var goal := Slot(n, first, i);
    match pc
    case Scan(p, _) =>
      var at := Slot(n, first, p);
      if at <= goal then 2 * (goal - at) + 2 else 2 * (n - at) + 2 * goal + 5
    case Claim(p, _) =>
      var at := Slot(n, first, p);
      if at <= goal then 2 * (goal - at) + 1 else 2 * (n - at) + 2 * goal + 4
    case _ => 2 * goal + 3
  }

  /** If all threads only look for work and some task is not done, then the
      first such task is available. */
  lemma {:induction false} SomethingAvailable(c: Config, s: State, v: View, n: nat) returns (i: nat)
    requires ValidConfig(c) && Inv(c, s, v) && AllIdle(s)
    requires n <= |c.dep| && exists x :: 0 <= x < n && s.status[x] != Done
    ensures i < |c.dep| && s.status[i] == Available
  {
    if x :| 0 <= x < n - 1 && s.status[x] != Done {
      i := SomethingAvailable(c, s, v, n - 1);
    } else {
      i := n - 1;
      assert forall t :: 0 <= t < c.threads ==> Hand(s.pcs[t]) == [] && Busy(s.pcs[t]).None?;
      assert Accounted(s, v.loc[i], i);
    }
  }

  /** A scan gets one step nearer to an available task, or starts some task. */
  lemma ScanNearer(c: Config, s: State, v: View, t: nat, i: nat)
    requires ValidConfig(c) && Inv(c, s, v) && !c.weak && t < c.threads
    requires i < |c.dep| && s.status[i] == Available && Idle(s.pcs[t])
    requires !(s.pcs[t].Claim? && s.status[s.pcs[t].i] == Available)
    ensures var pc, pc' := s.pcs[t], Step(c, s, t, false).pcs[t];
            && (pc.Scan? || pc.Claim? ==> pc.i < |c.dep|) && (pc'.Scan? || pc'.Claim? ==> pc'.i < |c.dep|)
            && pc' != Stopped
            && Distance(c, t, pc', i) < Distance(c, t, pc, i)
  {
    hide Inv;
    Bounds(c, s, v, t);
    NotStopped(c, s, v, t, i);
    var v' := StepKeeps(c, s, v, t, false);
    NotStopped(c, Step(c, s, t, false), v', t, i);
  }

  lemma NotStopped(c: Config, s: State, v: View, t: nat, i: nat)
    requires ValidConfig(c) && Inv(c, s, v) && !c.weak && t < c.threads
    requires i < |s.status| && s.status[i] == Available
    ensures s.pcs[t] != Stopped
  {
    assert SeenClaimed(c, s, t, s.pcs[t]);
  }

  // -------------------------------------------------------------- fair runs

  /** The state after i steps when step number j is taken by thread sigma(j). */
  ghost function FairState(c: Config, sigma: nat -> nat, i: nat): State
    requires ValidConfig(c)
  {
    if i == 0 then Initial(c) else Next(c, FairState(c, sigma, i - 1), Move(sigma(i - 1), false))
  }

  /** Thread t moves at step i or later. */
  ghost predicate MovesFrom(sigma: nat -> nat, i: nat, t: nat) {
    exists j: nat :: i <= j && sigma(j) == t
  }

  /** Every thread moves again and again. */
  ghost predicate Fair(c: Config, sigma: nat -> nat) {
    && (forall i: nat :: sigma(i) < c.threads)
    && (forall t: nat, i: nat :: t < c.threads ==> MovesFrom(sigma, i, t))
  }

  lemma FairStep(c: Config, sigma: nat -> nat, i: nat, v: View) returns (v': View)
    requires ValidConfig(c) && Fair(c, sigma) && Inv(c, FairState(c, sigma, i), v)
    ensures Inv(c, FairState(c, sigma, i + 1), v')
    ensures FairState(c, sigma, i + 1) == Step(c, FairState(c, sigma, i), sigma(i), false)
  {
    hide Inv, Step;
    v' := NextKeeps(c, FairState(c, sigma, i), v, Move(sigma(i), false));
  }

  /** A thread with something to do keeps it until the load has dropped. */
  lemma {:induction false} WaitForBusy(c: Config, sigma: nat -> nat, i: nat, v: View, h: nat, j: nat)
    returns (k: nat, v': View)
    requires ValidConfig(c) && Fair(c, sigma) && Inv(c, FairState(c, sigma, i), v)
    requires h < c.threads && !Idle(FairState(c, sigma, i).pcs[h]) && i <= j && sigma(j) == h
    ensures i < k && Inv(c, FairState(c, sigma, k), v')
    ensures Shape(c, FairState(c, sigma, i)) && Shape(c, FairState(c, sigma, k))
    ensures Lighter(LoadOf(c, FairState(c, sigma, k)), LoadOf(c, FairState(c, sigma, i)))
    decreases j - i
  {
    hide Inv, Step, LoadOf, FairState;
    var s, t := FairState(c, sigma, i), sigma(i);
    Bounds(c, s, v, t);
    v' := FairStep(c, sigma, i, v);
    k := i + 1;
    if !Idle(s.pcs[t]) {
      BusyStep(c, s, v, t);
    } else {
      IdleStep(c, s, v, t);
      if !Lighter(LoadOf(c, FairState(c, sigma, k)), LoadOf(c, s)) {
        k, v' := WaitForBusy(c, sigma, k, v', h, j);
      }
    }
  }

  /** When all threads are idle, thread 0 gets to an available task. */
  lemma {:induction false} WaitForScan(c: Config, sigma: nat -> nat, i: nat, v: View, x: nat, j: nat)
    returns (k: nat, v': View)
    requires ValidConfig(c) && !c.weak && Fair(c, sigma) && Inv(c, FairState(c, sigma, i), v)
    requires AllIdle(FairState(c, sigma, i)) && x < |c.dep| && FairState(c, sigma, i).status[x] == Available
    requires InRange(c, FairState(c, sigma, i), FairState(c, sigma, i).pcs[0])
    requires i <= j && sigma(j) == 0
    ensures i < k && Inv(c, FairState(c, sigma, k), v')
    ensures Shape(c, FairState(c, sigma, i)) && Shape(c, FairState(c, sigma, k))
    ensures Lighter(LoadOf(c, FairState(c, sigma, k)), LoadOf(c, FairState(c, sigma, i)))
    decreases Distance(c, 0, FairState(c, sigma, i).pcs[0], x), j - i
  {
    hide Inv, Step, LoadOf, FairState;
    var s, t := FairState(c, sigma, i), sigma(i);
    Bounds(c, s, v, t);
    v' := FairStep(c, sigma, i, v);
    k := i + 1;
    var s' := FairState(c, sigma, k);
    IdleStep(c, s, v, t);
    if !Lighter(LoadOf(c, s'), LoadOf(c, s)) {
      Bounds(c, s', v', 0);
      var j' := j;
      if t == 0 {
        if s.pcs[0].Claim? && s.status[s.pcs[0].i] == Available {
          ClaimWrites(c, s);
        }
        ScanNearer(c, s, v, 0, x);
        assert MovesFrom(sigma, k, 0);
        j' :| k <= j' && sigma(j') == 0;
      }
      k, v' := WaitForScan(c, sigma, k, v', x, j');
    }
  }

  lemma ClaimWrites(c: Config, s: State)
    requires ValidConfig(c) && Shape(c, s) && s.pcs[0].Claim?
    requires s.pcs[0].i < |c.dep| && s.status[s.pcs[0].i] == Available
    ensures Step(c, s, 0, false).status != s.status
  {
    assert Step(c, s, 0, false).status[s.pcs[0].i] == InProgress;
  }

  /** From any point of a fair run all tasks get done. */
  lemma {:induction false} FinishFrom(c: Config, sigma: nat -> nat, i: nat, v: View) returns (k: nat)
    requires ValidConfig(c) && !c.weak && Fair(c, sigma) && Inv(c, FairState(c, sigma, i), v)
    requires Shape(c, FairState(c, sigma, i))
    ensures i <= k && AllDone(FairState(c, sigma, k))
    decreases LoadOf(c, FairState(c, sigma, i)).tasks, LoadOf(c, FairState(c, sigma, i)).nodes,
              LoadOf(c, FairState(c, sigma, i)).local
  {
    hide Inv, Step, LoadOf, FairState;
    var s := FairState(c, sigma, i);
    Bounds(c, s, v, 0);
    if AllDone(s) {
      k := i;
    } else {
      var v';
      if h: nat :| h < c.threads && !Idle(s.pcs[h]) {
        assert MovesFrom(sigma, i, h);
        var j: nat :| i <= j && sigma(j) == h;
        k, v' := WaitForBusy(c, sigma, i, v, h, j);
      } else {
        var x := SomethingAvailable(c, s, v, |c.dep|);
        assert MovesFrom(sigma, i, 0);
        var j: nat :| i <= j && sigma(j) == 0;
        k, v' := WaitForScan(c, sigma, i, v, x, j);
      }
      k := FinishFrom(c, sigma, k, v');
    }
  }

  /** Under a strong CAS every fair run finishes every task, and it stays so. */
  lemma FairRunsFinish(c: Config, sigma: nat -> nat) returns (k: nat)
    requires ValidConfig(c) && !c.weak && Fair(c, sigma)
    ensures forall m: nat :: k <= m ==> AllDone(FairState(c, sigma, m)) && |FairState(c, sigma, m).status| == |c.dep|
  {
    var v := InitialInv(c);
    k := FinishFrom(c, sigma, 0, v);
    forall m: nat | k <= m
      ensures AllDone(FairState(c, sigma, m)) && |FairState(c, sigma, m).status| == |c.dep|
    {
      var _ := StaysDone(c, sigma, k, m);
    }
  }

  lemma {:induction false} StaysDone(c: Config, sigma: nat -> nat, k: nat, m: nat) returns (v: View)
    requires ValidConfig(c) && Fair(c, sigma) && k <= m && AllDone(FairState(c, sigma, k))
    ensures Inv(c, FairState(c, sigma, m), v) && AllDone(FairState(c, sigma, m))
    decreases m
  {
    hide Inv, Step, FairState;
    if m == k {
      v := FairInv(c, sigma, m);
    } else {
      v := StaysDone(c, sigma, k, m - 1);
      var s, s', t := FairState(c, sigma, m - 1), FairState(c, sigma, m), sigma(m - 1);
      var v' := FairStep(c, sigma, m - 1, v);
      Bounds(c, s, v, t);
      Bounds(c, s', v', t);
      forall x | 0 <= x < |c.dep| ensures s'.status[x] == Done {
        StepRank(c, s, v, t, false, x);
      }
      v := v';
    }
  }

  lemma {:induction false} FairInv(c: Config, sigma: nat -> nat, i: nat) returns (v: View)
    requires ValidConfig(c) && Fair(c, sigma)
    ensures Inv(c, FairState(c, sigma, i), v)
  {
    if i == 0 {
      v := InitialInv(c);
    } else {
      v := FairInv(c, sigma, i - 1);
      v := FairStep(c, sigma, i - 1, v);
    }
  }
}
