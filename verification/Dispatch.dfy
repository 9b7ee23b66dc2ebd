/**
 The parallel task dispatcher as a step system.  Each atomic read, write or
 compare-and-swap of the shared state is one step of one thread.  A watch list
 is a sequence here; DispatchPointers refines it to the linked nodes of the
 implementation.

 A thread repeats: get a task, run it, end it, get the task forwarded to it.
 A step is a function of the thread that moves and of whether a weak
 compare-and-swap fails spuriously, so a schedule determines a run.
 */
module Dispatch {
  import opened Basics

  // ---------------------------------------------------------------- state

  datatype Status = Waiting | Available | InProgress | Done

  /** The value of the state in the implementation: it only ever goes down. */
  function Rank(st: Status): nat {
    match st
    case Waiting => 3
    case Available => 2
    case InProgress => 1
    case Done => 0
  }

  /** A watch list is open, most recent watcher first, or has been closed. */
  datatype Watch = Open(watchers: seq<nat>) | Closed

  /** Where a thread is, with the locals it needs from there on. */
  datatype Pc =
    | Get(next: Option<nat>)                // entering dag_get_task
    | Scan(i: nat, waiting: nat)            // about to read status[i]
    | Claim(i: nat, waiting: nat)           // read Available, about to CAS
    | Work(task: nat, ran: nat)             // inside the instance body
    | Close(task: nat)                      // status is Done, about to read its list
    | Swap(task: nat, seen: seq<nat>)       // about to CAS the list to Closed
    | Notify(rest: seq<nat>, next: Option<nat>)
      // walking the watchers taken from the closed list
    | Seek(again: bool, j: nat, k: nat, wait: bool, rest: seq<nat>, next: Option<nat>)
      // looking for another prerequisite k that watcher j can wait on
    | Look(again: bool, j: nat, k: nat, wait: bool, rest: seq<nat>, next: Option<nat>)
      // in move_watch, about to read the list of k
    | Push(again: bool, j: nat, k: nat, wait: bool, seen: seq<nat>, rest: seq<nat>, next: Option<nat>)
      // in move_watch, about to CAS j onto the list of k
    | Release(j: nat, rest: seq<nat>, next: Option<nat>)
      // about to write status[j] := Available
    | Stopped                               // dag_get_task returned INVALID

  /** dep[j] holds the prerequisites of task j; work[j] is the number of atomic
      actions in its body; weak says whether a CAS may fail spuriously. */
  datatype Config = Config(dep: seq<set<nat>>, work: seq<nat>, threads: nat, weak: bool)

  datatype State = State(status: seq<Status>, watch: seq<Watch>, pcs: seq<Pc>)

  ghost predicate ValidConfig(c: Config) {
    && 0 < |c.dep| == |c.work|
    && 0 < c.threads
    && forall j, k :: 0 <= j < |c.dep| && k in c.dep[j] ==> k < j
  }

  /** Where thread t starts its scan. */
  function Start(c: Config, t: nat): (r: nat)
    requires ValidConfig(c) && t < c.threads
    ensures r < |c.dep|
  {
    assert t * |c.dep| < c.threads * |c.dep|;
    DivideBelow(t * |c.dep|, c.threads, |c.dep|);
    (t * |c.dep|) / c.threads
  }

  lemma DivideBelow(a: nat, d: nat, n: nat)
    requires 0 < d && a < d * n
    ensures a / d < n
  {}

  // ---------------------------------------------------------------- steps

  ghost predicate InRange(c: Config, s: State, pc: Pc)
    requires |s.watch| == |c.dep|
  {
    var n := |c.dep|;
    match pc
    case Get(next) => next.Some? ==> next.value < n
    case Scan(i, _) => i < n
    case Claim(i, _) => i < n
    case Work(i, _) => i < n
    case Close(i) => i < n && s.watch[i].Open?
    case Swap(i, _) => i < n && s.watch[i].Open?
    case Seek(_, j, k, _, _, _) => k <= j < n
    case Look(_, j, k, _, _, _) => k < j < n && k in c.dep[j]
    case Push(_, j, k, _, _, _, _) => k < j < n && k in c.dep[j]
    case Release(j, _, _) => j < n
    case _ => true
  }

  ghost predicate Shape(c: Config, s: State) {
    && |s.status| == |s.watch| == |c.dep|
    && |s.pcs| == c.threads
    && forall t :: 0 <= t < c.threads ==> InRange(c, s, s.pcs[t])
  }

  /** After task i has been looked at: the next index modulo the task count, or
      the end of the scan, which answers INVALID or WAIT (and WAIT tries again). */
  function AfterScan(c: Config, t: nat, i: nat, waiting: nat): Pc
    requires ValidConfig(c) && t < c.threads && i < |c.dep|
  {
    var i' := if i + 1 == |c.dep| then 0 else i + 1;
    if i' != Start(c, t) then Scan(i', waiting)
    else if waiting == 0 then Stopped
    else Get(None)
  }

  /** Watcher j found no list to hang on: forward it, or release it when the
      thread already forwards another. */
  function Ready(j: nat, rest: seq<nat>, next: Option<nat>): Pc {
    if next.None? then Notify(rest, Some(j)) else Release(j, rest, next)
  }

  function ScanPc(c: Config, s: State, t: nat, i: nat, waiting: nat): Pc
    requires ValidConfig(c) && t < c.threads && i < |c.dep| == |s.status|
  {
    match s.status[i]
    case Available => Claim(i, waiting)
    case Waiting => AfterScan(c, t, i, waiting + 1)
    case InProgress => AfterScan(c, t, i, waiting)
    case Done => AfterScan(c, t, i, waiting)
  }

  function NotifyPc(rest: seq<nat>, next: Option<nat>): Pc {
    if rest == [] then Get(next)
    else Seek(false, rest[0], 0, false, rest[1..], next)
  }

  /** One turn of either search loop of dag_end_task.  The first pass hangs only
      on waiting tasks and notes the others; the second takes any unfinished one. */
  function SeekPc(c: Config, s: State, pc: Pc): Pc
    requires pc.Seek? && pc.k <= pc.j < |c.dep| == |s.status|
  {
    var Seek(again, j, k, wait, rest, next) := pc;
    if k == j then
      if !again && wait then Seek(true, j, 0, wait, rest, next)
      else Ready(j, rest, next)
    else if k !in c.dep[j] || s.status[k] == Done then Seek(again, j, k + 1, wait, rest, next)
    else if again || s.status[k] == Waiting then Look(again, j, k, wait, rest, next)
    else Seek(again, j, k + 1, true, rest, next)
  }

  function LookPc(s: State, pc: Pc): Pc
    requires pc.Look? && pc.k < |s.watch|
  {
    var Look(again, j, k, wait, rest, next) := pc;
    match s.watch[k]
    case Closed => Seek(again, j, k + 1, wait, rest, next)
    case Open(seen) => Push(again, j, k, wait, seen, rest, next)
  }

  function At(s: State, t: nat, pc: Pc): State
    requires t < |s.pcs|
  {
    s.(pcs := s.pcs[t := pc])
  }

  function Step(c: Config, s: State, t: nat, spurious: bool): State
    requires ValidConfig(c) && Shape(c, s) && t < c.threads
    requires spurious ==> c.weak
  {
    match s.pcs[t]
    case Get(None) => At(s, t, Scan(Start(c, t), 0))
    case Get(Some(x)) =>
      At(s, t, Work(x, 0)).(status := s.status[x := InProgress])
    case Scan(i, w) => At(s, t, ScanPc(c, s, t, i, w))
    case Claim(i, w) =>
      if s.status[i] == Available && !spurious
      then At(s, t, Work(i, 0)).(status := s.status[i := InProgress])
      else At(s, t, AfterScan(c, t, i, w))
    case Work(i, r) =>
      if r < c.work[i] then At(s, t, Work(i, r + 1))
      else At(s, t, Close(i)).(status := s.status[i := Done])
    case Close(i) => At(s, t, Swap(i, s.watch[i].watchers))
    case Swap(i, seen) =>
      if s.watch[i] == Open(seen) && !spurious
      then At(s, t, Notify(seen, None)).(watch := s.watch[i := Closed])
      else At(s, t, Close(i))
    case Notify(rest, next) => At(s, t, NotifyPc(rest, next))
    case Seek(_, _, _, _, _, _) => At(s, t, SeekPc(c, s, s.pcs[t]))
    case Look(_, _, _, _, _, _) => At(s, t, LookPc(s, s.pcs[t]))
    case Push(again, j, k, wait, seen, rest, next) =>
      if s.watch[k] == Open(seen) && !spurious
      then At(s, t, Notify(rest, next)).(watch := s.watch[k := Open([j] + seen)])
      else At(s, t, Look(again, j, k, wait, rest, next))
    case Release(j, rest, next) =>
      At(s, t, Notify(rest, next)).(status := s.status[j := Available])
    case Stopped => s
  }
}
