/**
 What the threads decide, told from what they have read.  A history notes the statuses a
 thread reads and the lists it finds closed, without asking what it makes of them; over
 every run the answers of dag_get_task, the search for another prerequisite and the
 forwarding of dag_end_task are what these readings call for.
 */
module DispatchHistory {
  import opened Basics
  import opened Dispatch
  import opened DispatchInvariant
  import opened DispatchSafety

  /** What one pass over the prerequisites of a watcher has read, and whose lists it has
      found closed. */
  datatype Pass = Pass(read: map<nat, Status>, closed: set<nat>)

  const NO_PASS := Pass(map[], {})

  /** What a thread has read in its current scan and which claims it lost; the watchers
      whose search has ended without a list to hang on, since its task was run; the current
      pass and the one before it for the same watcher. */
  datatype History = History(scanned: map<nat, Status>, lost: set<nat>, freed: seq<nat>, pass: Pass, before: Pass)

  const NOTHING := History(map[], {}, [], NO_PASS, NO_PASS)

  /** What thread t notes when it goes from s to a state where it is at pc. */
  function Notice(c: Config, s: State, t: nat, pc: Pc, h: History): History
    requires t < |s.pcs| && |s.status| == |s.watch| == |c.dep|
  {
    match s.pcs[t]
    case Get(_) => NOTHING
    case Scan(i, _) => if i < |s.status| then h.(scanned := h.scanned[i := s.status[i]]) else h
    case Claim(i, _) => if pc.Work? then h else h.(lost := h.lost + {i})
    case Work(_, _) => NOTHING
    case Notify(_, _) => h.(pass := NO_PASS, before := NO_PASS)
    case Seek(_, j, k, _, _, _) =>
      if k < j < |c.dep| then
        if k in c.dep[j] then h.(pass := h.pass.(read := h.pass.read[k := s.status[k]])) else h
      else if pc.Seek? then h.(pass := NO_PASS, before := h.pass)
      else h.(freed := h.freed + [j])
    case Look(_, _, k, _, _, _) =>
      if k < |s.watch| && s.watch[k].Closed? then h.(pass := h.pass.(closed := h.pass.closed + {k})) else h
    case _ => h
  }

  /** The history of thread t over a run. */
  ghost function Trace(c: Config, sched: seq<Move>, t: nat): History
    requires ValidConfig(c)
  {
    if sched == [] then NOTHING
    else
      var front, m := sched[..|sched| - 1], sched[|sched| - 1];
      var h, s, s' := Trace(c, front, t), Run(c, front), Run(c, sched);
      if m.thread == t < |s.pcs| && t < |s'.pcs| && |s.status| == |s.watch| == |c.dep|
      then Notice(c, s, t, s'.pcs[t], h) else h
  }

  // ------------------------------------------------------------------ scans

  predicate ReadAs(read: map<nat, Status>, st: Status) {
    exists x :: x in read && read[x] == st
  }

  /** A scan that is about to look at task i has read what it passed and tried to claim what
      it read as available; it counts a waiting task exactly if it has read one. */
  ghost predicate ScanKnown(
    c: Config, t: nat, i: nat, waiting: nat, scanned: map<nat, Status>, lost: set<nat>)
    requires ValidConfig(c) && t < c.threads
  {
    && (forall x: nat :: x in scanned <==> x < |c.dep| && Passed(Start(c, t), i, x))
    && (forall x: nat :: x in lost <==> x in scanned && scanned[x] == Available)
    && (waiting > 0 <==> ReadAs(scanned, Waiting))
  }

  /** The scan has read every task and lost every claim it could make. */
  ghost predicate ScannedAll(c: Config, h: History) {
    && (forall x: nat :: x in h.scanned <==> x < |c.dep|)
    && (forall x: nat :: x in h.lost <==> x in h.scanned && h.scanned[x] == Available)
  }

  // --------------------------------------------------------------- searches

  /** A pass has read a prerequisite that is available or under way. */
  predicate ReadCurrent(p: Pass) {
    ReadAs(p.read, Available) || ReadAs(p.read, InProgress)
  }

  /** Whether a list is tried for what was read there: in the first pass only that of a
      waiting prerequisite, in the second that of any unfinished one. */
  predicate Tries(again: bool, st: Status) {
    if again then st != Done else st == Waiting
  }

  /** A pass has read the prerequisites of j below k, and tried the lists it should: they
      were closed, or the watcher would hang there. */
  ghost predicate PassKnown(c: Config, again: bool, j: nat, k: nat, p: Pass) {
    && j < |c.dep|
    && (forall x: nat :: x in p.read <==> x in c.dep[j] && x < k)
    && forall x: nat :: x in p.closed <==> x in p.read && Tries(again, p.read[x])
  }

  /** There is a second pass only after a full first one that has read a prerequisite that
      is available or under way. */
  ghost predicate SearchKnown(c: Config, again: bool, j: nat, wait: bool, h: History) {
    if again then PassKnown(c, false, j, j, h.before) && ReadCurrent(h.before)
    else wait <==> ReadCurrent(h.pass)
  }

  /** The list of k is about to be tried because of what was read there. */
  ghost predicate TryKnown(c: Config, again: bool, j: nat, k: nat, p: Pass) {
    && k in p.read && Tries(again, p.read[k])
    && PassKnown(c, again, j, k, p.(read := p.read - {k}))
  }

  // ------------------------------------------------------------- forwarding

  /** The first watcher freed. */
  function First(freed: seq<nat>): Option<nat> {
    if freed == [] then None else Some(freed[0])
  }

  /** What the place of a thread says about its history. */
  ghost predicate Known(c: Config, t: nat, pc: Pc, h: History)
    requires ValidConfig(c) && t < c.threads
  {
    match pc
    case Get(next) =>
      next == First(h.freed) && (h.scanned != map[] ==> next.None? && ScannedAll(c, h) && ReadAs(h.scanned, Waiting))
    case Scan(i, w) => h.freed == [] && ScanKnown(c, t, i, w, h.scanned, h.lost)
    case Claim(i, w) =>
      && h.freed == [] && i in h.scanned && h.scanned[i] == Available
      && ScanKnown(c, t, i, w, h.scanned - {i}, h.lost)
    case Work(_, _) => h.freed == []
    case Close(_) => h == NOTHING
    case Swap(_, _) => h == NOTHING
    case Notify(_, next) => h.scanned == map[] && next == First(h.freed)
    case Seek(again, j, k, wait, _, next) =>
      && h.scanned == map[] && next == First(h.freed)
      && PassKnown(c, again, j, k, h.pass) && SearchKnown(c, again, j, wait, h)
    case Look(again, j, k, wait, _, next) =>
      && h.scanned == map[] && next == First(h.freed)
      && TryKnown(c, again, j, k, h.pass) && SearchKnown(c, again, j, wait, h)
    case Push(again, j, k, wait, _, _, next) =>
      && h.scanned == map[] && next == First(h.freed)
      && TryKnown(c, again, j, k, h.pass) && SearchKnown(c, again, j, wait, h)
    case Release(j, _, next) =>
      h.scanned == map[] && next == First(h.freed) && |h.freed| > 1 && h.freed[|h.freed| - 1] == j
    case Stopped => h.freed == [] && ScannedAll(c, h) && !ReadAs(h.scanned, Waiting)
  }

  // ------------------------------------------------------- every step keeps it

  lemma ReadMore(read: map<nat, Status>, k: nat, st: Status, want: Status)
    requires k !in read
    ensures ReadAs(read[k := st], want) <==> ReadAs(read, want) || st == want
  {
    if ReadAs(read, want) {
      var x :| x in read && read[x] == want;
      assert x in read[k := st] && read[k := st][x] == want;
    }
    if st == want {
      assert read[k := st][k] == want;
    }
  }

  /** Task i has been looked at. */
  lemma Advanced(c: Config, t: nat, i: nat, w: nat, h: History)
    requires ValidConfig(c) && t < c.threads && i < |c.dep| && h.freed == [] && i in h.scanned
    requires forall x: nat :: x in h.scanned <==> x < |c.dep| && (Passed(Start(c, t), i, x) || x == i)
    requires forall x: nat :: x in h.lost <==> x in h.scanned && h.scanned[x] == Available
    requires w > 0 <==> ReadAs(h.scanned, Waiting)
    ensures Known(c, t, AfterScan(c, t, i, w), h)
  {
    var i' := if i + 1 == |c.dep| then 0 else i + 1;
    if i' == Start(c, t) {
      assert ScannedAll(c, h);
    } else {
      assert ScanKnown(c, t, i', w, h.scanned, h.lost);
    }
  }

  lemma ScanStep(c: Config, s: State, t: nat, h: History)
    requires ValidConfig(c) && Shape(c, s) && t < c.threads && s.pcs[t].Scan? && Known(c, t, s.pcs[t], h)
    ensures var s' := Step(c, s, t, false); Known(c, t, s'.pcs[t], Notice(c, s, t, s'.pcs[t], h))
  {
    hide AfterScan, ReadAs;
    var i, w := s.pcs[t].i, s.pcs[t].waiting;
    assert InRange(c, s, s.pcs[t]);
    var h' := h.(scanned := h.scanned[i := s.status[i]]);
    assert i !in h.scanned;
    ReadMore(h.scanned, i, s.status[i], Waiting);
    if s.status[i] == Available {
      assert h'.scanned - {i} == h.scanned;
    } else {
      Advanced(c, t, i, if s.status[i] == Waiting then w + 1 else w, h');
    }
  }

  lemma ClaimStep(c: Config, s: State, t: nat, spurious: bool, h: History)
    requires ValidConfig(c) && Shape(c, s) && t < c.threads && s.pcs[t].Claim? && Known(c, t, s.pcs[t], h)
    requires spurious ==> c.weak
    ensures var s' := Step(c, s, t, spurious); Known(c, t, s'.pcs[t], Notice(c, s, t, s'.pcs[t], h))
  {
    hide AfterScan, ReadAs;
    var i, w := s.pcs[t].i, s.pcs[t].waiting;
    assert InRange(c, s, s.pcs[t]);
    var rest := h.scanned - {i};
    ReadMore(rest, i, Available, Waiting);
    assert rest[i := Available] == h.scanned;
    Advanced(c, t, i, w, h.(lost := h.lost + {i}));
    NotWorkAfter(c, t, i, w);
  }

  lemma NotWorkAfter(c: Config, t: nat, i: nat, w: nat)
    requires ValidConfig(c) && t < c.threads && i < |c.dep|
    ensures !AfterScan(c, t, i, w).Work?
  {}

  lemma SeekStep(c: Config, s: State, t: nat, h: History)
    requires ValidConfig(c) && Shape(c, s) && t < c.threads && s.pcs[t].Seek? && Known(c, t, s.pcs[t], h)
    ensures var s' := Step(c, s, t, false); Known(c, t, s'.pcs[t], Notice(c, s, t, s'.pcs[t], h))
  {
    hide ReadAs;
    assert InRange(c, s, s.pcs[t]);
    var Seek(again, j, k, wait, rest, next) := s.pcs[t];
    if k == j {
      if !again && wait {
        assert PassKnown(c, true, j, 0, NO_PASS);
      }
    } else if k in c.dep[j] {
      ReadMore(h.pass.read, k, s.status[k], Available);
      ReadMore(h.pass.read, k, s.status[k], InProgress);
      assert h.pass.read[k := s.status[k]] - {k} == h.pass.read;
    }
  }

  lemma NotifyStep(c: Config, s: State, t: nat, h: History)
    requires ValidConfig(c) && Shape(c, s) && t < c.threads && s.pcs[t].Notify? && Known(c, t, s.pcs[t], h)
    requires Shape(c, Step(c, s, t, false))
    ensures var s' := Step(c, s, t, false); Known(c, t, s'.pcs[t], Notice(c, s, t, s'.pcs[t], h))
  {
    var s' := Step(c, s, t, false);
    assert InRange(c, s', s'.pcs[t]);
  }

  lemma LookStep(c: Config, s: State, t: nat, h: History)
    requires ValidConfig(c) && Shape(c, s) && t < c.threads && s.pcs[t].Look? && Known(c, t, s.pcs[t], h)
    ensures var s' := Step(c, s, t, false); Known(c, t, s'.pcs[t], Notice(c, s, t, s'.pcs[t], h))
  {
    hide ReadAs;
    assert InRange(c, s, s.pcs[t]);
    var Look(again, j, k, wait, rest, next) := s.pcs[t];
    if s.watch[k].Closed? {
      var p, p' := h.pass.(read := h.pass.read - {k}), h.pass.(closed := h.pass.closed + {k});
      forall x: nat ensures x in p'.read <==> x in c.dep[j] && x < k + 1 {
        assert x in p.read <==> x in c.dep[j] && x < k;
      }
      assert PassKnown(c, again, j, k + 1, p');
    }
  }

  lemma GetStep(c: Config, s: State, t: nat, h: History)
    requires ValidConfig(c) && Shape(c, s) && t < c.threads && s.pcs[t].Get? && Known(c, t, s.pcs[t], h)
    ensures var s' := Step(c, s, t, false); Known(c, t, s'.pcs[t], Notice(c, s, t, s'.pcs[t], h))
  {
    assert InRange(c, s, s.pcs[t]);
  }

  lemma OtherStep(c: Config, s: State, t: nat, spurious: bool, h: History)
    requires ValidConfig(c) && Shape(c, s) && t < c.threads && (spurious ==> c.weak) && Known(c, t, s.pcs[t], h)
    requires var pc := s.pcs[t]; pc.Work? || pc.Close? || pc.Swap? || pc.Push? || pc.Release? || pc.Stopped?
    ensures var s' := Step(c, s, t, spurious); Known(c, t, s'.pcs[t], Notice(c, s, t, s'.pcs[t], h))
  {
    hide ReadAs, ScannedAll, PassKnown, TryKnown, SearchKnown;
    assert InRange(c, s, s.pcs[t]);
  }

  lemma StepKnown(c: Config, s: State, t: nat, spurious: bool, h: History)
    requires ValidConfig(c) && Shape(c, s) && t < c.threads && (spurious ==> c.weak) && Known(c, t, s.pcs[t], h)
    requires Shape(c, Step(c, s, t, spurious))
    ensures var s' := Step(c, s, t, spurious); Known(c, t, s'.pcs[t], Notice(c, s, t, s'.pcs[t], h))
  {
    hide Known, Notice, AfterScan, ScanPc, SeekPc, LookPc, NotifyPc;
    match s.pcs[t] {
      case Get(_) => GetStep(c, s, t, h);
      case Scan(_, _) => ScanStep(c, s, t, h);
      case Claim(_, _) => ClaimStep(c, s, t, spurious, h);
      case Notify(_, _) => NotifyStep(c, s, t, h);
      case Seek(_, _, _, _, _, _) => SeekStep(c, s, t, h);
      case Look(_, _, _, _, _, _) => LookStep(c, s, t, h);
      case _ => OtherStep(c, s, t, spurious, h);
    }
  }

  lemma {:induction false} RunKnown(c: Config, sched: seq<Move>, t: nat) returns (v: View)
    requires ValidConfig(c) && Legal(c, sched) && t < c.threads
    ensures Inv(c, Run(c, sched), v)
    ensures var s := Run(c, sched); t < |s.pcs| && Known(c, t, s.pcs[t], Trace(c, sched, t))
  {
    hide Inv, Step, Known, Notice;
    v := RunInv(c, sched);
    Bounds(c, Run(c, sched), v, t);
    if sched == [] {
      StartKnown(c, t);
    } else {
      var front, m := sched[..|sched| - 1], sched[|sched| - 1];
      var v0 := RunKnown(c, front, t);
      var s := Run(c, front);
      MoveStep(c, s, v0, m);
      if m.thread == t {
        StepKnown(c, s, t, m.spurious, Trace(c, front, t));
      } else {
        StepPcs(c, s, m.thread, m.spurious);
      }
    }
  }

  lemma StartKnown(c: Config, t: nat)
    requires ValidConfig(c) && t < c.threads
    ensures Known(c, t, Initial(c).pcs[t], NOTHING)
  {}

  // ---------------------------------------------------------------- results

  /** The threads start their scans at even distances: at the whole part of t / threads of
      the way through the tasks. */
  lemma StartsSpread(c: Config, t: nat)
    requires ValidConfig(c) && t < c.threads
    ensures Start(c, t) * c.threads <= t * |c.dep| < Start(c, t) * c.threads + c.threads
  {
    Divided(t * |c.dep|, c.threads);
  }

  lemma Divided(a: nat, d: nat)
    requires 0 < d
    ensures a / d * d <= a < a / d * d + d
  {}

  /** The answer of dag_get_task to a thread that is forwarded nothing.  WAIT and INVALID come
      after a reading of every task, with a claim tried and lost for each read as available;
      it is WAIT exactly when a task was read as waiting. */
  lemma ScanAnswers(c: Config, sched: seq<Move>, t: nat)
    requires ValidConfig(c) && Legal(c, sched) && t < c.threads
    ensures var s, h := Run(c, sched), Trace(c, sched, t);
            && t < |s.pcs|
            && (s.pcs[t].Get? && h.scanned != map[] ==>
                  s.pcs[t].next.None? && ScannedAll(c, h) && ReadAs(h.scanned, Waiting))
            && (s.pcs[t].Stopped? ==> ScannedAll(c, h) && !ReadAs(h.scanned, Waiting))
            && (s.pcs[t].Claim? ==> s.pcs[t].i in h.scanned && h.scanned[s.pcs[t].i] == Available)
  {
    var v := RunKnown(c, sched, t);
  }

  /** The list a watcher is about to be hung on: in the first pass that of a prerequisite
      read as waiting, in the second that of any read as unfinished; every list that should
      have been tried before was closed, and there is a second pass only after a full first
      one that has read a prerequisite as available or in progress. */
  lemma SearchOrder(c: Config, sched: seq<Move>, t: nat)
    requires ValidConfig(c) && Legal(c, sched) && t < c.threads
    ensures var s, h := Run(c, sched), Trace(c, sched, t);
            && t < |s.pcs|
            && (s.pcs[t].Push? ==>
                  var Push(again, j, k, wait, _, _, _) := s.pcs[t];
                  TryKnown(c, again, j, k, h.pass) && SearchKnown(c, again, j, wait, h))
  {
    var v := RunKnown(c, sched, t);
  }

  /** The watchers freed after the first have been made available, but for one whose status
      is about to be written. */
  ghost predicate FreedKnown(s: State, t: nat, h: History) {
    && t < |s.pcs|
    && (forall n :: 0 <= n < |h.freed| ==> h.freed[n] < |s.status|)
    && forall n :: 0 < n < |h.freed| && Waits(s, h.freed[n]) ==> s.pcs[t].Release? && n == |h.freed| - 1
  }

  predicate Waits(s: State, x: nat) {
    x < |s.status| && s.status[x] == Waiting
  }

  /** Statuses do not go back to waiting. */
  lemma OtherFreed(c: Config, s: State, v: View, t: nat, u: nat, spurious: bool, h: History)
    requires ValidConfig(c) && Inv(c, s, v) && t < c.threads && u < c.threads && u != t && (spurious ==> c.weak)
    requires FreedKnown(s, t, h) && Shape(c, s)
    ensures FreedKnown(Step(c, s, u, spurious), t, h)
  {
    hide Inv, Step;
    StepPcs(c, s, u, spurious);
    StatusSize(c, s, u, spurious);
    Bounds(c, s, v, t);
    forall n | 0 < n < |h.freed| && Waits(Step(c, s, u, spurious), h.freed[n]) ensures Waits(s, h.freed[n]) {
      StepRank(c, s, v, u, spurious, h.freed[n]);
    }
  }

  lemma StatusSize(c: Config, s: State, t: nat, spurious: bool)
    requires ValidConfig(c) && Shape(c, s) && t < c.threads && (spurious ==> c.weak)
    ensures |Step(c, s, t, spurious).status| == |s.status|
  {}

  lemma SeekFreed(c: Config, s: State, t: nat, h: History)
    requires ValidConfig(c) && Shape(c, s) && t < c.threads && s.pcs[t].Seek?
    requires FreedKnown(s, t, h) && Known(c, t, s.pcs[t], h)
    ensures var s' := Step(c, s, t, false); FreedKnown(s', t, Notice(c, s, t, s'.pcs[t], h))
  {
    hide PassKnown, SearchKnown;
    assert InRange(c, s, s.pcs[t]);
    var s', j := Step(c, s, t, false), s.pcs[t].j;
    var h' := Notice(c, s, t, s'.pcs[t], h);
    assert h'.freed == h.freed || h'.freed == h.freed + [j];
    forall n | 0 < n < |h.freed| ensures !Waits(s', h'.freed[n]) {
      assert !Waits(s, h.freed[n]);
    }
  }

  lemma ReleaseFreed(c: Config, s: State, t: nat, h: History)
    requires ValidConfig(c) && Shape(c, s) && t < c.threads && s.pcs[t].Release?
    requires FreedKnown(s, t, h) && Known(c, t, s.pcs[t], h)
    ensures var s' := Step(c, s, t, false); FreedKnown(s', t, Notice(c, s, t, s'.pcs[t], h))
  {
    assert InRange(c, s, s.pcs[t]);
    var s' := Step(c, s, t, false);
    forall n | 0 < n < |h.freed| ensures !Waits(s', h.freed[n]) {
      assert Waits(s, h.freed[n]) ==> h.freed[n] == s.pcs[t].j;
    }
  }

  lemma OwnFreed(c: Config, s: State, t: nat, spurious: bool, h: History)
    requires ValidConfig(c) && Shape(c, s) && t < c.threads && (spurious ==> c.weak)
    requires FreedKnown(s, t, h) && Known(c, t, s.pcs[t], h)
    ensures var s' := Step(c, s, t, spurious); FreedKnown(s', t, Notice(c, s, t, s'.pcs[t], h))
  {
    if s.pcs[t].Seek? {
      SeekFreed(c, s, t, h);
    } else if s.pcs[t].Release? {
      ReleaseFreed(c, s, t, h);
    } else {
      hide ScanPc, AfterScan, NotifyPc, LookPc, SeekPc, ScanKnown, PassKnown, TryKnown, SearchKnown, ScannedAll;
      assert InRange(c, s, s.pcs[t]);
    }
  }

  lemma {:induction false} RunFreed(c: Config, sched: seq<Move>, t: nat)
    requires ValidConfig(c) && Legal(c, sched) && t < c.threads
    ensures FreedKnown(Run(c, sched), t, Trace(c, sched, t))
  {
    hide Inv, Step, Known, Notice;
    if sched != [] {
      hide FreedKnown;
      var front, m := sched[..|sched| - 1], sched[|sched| - 1];
      RunFreed(c, front, t);
      var v := RunKnown(c, front, t);
      var v' := RunKnown(c, sched, t);
      var s := Run(c, front);
      MoveStep(c, s, v, m);
      Bounds(c, s, v, t);
      if m.thread == t {
        OwnFreed(c, s, t, m.spurious, Trace(c, front, t));
      } else {
        OtherFreed(c, s, v, t, m.thread, m.spurious, Trace(c, front, t));
      }
    }
  }

  /** The thread is in dag_end_task behind the closing of the list, or on its way from there
      into dag_get_task. */
  predicate Ending(pc: Pc) {
    pc.Get? || pc.Notify? || pc.Seek? || pc.Look? || pc.Push? || pc.Release?
  }

  /** The first watcher for which a thread finds no list to hang it on is forwarded: it stays
      WAITING and the thread holds it until it goes to work on it.  Every later one is made
      AVAILABLE by the next step of the thread. */
  lemma ForwardsFirst(c: Config, sched: seq<Move>, t: nat)
    requires ValidConfig(c) && Legal(c, sched) && t < c.threads
    ensures var s, freed := Run(c, sched), Trace(c, sched, t).freed;
            && |s.pcs| == c.threads && |s.status| == |c.dep|
            && (forall n :: 0 <= n < |freed| ==> freed[n] < |c.dep|)
            && (freed != [] ==> Ending(s.pcs[t]))
            && (Ending(s.pcs[t]) ==> Forwarded(s.pcs[t]) == First(freed))
            && (freed != [] ==> Waits(s, freed[0]))
            && forall n :: 0 < n < |freed| ==>
                 if n == |freed| - 1 && s.pcs[t].Release? then s.pcs[t].j == freed[n] else !Waits(s, freed[n])
  {
    hide ScanKnown, PassKnown, TryKnown, SearchKnown, ScannedAll, Trace, Run;
    var v := RunKnown(c, sched, t);
    RunFreed(c, sched, t);
    var s, freed := Run(c, sched), Trace(c, sched, t).freed;
    Bounds(c, s, v, t);
    HandBounds(c, s, v, t);
    if freed != [] {
      ForwardedInHand(s.pcs[t], freed[0]);
    }
  }

  lemma ForwardedInHand(pc: Pc, x: nat)
    requires Forwarded(pc) == Some(x)
    ensures x in Hand(pc)
  {}

  /** A thread that enters dag_get_task goes to work on what was forwarded to it, and scans
      if nothing was. */
  lemma TakesForwarded(c: Config, sched: seq<Move>, m: Move)
    requires ValidConfig(c) && Legal(c, sched) && LegalMove(c, m)
    requires var s := Run(c, sched); m.thread < |s.pcs| && s.pcs[m.thread].Get?
    ensures var t, s, s', freed := m.thread, Run(c, sched), Run(c, sched + [m]), Trace(c, sched, m.thread).freed;
            && t < |s'.pcs| && |s'.status| == |c.dep| && Trace(c, sched + [m], t) == NOTHING
            && if freed == [] then s'.pcs[t] == Scan(Start(c, t), 0) && s'.status == s.status
               else s'.pcs[t] == Work(freed[0], 0) && freed[0] < |s.status| &&
                    s'.status == s.status[freed[0] := InProgress]
  {
    hide Inv, ScannedAll;
    var t := m.thread;
    var v := RunKnown(c, sched, t);
    RunAfter(c, sched, m);
    Bounds(c, Run(c, sched), v, t);
    var v' := NextKeeps(c, Run(c, sched), v, m);
    Bounds(c, Run(c, sched + [m]), v', t);
    assert (sched + [m])[..|sched|] == sched;
  }
}
