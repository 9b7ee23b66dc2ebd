/**
 The dispatcher with the linked watch nodes of the implementation: each list is
 a head pointer, each task owns one node with a next pointer, and a CAS compares
 pointers.  It moves in lock step with the list-level machine of Dispatch: a
 pointer CAS succeeds exactly when the whole list is unchanged.
 */
module DispatchPointers {
  import opened Basics
  import D = Dispatch
  import I = DispatchInvariant
  import S = DispatchSafety

  /** A pointer to a watch node; the node of a task is known by the task. */
  datatype Ptr = Null | DoNotRead | Node(id: nat)

  datatype Pc =
    | Get(next: Option<nat>)
    | Scan(i: nat, waiting: nat)
    | Claim(i: nat, waiting: nat)
    | Work(task: nat, ran: nat)
    | Close(task: nat)
    | Swap(task: nat, seen: Ptr)
    | Notify(cur: Ptr, next: Option<nat>)
    | Seek(again: bool, j: nat, k: nat, wait: bool, rest: Ptr, next: Option<nat>)
    | Look(again: bool, j: nat, k: nat, wait: bool, rest: Ptr, next: Option<nat>)
    | Push(again: bool, j: nat, k: nat, wait: bool, seen: Ptr, rest: Ptr, next: Option<nat>)
    | Release(j: nat, rest: Ptr, next: Option<nat>)
    | Stopped

  /** head[k] is the watch list of task k, link[j] the next field of node j. */
  datatype State = State(status: seq<D.Status>, head: seq<Ptr>, link: seq<Ptr>, pcs: seq<Pc>)

  predicate InRange(c: D.Config, pc: Pc) {
    var n := |c.dep|;
    match pc
    case Get(next) => next.Some? ==> next.value < n
    case Scan(i, _) => i < n
    case Claim(i, _) => i < n
    case Work(i, _) => i < n
    case Close(i) => i < n
    case Swap(i, _) => i < n
    case Notify(cur, _) => cur.Null? || (cur.Node? && cur.id < n)
    case Seek(_, j, k, _, _, _) => k <= j < n
    case Look(_, j, k, _, _, _) => k < j < n
    case Push(_, j, k, _, _, _, _) => k < j < n
    case Release(j, _, _) => j < n
    case Stopped => true
  }

  ghost predicate Shape(c: D.Config, s: State) {
    && |s.status| == |s.head| == |s.link| == |c.dep| == |c.work|
    && |s.pcs| == c.threads
    && forall t :: 0 <= t < c.threads ==> InRange(c, s.pcs[t])
  }

  function At(s: State, t: nat, pc: Pc): State
    requires t < |s.pcs|
  {
    s.(pcs := s.pcs[t := pc])
  }

  function AfterScan(c: D.Config, t: nat, i: nat, waiting: nat): Pc
    requires D.ValidConfig(c) && t < c.threads && i < |c.dep|
  {
    var i' := if i + 1 == |c.dep| then 0 else i + 1;
    if i' != D.Start(c, t) then Scan(i', waiting)
    else if waiting == 0 then Stopped
    else Get(None)
  }

  function ScanPc(c: D.Config, s: State, t: nat, i: nat, waiting: nat): Pc
    requires D.ValidConfig(c) && t < c.threads && i < |c.dep| == |s.status|
  {
    match s.status[i]
    case Available => Claim(i, waiting)
    case Waiting => AfterScan(c, t, i, waiting + 1)
    case InProgress => AfterScan(c, t, i, waiting)
    case Done => AfterScan(c, t, i, waiting)
  }

  function Ready(j: nat, rest: Ptr, next: Option<nat>): Pc {
    if next.None? then Notify(rest, Some(j)) else Release(j, rest, next)
  }

  function SeekPc(c: D.Config, s: State, pc: Pc): Pc
    requires pc.Seek? && pc.k <= pc.j < |c.dep| == |s.status|
  {
    var Seek(again, j, k, wait, rest, next) := pc;
    if k == j then
      if !again && wait then Seek(true, j, 0, wait, rest, next)
      else Ready(j, rest, next)
    else if k !in c.dep[j] || s.status[k] == D.Done then Seek(again, j, k + 1, wait, rest, next)
    else if again || s.status[k] == D.Waiting then Look(again, j, k, wait, rest, next)
    else Seek(again, j, k + 1, true, rest, next)
  }

  function Step(c: D.Config, s: State, t: nat, spurious: bool): State
    requires D.ValidConfig(c) && Shape(c, s) && t < c.threads
  {
    match s.pcs[t]
    case Get(next) =>
      if next.None? then At(s, t, Scan(D.Start(c, t), 0))
      else At(s, t, Work(next.value, 0)).(status := s.status[next.value := D.InProgress])
    case Scan(i, w) => At(s, t, ScanPc(c, s, t, i, w))
    case Claim(i, w) =>
      if s.status[i] == D.Available && !spurious
      then At(s, t, Work(i, 0)).(status := s.status[i := D.InProgress])
      else At(s, t, AfterScan(c, t, i, w))
    case Work(i, r) =>
      if r < c.work[i] then At(s, t, Work(i, r + 1))
      else At(s, t, Close(i)).(status := s.status[i := D.Done])
    case Close(i) => At(s, t, Swap(i, s.head[i]))
    case Swap(i, seen) =>
      if s.head[i] == seen && !spurious
      then At(s, t, Notify(seen, None)).(head := s.head[i := DoNotRead])
      else At(s, t, Close(i))
    case Notify(cur, next) =>
      if cur.Null? then At(s, t, Get(next))
      else At(s, t, Seek(false, cur.id, 0, false, s.link[cur.id], next))
    case Seek(_, j, _, _, _, _) =>
      // move_watch clears the next field of its node on entry
      var pc := SeekPc(c, s, s.pcs[t]);
      if pc.Look? then At(s, t, pc).(link := s.link[j := Null]) else At(s, t, pc)
    case Look(again, j, k, wait, rest, next) =>
      if s.head[k].DoNotRead? then At(s, t, Seek(again, j, k + 1, wait, rest, next))
      else At(s, t, Push(again, j, k, wait, s.head[k], rest, next)).(link := s.link[j := s.head[k]])
    case Push(again, j, k, wait, seen, rest, next) =>
      if s.head[k] == seen && !spurious
      then At(s, t, Notify(rest, next)).(head := s.head[k := Node(j)])
      else At(s, t, Look(again, j, k, wait, rest, next))
    case Release(j, rest, next) =>
      At(s, t, Notify(rest, next)).(status := s.status[j := D.Available])
    case Stopped => s
  }

  // ---------------------------------------------------- representing lists

  function HeadOf(l: seq<nat>): Ptr {
    if l == [] then Null else Node(l[0])
  }

  /** Following the next fields from p visits exactly l. */
  ghost predicate IsList(link: seq<Ptr>, p: Ptr, l: seq<nat>) {
    && p == HeadOf(l)
    && forall i :: 0 <= i < |l| ==>
         l[i] < |link| && link[l[i]] == NextIn(l, i)
  }

  function NextIn(l: seq<nat>, i: nat): Ptr {
    if i + 1 < |l| then Node(l[i + 1]) else Null
  }

  ghost predicate IsSuffix(l: seq<nat>, of: seq<nat>) {
    |l| <= |of| && of[|of| - |l|..] == l
  }

  /** A pointer read earlier from the list of k stands for what the list was
      then: as long as the list is open it is a suffix of it. */
  ghost predicate Remembers(a: D.State, k: nat, seen: Ptr, l: seq<nat>) {
    && seen == HeadOf(l)
    && (k < |a.watch| && a.watch[k].Open? ==> IsSuffix(l, a.watch[k].watchers))
  }

  ghost predicate RepPc(s: State, a: D.State, pc: Pc, apc: D.Pc) {
    match apc
    case Get(next) => pc == Get(next)
    case Scan(i, w) => pc == Scan(i, w)
    case Claim(i, w) => pc == Claim(i, w)
    case Work(i, r) => pc == Work(i, r)
    case Close(i) => pc == Close(i)
    case Swap(i, seen) => pc.Swap? && pc.task == i && Remembers(a, i, pc.seen, seen)
    case Notify(rest, next) => pc.Notify? && pc.next == next && IsList(s.link, pc.cur, rest)
    case Seek(again, j, k, wait, rest, next) =>
      pc.Seek? && pc == Seek(again, j, k, wait, pc.rest, next) && IsList(s.link, pc.rest, rest)
    case Look(again, j, k, wait, rest, next) =>
      pc.Look? && pc == Look(again, j, k, wait, pc.rest, next) && IsList(s.link, pc.rest, rest)
    case Push(again, j, k, wait, seen, rest, next) =>
      && pc.Push? && pc == Push(again, j, k, wait, pc.seen, pc.rest, next) && IsList(s.link, pc.rest, rest)
      && Remembers(a, k, pc.seen, seen) && j < |s.link| && s.link[j] == pc.seen
    case Release(j, rest, next) =>
      pc.Release? && pc == Release(j, pc.rest, next) && IsList(s.link, pc.rest, rest)
    case Stopped => pc == Stopped
  }

  ghost predicate RepWatch(link: seq<Ptr>, p: Ptr, w: D.Watch) {
    match w
    case Closed => p == DoNotRead
    case Open(l) => IsList(link, p, l)
  }

  /** The pointers of s represent the lists of a. */
  ghost predicate Rep(c: D.Config, s: State, a: D.State) {
    && s.status == a.status
    && |s.head| == |s.link| == |a.watch| == |a.status| == |c.dep|
    && |s.pcs| == |a.pcs| == c.threads
    && (forall k :: 0 <= k < |s.head| ==> RepWatch(s.link, s.head[k], a.watch[k]))
    && (forall t :: 0 <= t < |s.pcs| ==> RepPc(s, a, s.pcs[t], a.pcs[t]))
  }

  /** The ABA argument: lists only grow at the front while open and hold no node
      twice, so an unchanged head pointer means an unchanged list. */
  lemma SameHeadSameList(link: seq<Ptr>, p: Ptr, l: seq<nat>, seen: seq<nat>)
    requires IsList(link, p, l) && Distinct(l) && IsSuffix(seen, l) && p == HeadOf(seen)
    ensures l == seen
  {
    if seen != [] {
      assert l[|l| - |seen|] == l[|l| - |seen|..][0] == l[0];
    }
  }

  // ------------------------------------------------------------- lock step

  /** Only thread t moves, and what it knows is still right. */
  lemma RepMove(c: D.Config, s: State, a: D.State, t: nat, pc: Pc, apc: D.Pc)
    requires Rep(c, s, a) && t < c.threads && RepPc(s, a, pc, apc)
    ensures Rep(c, At(s, t, pc), D.At(a, t, apc))
  {}

  /** A status write in both machines. */
  lemma RepStatus(c: D.Config, s: State, a: D.State, i: nat, st: D.Status)
    requires Rep(c, s, a) && i < |c.dep|
    ensures Rep(c, s.(status := s.status[i := st]), a.(status := a.status[i := st]))
  {}

  /** The node a thread is placing is on no list and in no other hand. */
  lemma Private(c: D.Config, a: D.State, v: I.View, t: nat, j: nat)
    requires D.ValidConfig(c) && I.Inv(c, a, v) && t < c.threads && j in I.Hand(a.pcs[t])
    ensures D.Shape(c, a) && j < |c.dep|
    ensures forall k :: 0 <= k < |a.watch| && a.watch[k].Open? ==> j !in a.watch[k].watchers
    ensures forall u :: 0 <= u < c.threads && u != t ==> j !in I.Hand(a.pcs[u])
  {
    assert I.HandHas(a, t, j);
    forall k | 0 <= k < |a.watch| && a.watch[k].Open? ensures j !in a.watch[k].watchers {
      assert !I.OpenHas(a, k, j);
    }
    forall u | 0 <= u < c.threads && u != t ensures j !in I.Hand(a.pcs[u]) {
      assert !I.HandHas(a, u, j);
    }
  }

  lemma ListFrame(link: seq<Ptr>, j: nat, q: Ptr, p: Ptr, l: seq<nat>)
    requires j < |link| && j !in l && IsList(link, p, l)
    ensures IsList(link[j := q], p, l)
  {}

  /** What a thread knows does not depend on nodes that are not in its hand. */
  lemma PcFrame(s: State, a: D.State, j: nat, q: Ptr, pc: Pc, apc: D.Pc)
    requires j < |s.link| && RepPc(s, a, pc, apc)
    requires j !in I.Hand(apc) || ((apc.Look? || apc.Seek?) && j !in apc.rest)
    ensures RepPc(s.(link := s.link[j := q]), a, pc, apc)
  {
    match apc
    case Notify(rest, _) => ListFrame(s.link, j, q, pc.cur, rest);
    case Seek(_, _, _, _, rest, _) => ListFrame(s.link, j, q, pc.rest, rest);
    case Look(_, _, _, _, rest, _) => ListFrame(s.link, j, q, pc.rest, rest);
    case Push(_, _, _, _, _, rest, _) => ListFrame(s.link, j, q, pc.rest, rest);
    case Release(_, rest, _) => ListFrame(s.link, j, q, pc.rest, rest);
    case _ =>
  }

  /** Writing the next field of the node in hand disturbs no list. */
  lemma RepLink(c: D.Config, s: State, a: D.State, v: I.View, t: nat, p: Ptr)
    requires D.ValidConfig(c) && I.Inv(c, a, v) && Rep(c, s, a) && t < c.threads
    requires a.pcs[t].Look? || a.pcs[t].Seek?
    ensures a.pcs[t].j < |s.link|
    ensures Rep(c, s.(link := s.link[a.pcs[t].j := p]), a)
  {
    hide I.Inv;
    var j := a.pcs[t].j;
    Private(c, a, v, t, j);
    CurrentApart(c, a, v, t);
    var s' := s.(link := s.link[j := p]);
    forall k | 0 <= k < |s.head| ensures RepWatch(s'.link, s'.head[k], a.watch[k]) {
      assert RepWatch(s.link, s.head[k], a.watch[k]);
      if a.watch[k].Open? {
        ListFrame(s.link, j, p, s.head[k], a.watch[k].watchers);
      }
    }
    forall u | 0 <= u < |s.pcs| ensures RepPc(s', a, s'.pcs[u], a.pcs[u]) {
      PcFrame(s, a, j, p, s.pcs[u], a.pcs[u]);
    }
  }

  lemma CurrentApart(c: D.Config, a: D.State, v: I.View, t: nat)
    requires D.ValidConfig(c) && I.Inv(c, a, v) && t < c.threads
    requires a.pcs[t].Look? || a.pcs[t].Seek?
    ensures a.pcs[t].j !in a.pcs[t].rest
  {
    var j, rest, next := a.pcs[t].j, a.pcs[t].rest, a.pcs[t].next;
    assert Distinct(I.Hand(a.pcs[t]));
    I.HandWithout(j, rest, next);
    assert j !in Listed(next) + rest;
  }

  /** An open list, its head and what it means for a CAS. */
  lemma HeadMatches(c: D.Config, s: State, a: D.State, v: I.View, k: nat, seen: Ptr, l: seq<nat>)
    requires D.ValidConfig(c) && I.Inv(c, a, v) && Rep(c, s, a) && k < |c.dep| && Remembers(a, k, seen, l)
    ensures s.head[k] == seen <==> a.watch[k] == D.Open(l)
  {
    assert RepWatch(s.link, s.head[k], a.watch[k]);
    if a.watch[k].Open? {
      if s.head[k] == seen {
        SameHeadSameList(s.link, seen, a.watch[k].watchers, l);
      }
    }
  }

  /** Closing a list in both machines. */
  lemma RepClose(c: D.Config, s: State, a: D.State, i: nat)
    requires Rep(c, s, a) && i < |c.dep|
    ensures Rep(c, s.(head := s.head[i := DoNotRead]), a.(watch := a.watch[i := D.Closed]))
  {
    var s', a' := s.(head := s.head[i := DoNotRead]), a.(watch := a.watch[i := D.Closed]);
    forall t | 0 <= t < |s.pcs| ensures RepPc(s', a', s'.pcs[t], a'.pcs[t]) {
      assert RepPc(s, a, s.pcs[t], a.pcs[t]);
    }
  }

  lemma ConsList(link: seq<Ptr>, j: nat, l: seq<nat>)
    requires IsList(link, HeadOf(l), l) && j < |link| && link[j] == HeadOf(l)
    ensures IsList(link, Node(j), [j] + l)
  {
    var h := [j] + l;
    forall i | 0 <= i < |h| ensures h[i] < |link| && link[h[i]] == NextIn(h, i) {
      if 0 < i {
        assert h[i] == l[i - 1] && NextIn(h, i) == NextIn(l, i - 1);
      }
    }
  }

  /** Hanging node j in front of the list of k in both machines. */
  lemma RepHang(c: D.Config, s: State, a: D.State, k: nat, j: nat, l: seq<nat>)
    requires Rep(c, s, a) && k < |c.dep| && j < |c.dep|
    requires a.watch[k] == D.Open(l) && s.link[j] == HeadOf(l)
    ensures Rep(c, s.(head := s.head[k := Node(j)]), a.(watch := a.watch[k := D.Open([j] + l)]))
  {
    var s', a' := s.(head := s.head[k := Node(j)]), a.(watch := a.watch[k := D.Open([j] + l)]);
    assert RepWatch(s.link, s.head[k], a.watch[k]);
    ConsList(s.link, j, l);
    forall m: seq<nat> | IsSuffix(m, l) ensures IsSuffix(m, [j] + l) {
      assert ([j] + l)[1 + |l| - |m|..] == l[|l| - |m|..];
    }
    forall t | 0 <= t < |s.pcs| ensures RepPc(s', a', s'.pcs[t], a'.pcs[t]) {
      assert RepPc(s, a, s.pcs[t], a.pcs[t]);
    }
  }

  /** What the step of t relies on. */
  lemma RepAt(c: D.Config, s: State, a: D.State, v: I.View, t: nat)
    requires D.ValidConfig(c) && I.Inv(c, a, v) && Rep(c, s, a) && t < c.threads
    ensures Shape(c, s) && D.Shape(c, a) && D.InRange(c, a, a.pcs[t]) && RepPc(s, a, s.pcs[t], a.pcs[t])
    ensures |s.status| == |s.head| == |s.link| == |c.dep| && |s.pcs| == |a.pcs| == c.threads
    ensures a.pcs[t].Notify? ==> forall x <- a.pcs[t].rest :: x < |c.dep|
  {
    assert D.InRange(c, a, a.pcs[t]);
    assert RepPc(s, a, s.pcs[t], a.pcs[t]);
    forall u | 0 <= u < c.threads ensures InRange(c, s.pcs[u]) {
      RangeAt(c, s, a, v, u);
    }
    if a.pcs[t].Notify? {
      I.HandBounds(c, a, v, t);
      forall x <- a.pcs[t].rest ensures x < |c.dep| {
        assert x in I.Hand(a.pcs[t]);
      }
    }
  }

  lemma RangeAt(c: D.Config, s: State, a: D.State, v: I.View, u: nat)
    requires D.ValidConfig(c) && I.Inv(c, a, v) && Rep(c, s, a) && u < c.threads
    ensures InRange(c, s.pcs[u])
  {
    assert D.InRange(c, a, a.pcs[u]);
    assert RepPc(s, a, s.pcs[u], a.pcs[u]);
    if a.pcs[u].Notify? && a.pcs[u].rest != [] {
      I.HandBounds(c, a, v, u);
      assert a.pcs[u].rest[0] in I.Hand(a.pcs[u]);
    }
  }

  lemma TakeTask(c: D.Config, s: State, a: D.State, v: I.View, t: nat, spurious: bool)
    requires D.ValidConfig(c) && I.Inv(c, a, v) && Rep(c, s, a) && t < c.threads && (spurious ==> c.weak)
    requires a.pcs[t].Get? || a.pcs[t].Scan? || a.pcs[t].Claim? || a.pcs[t].Work?
    ensures Shape(c, s) && D.Shape(c, a) && Rep(c, Step(c, s, t, spurious), D.Step(c, a, t, spurious))
  {
    hide I.Inv, Rep;
    RepAt(c, s, a, v, t);
    RepStatusEq(c, s, a);
    var s', a' := Step(c, s, t, spurious), D.Step(c, a, t, spurious);
    match a.pcs[t]
    case Get(next) =>
      RepMove(c, s, a, t, s'.pcs[t], a'.pcs[t]);
      if next.Some? {
        RepStatus(c, At(s, t, s'.pcs[t]), D.At(a, t, a'.pcs[t]), next.value, D.InProgress);
      }
    case Scan(i, w) =>
      RepMove(c, s, a, t, s'.pcs[t], a'.pcs[t]);
    case Claim(i, w) =>
      RepMove(c, s, a, t, s'.pcs[t], a'.pcs[t]);
      if s.status[i] == D.Available && !spurious {
        RepStatus(c, At(s, t, s'.pcs[t]), D.At(a, t, a'.pcs[t]), i, D.InProgress);
      }
    case Work(i, r) =>
      RepMove(c, s, a, t, s'.pcs[t], a'.pcs[t]);
      if c.work[i] <= r {
        RepStatus(c, At(s, t, s'.pcs[t]), D.At(a, t, a'.pcs[t]), i, D.Done);
      }
  }

  lemma RepStatusEq(c: D.Config, s: State, a: D.State)
    requires Rep(c, s, a)
    ensures s.status == a.status
  {}

  lemma CloseList(c: D.Config, s: State, a: D.State, v: I.View, t: nat, spurious: bool)
    requires D.ValidConfig(c) && I.Inv(c, a, v) && Rep(c, s, a) && t < c.threads && (spurious ==> c.weak)
    requires a.pcs[t].Close? || a.pcs[t].Swap?
    ensures Shape(c, s) && D.Shape(c, a) && Rep(c, Step(c, s, t, spurious), D.Step(c, a, t, spurious))
  {
    hide I.Inv, Rep;
    RepAt(c, s, a, v, t);
    match a.pcs[t]
    case Close(i) =>
      HeadIs(c, s, a, i);
      RepMove(c, s, a, t, Swap(i, s.head[i]), D.Swap(i, a.watch[i].watchers));
    case Swap(i, seen) =>
      HeadMatches(c, s, a, v, i, s.pcs[t].seen, seen);
      if a.watch[i] == D.Open(seen) && !spurious {
        HeadIs(c, s, a, i);
        RepMove(c, s, a, t, Notify(s.head[i], None), D.Notify(seen, None));
        RepClose(c, At(s, t, Notify(s.head[i], None)), D.At(a, t, D.Notify(seen, None)), i);
      } else {
        RepMove(c, s, a, t, Close(i), D.Close(i));
      }
  }

  lemma HeadIs(c: D.Config, s: State, a: D.State, k: nat)
    requires Rep(c, s, a) && k < |c.dep|
    ensures |s.head| == |a.watch| == |c.dep| && (s.head[k] == DoNotRead <==> a.watch[k].Closed?)
    ensures a.watch[k].Open? ==>
              IsList(s.link, s.head[k], a.watch[k].watchers) && Remembers(a, k, s.head[k], a.watch[k].watchers)
  {
    assert RepWatch(s.link, s.head[k], a.watch[k]);
  }

  lemma WalkList(c: D.Config, s: State, a: D.State, v: I.View, t: nat, spurious: bool)
    requires D.ValidConfig(c) && I.Inv(c, a, v) && Rep(c, s, a) && t < c.threads && (spurious ==> c.weak)
    requires a.pcs[t].Notify? || a.pcs[t].Release?
    ensures Shape(c, s) && D.Shape(c, a) && Rep(c, Step(c, s, t, spurious), D.Step(c, a, t, spurious))
  {
    hide I.Inv, Rep;
    RepAt(c, s, a, v, t);
    var s', a' := Step(c, s, t, spurious), D.Step(c, a, t, spurious);
    match a.pcs[t]
    case Notify(rest, next) =>
      if rest != [] {
        TailList(s.link, s.pcs[t].cur, rest);
      }
      RepMove(c, s, a, t, s'.pcs[t], a'.pcs[t]);
    case Release(j, rest, next) =>
      RepMove(c, s, a, t, s'.pcs[t], a'.pcs[t]);
      RepStatus(c, At(s, t, s'.pcs[t]), D.At(a, t, a'.pcs[t]), j, D.Available);
  }

  lemma SearchList(c: D.Config, s: State, a: D.State, v: I.View, t: nat, spurious: bool)
    requires D.ValidConfig(c) && I.Inv(c, a, v) && Rep(c, s, a) && t < c.threads && (spurious ==> c.weak)
    requires a.pcs[t].Seek?
    ensures Shape(c, s) && D.Shape(c, a) && Rep(c, Step(c, s, t, spurious), D.Step(c, a, t, spurious))
  {
    hide I.Inv, Rep;
    RepAt(c, s, a, v, t);
    RepStatusEq(c, s, a);
    var pc, apc := SeekPc(c, s, s.pcs[t]), D.SeekPc(c, a, a.pcs[t]);
    RepMove(c, s, a, t, pc, apc);
    if pc.Look? {
      var j := a.pcs[t].j;
      RepLink(c, s, a, v, t, Null);
      var s1 := s.(link := s.link[j := Null]);
      RepAt(c, s1, a, v, t);
      RepMove(c, s1, a, t, pc, apc);
    }
  }

  lemma TailList(link: seq<Ptr>, p: Ptr, l: seq<nat>)
    requires IsList(link, p, l) && l != []
    ensures p == Node(l[0]) && l[0] < |link| && IsList(link, link[l[0]], l[1..])
  {
    assert link[l[0]] == NextIn(l, 0);
    var h := l[1..];
    forall i | 0 <= i < |h| ensures h[i] < |link| && link[h[i]] == NextIn(h, i) {
      assert h[i] == l[i + 1] && NextIn(h, i) == NextIn(l, i + 1);
    }
  }

  lemma LookAtList(c: D.Config, s: State, a: D.State, v: I.View, t: nat, spurious: bool)
    requires D.ValidConfig(c) && I.Inv(c, a, v) && Rep(c, s, a) && t < c.threads && (spurious ==> c.weak)
    requires a.pcs[t].Look?
    ensures Shape(c, s) && D.Shape(c, a) && Rep(c, Step(c, s, t, spurious), D.Step(c, a, t, spurious))
  {
    hide I.Inv, Rep;
    RepAt(c, s, a, v, t);
    var k := a.pcs[t].k;
    var s', a' := Step(c, s, t, spurious), D.Step(c, a, t, spurious);
    HeadIs(c, s, a, k);
    if a.watch[k].Closed? {
      RepMove(c, s, a, t, s'.pcs[t], a'.pcs[t]);
    } else {
      RepLink(c, s, a, v, t, s.head[k]);
      var s1 := s.(link := s.link[a.pcs[t].j := s.head[k]]);
      RepAt(c, s1, a, v, t);
      RepMove(c, s1, a, t, s'.pcs[t], a'.pcs[t]);
    }
  }

  lemma HangNode(c: D.Config, s: State, a: D.State, v: I.View, t: nat, spurious: bool)
    requires D.ValidConfig(c) && I.Inv(c, a, v) && Rep(c, s, a) && t < c.threads && (spurious ==> c.weak)
    requires a.pcs[t].Push?
    ensures Shape(c, s) && D.Shape(c, a) && Rep(c, Step(c, s, t, spurious), D.Step(c, a, t, spurious))
  {
    hide I.Inv, Rep;
    RepAt(c, s, a, v, t);
    var j, k, seen := a.pcs[t].j, a.pcs[t].k, a.pcs[t].seen;
    var s', a' := Step(c, s, t, spurious), D.Step(c, a, t, spurious);
    HeadMatches(c, s, a, v, k, s.pcs[t].seen, seen);
    RepMove(c, s, a, t, s'.pcs[t], a'.pcs[t]);
    if a.watch[k] == D.Open(seen) && !spurious {
      RepHang(c, At(s, t, s'.pcs[t]), D.At(a, t, a'.pcs[t]), k, j, seen);
    }
  }

  /** Each step on pointers is the same step on lists. */
  lemma LockStep(c: D.Config, s: State, a: D.State, v: I.View, t: nat, spurious: bool)
    requires D.ValidConfig(c) && I.Inv(c, a, v) && Rep(c, s, a) && t < c.threads && (spurious ==> c.weak)
    ensures Shape(c, s) && D.Shape(c, a) && Rep(c, Step(c, s, t, spurious), D.Step(c, a, t, spurious))
  {
    hide I.Inv, Rep;
    RepAt(c, s, a, v, t);
    match a.pcs[t]
    case Close(_) => CloseList(c, s, a, v, t, spurious);
    case Swap(_, _) => CloseList(c, s, a, v, t, spurious);
    case Notify(_, _) => WalkList(c, s, a, v, t, spurious);
    case Seek(_, _, _, _, _, _) => SearchList(c, s, a, v, t, spurious);
    case Release(_, _, _) => WalkList(c, s, a, v, t, spurious);
    case Look(_, _, _, _, _, _) => LookAtList(c, s, a, v, t, spurious);
    case Push(_, _, _, _, _, _, _) => HangNode(c, s, a, v, t, spurious);
    case Stopped =>
    case _ => TakeTask(c, s, a, v, t, spurious);
  }

  // ------------------------------------------------------------------ runs

  ghost function Next(c: D.Config, s: State, m: S.Move): State
    requires D.ValidConfig(c)
  {
    if Shape(c, s) && S.LegalMove(c, m) then Step(c, s, m.thread, m.spurious) else s
  }

  /** The state a schedule leads to from s. */
  ghost function Run(c: D.Config, s: State, sched: seq<S.Move>): State
    requires D.ValidConfig(c)
  {
    if sched == [] then s
    else Next(c, Run(c, s, sched[..|sched| - 1]), sched[|sched| - 1])
  }

  /** Every run on pointers represents the same run on lists, and never follows
      a pointer to nothing or to the closing sentinel. */
  lemma {:induction false} RunsRefine(c: D.Config, s: State, sched: seq<S.Move>)
    requires D.ValidConfig(c) && S.Legal(c, sched) && Rep(c, s, S.Initial(c))
    ensures Rep(c, Run(c, s, sched), S.Run(c, sched))
    ensures Shape(c, Run(c, s, sched))
  {
    var v := S.RunInv(c, sched);
    if sched != [] {
      hide Step, D.Step, Rep, Shape, I.Inv;
      var before, m := sched[..|sched| - 1], sched[|sched| - 1];
      assert S.LegalMove(c, m);
      RunsRefine(c, s, before);
      var w := S.RunInv(c, before);
      LockStep(c, Run(c, s, before), S.Run(c, before), w, m.thread, m.spurious);
      var _ := S.NextKeeps(c, S.Run(c, before), w, m);
    }
    RepAt(c, Run(c, s, sched), S.Run(c, sched), v, 0);
  }

  /** The safety results, read on the linked structure. */
  lemma PointerRunsAreSafe(c: D.Config, s: State, sched: seq<S.Move>, j: nat, k: nat)
    requires D.ValidConfig(c) && S.Legal(c, sched) && Rep(c, s, S.Initial(c))
    requires j < |c.dep| && k in c.dep[j]
    ensures var r := Run(c, s, sched);
            && |r.status| == |c.dep| == |r.head|
            && (r.status[j] != D.Waiting ==> r.status[k] == D.Done)
            && (r.head[k] == DoNotRead ==> r.status[k] == D.Done)
            && (!c.weak && Stopped in r.pcs ==> I.Claimed(r.status[j]))
  {
    RunsRefine(c, s, sched);
    S.DependencySafety(c, sched, j, k);
    var r, a := Run(c, s, sched), S.Run(c, sched);
    var v := S.RunInv(c, sched);
    assert RepWatch(r.link, r.head[k], a.watch[k]);
    if !c.weak && Stopped in r.pcs {
      var t :| 0 <= t < |r.pcs| && r.pcs[t] == Stopped;
      assert RepPc(r, a, r.pcs[t], a.pcs[t]);
      S.InvalidMeansClaimed(c, sched);
      assert a.pcs[t] == D.Stopped;
    }
  }
}
