/**
 What every step of the dispatcher keeps: where each watch node is, who runs
 each task, which prerequisites are known to be done, what a scan has seen.
 */
module DispatchInvariant {
  import opened Basics
  import opened Dispatch

  /** The whereabouts of the watch node of a task. */
  datatype Loc = Nowhere | OnList(k: nat) | WithThread(t: nat)

  /** Proof-side bookkeeping: where each node is and which thread is
      running or closing each task. */
  datatype View = View(loc: seq<Loc>, owner: seq<Option<nat>>)

  /** The watch nodes a thread has in hand, the forwarded one first. */
  function Hand(pc: Pc): seq<nat> {
    match pc
    case Get(next) => Listed(next)
    case Notify(rest, next) => Listed(next) + rest
    case Seek(_, j, _, _, rest, next) => Listed(next) + [j] + rest
    case Look(_, j, _, _, rest, next) => Listed(next) + [j] + rest
    case Push(_, j, _, _, _, rest, next) => Listed(next) + [j] + rest
    case Release(j, rest, next) => Listed(next) + [j] + rest
    case _ => []
  }

  /** The task a thread is running, or has finished without closing its list. */
  function Busy(pc: Pc): Option<nat> {
    match pc
    case Work(i, _) => Some(i)
    case Close(i) => Some(i)
    case Swap(i, _) => Some(i)
    case _ => None
  }

  /** The task a thread will start next without claiming it. */
  function Forwarded(pc: Pc): Option<nat> {
    match pc
    case Get(next) => next
    case Notify(_, next) => next
    case Seek(_, _, _, _, _, next) => next
    case Look(_, _, _, _, _, next) => next
    case Push(_, _, _, _, _, _, next) => next
    case Release(_, _, next) => next
    case _ => None
  }

  ghost predicate OpenHas(s: State, k: nat, x: nat) {
    k < |s.watch| && s.watch[k].Open? && x in s.watch[k].watchers
  }

  ghost predicate HandHas(s: State, t: nat, x: nat) {
    t < |s.pcs| && x in Hand(s.pcs[t])
  }

  /** Every unstarted dependent task's node is in exactly one place. */
  ghost predicate Places(c: Config, s: State, loc: seq<Loc>)
    requires Shape(c, s)
  {
    && |loc| == |c.dep|
    && (forall k: nat, x: nat :: OpenHas(s, k, x) ==> x < |loc| && loc[x] == OnList(k) && k in c.dep[x])
    && (forall t: nat, x: nat :: HandHas(s, t, x) ==> x < |loc| && loc[x] == WithThread(t))
    && (forall x :: 0 <= x < |loc| ==> Accounted(s, loc[x], x))
    && (forall x :: 0 <= x < |loc| ==> (s.status[x] == Waiting <==> loc[x] != Nowhere))
    && (forall k :: 0 <= k < |s.watch| && s.watch[k].Open? ==> Distinct(s.watch[k].watchers))
    && (forall t :: 0 <= t < |s.pcs| ==> Distinct(Hand(s.pcs[t])))
  }

  ghost predicate Accounted(s: State, l: Loc, x: nat) {
    match l
    case Nowhere => true
    case OnList(k) => OpenHas(s, k, x)
    case WithThread(t) => HandHas(s, t, x)
  }

  /** Each running or closing task has exactly one thread. */
  ghost predicate Owned(c: Config, s: State, owner: seq<Option<nat>>)
    requires Shape(c, s)
  {
    && |owner| == |c.dep|
    && (forall t :: 0 <= t < |s.pcs| && Busy(s.pcs[t]).Some? ==>
          var i := Busy(s.pcs[t]).value;
          && owner[i] == Some(t)
          && s.status[i] == (if s.pcs[t].Work? then InProgress else Done))
    && (forall i :: 0 <= i < |owner| && owner[i].Some? ==>
          owner[i].value < |s.pcs| && Busy(s.pcs[owner[i].value]) == Some(i))
    && (forall i :: 0 <= i < |owner| ==>
          (owner[i].Some? <==>
             s.status[i] == InProgress || (s.status[i] == Done && s.watch[i].Open?)))
    && (forall i :: 0 <= i < |owner| && s.watch[i].Closed? ==> s.status[i] == Done)
  }

  ghost predicate DoneBelow(c: Config, s: State, j: nat, k: nat)
    requires |s.status| == |c.dep| && j < |c.dep|
  {
    forall p :: p in c.dep[j] && p < k && p < |s.status| ==> s.status[p] == Done
  }

  ghost predicate AllDepsDone(c: Config, s: State, j: nat)
    requires |s.status| == |c.dep| && j < |c.dep|
  {
    DoneBelow(c, s, j, |c.dep|)
  }

  /** What a thread in the search for a prerequisite has already ruled out. */
  ghost predicate Sought(c: Config, s: State, pc: Pc)
    requires |s.status| == |c.dep| == |s.watch| && InRange(c, s, pc)
  {
    match pc
    case Seek(again, j, k, wait, _, _) => again || !wait ==> DoneBelow(c, s, j, k)
    case Look(again, j, k, wait, _, _) => again || !wait ==> DoneBelow(c, s, j, k)
    case Push(again, j, k, wait, _, _, _) => again || !wait ==> DoneBelow(c, s, j, k)
    case Release(j, _, _) => AllDepsDone(c, s, j)
    case _ => true
  }

  /** Nothing becomes startable before its prerequisites are done. */
  ghost predicate Ordered(c: Config, s: State)
    requires Shape(c, s)
  {
    && (forall j :: 0 <= j < |c.dep| && s.status[j] != Waiting ==> AllDepsDone(c, s, j))
    && (forall t :: 0 <= t < |s.pcs| && Forwarded(s.pcs[t]).Some? ==>
          Forwarded(s.pcs[t]).value < |c.dep| && AllDepsDone(c, s, Forwarded(s.pcs[t]).value))
    && (forall t :: 0 <= t < |s.pcs| ==> Sought(c, s, s.pcs[t]))
  }

  ghost predicate Claimed(st: Status) {
    st == InProgress || st == Done
  }

  /** x was passed by a cyclic scan that began at first and is now at i. */
  ghost predicate Passed(first: nat, i: nat, x: nat) {
    if first <= i then first <= x < i else first <= x || x < i
  }

  ghost predicate SeenClaimed(c: Config, s: State, t: nat, pc: Pc)
    requires ValidConfig(c) && t < c.threads && |s.status| == |c.dep|
  {
    match pc
    case Scan(i, 0) => forall x :: 0 <= x < |s.status| && Passed(Start(c, t), i, x) ==> Claimed(s.status[x])
    case Claim(i, 0) =>
      && (forall x :: 0 <= x < |s.status| && Passed(Start(c, t), i, x) ==> Claimed(s.status[x]))
      && i < |s.status| && s.status[i] != Waiting
    case Stopped => forall x :: 0 <= x < |s.status| ==> Claimed(s.status[x])
    case _ => true
  }

  /** Under a strong CAS a scan that met no waiting task saw only claimed ones. */
  ghost predicate Scans(c: Config, s: State)
    requires ValidConfig(c) && Shape(c, s)
  {
    !c.weak ==> forall t :: 0 <= t < |s.pcs| ==> SeenClaimed(c, s, t, s.pcs[t])
  }

  ghost predicate Inv(c: Config, s: State, v: View)
    requires ValidConfig(c)
  {
    && Shape(c, s)
    && Places(c, s, v.loc)
    && Owned(c, s, v.owner)
    && Ordered(c, s)
    && Scans(c, s)
  }

  // ------------------------------------------------------- one step keeps it

  /** Everything in hand is a waiting task. */
  lemma HandBounds(c: Config, s: State, v: View, t: nat)
    requires ValidConfig(c) && Inv(c, s, v) && t < c.threads
    ensures forall x <- Hand(s.pcs[t]) :: x < |c.dep| && v.loc[x] == WithThread(t) && s.status[x] == Waiting
  {
    forall x <- Hand(s.pcs[t]) ensures x < |c.dep| && v.loc[x] == WithThread(t) && s.status[x] == Waiting {
      assert HandHas(s, t, x);
    }
  }

  /** Replacing the program counter of t keeps the shape when the new one is in
      range and no other thread relies on a list that was closed. */
  lemma ShapeAfter(c: Config, s: State, s': State, t: nat)
    requires Shape(c, s) && t < c.threads
    requires |s'.status| == |s.status| && |s'.watch| == |s.watch| && |s'.pcs| == |s.pcs|
    requires forall u :: 0 <= u < |s.pcs| && u != t ==> s'.pcs[u] == s.pcs[u]
    requires InRange(c, s', s'.pcs[t])
    requires forall i, u :: 0 <= i < |s.watch| && 0 <= u < |s.pcs| ==>
               s.watch[i].Open? && s'.watch[i].Closed? && u != t ==> Busy(s.pcs[u]) != Some(i)
    ensures Shape(c, s')
  {
    forall u | 0 <= u < c.threads ensures InRange(c, s', s'.pcs[u]) {
      if u != t {
        assert InRange(c, s, s.pcs[u]);
      }
    }
  }

  /** Ordering and scan facts survive when statuses only move towards Done, no
      task leaves Waiting early, and the moving thread's own facts hold. */
  lemma OthersKeep(c: Config, s: State, s': State, t: nat)
    requires ValidConfig(c) && Shape(c, s) && Shape(c, s') && Ordered(c, s) && Scans(c, s) && t < c.threads
    requires forall u :: 0 <= u < c.threads && u != t ==> s'.pcs[u] == s.pcs[u]
    requires forall x :: 0 <= x < |c.dep| ==> Rank(s'.status[x]) <= Rank(s.status[x])
    requires forall x :: 0 <= x < |c.dep| && s.status[x] == Waiting && s'.status[x] != Waiting ==> AllDepsDone(c, s, x)
    requires Forwarded(s'.pcs[t]).Some? ==>
               Forwarded(s'.pcs[t]).value < |c.dep| && AllDepsDone(c, s, Forwarded(s'.pcs[t]).value)
    requires Sought(c, s', s'.pcs[t])
    requires !c.weak ==> SeenClaimed(c, s', t, s'.pcs[t])
    ensures Ordered(c, s') && Scans(c, s')
  {
    forall j: nat, k: nat | j < |c.dep| && DoneBelow(c, s, j, k) ensures DoneBelow(c, s', j, k) {}
    forall u | 0 <= u < c.threads ensures Sought(c, s', s'.pcs[u]) {
      if u != t {
        assert Sought(c, s, s.pcs[u]);
      }
    }
    if !c.weak {
      forall u | 0 <= u < c.threads ensures SeenClaimed(c, s', u, s'.pcs[u]) {
        if u != t {
          assert SeenClaimed(c, s, u, s.pcs[u]);
        }
      }
    }
  }

  /** The nodes stay where they are. */
  lemma PlacesSame(c: Config, s: State, s': State, loc: seq<Loc>)
    requires Shape(c, s) && Shape(c, s') && Places(c, s, loc)
    requires s'.watch == s.watch
    requires forall u :: 0 <= u < c.threads ==> Hand(s'.pcs[u]) == Hand(s.pcs[u])
    requires forall x :: 0 <= x < |c.dep| ==> (s'.status[x] == Waiting <==> s.status[x] == Waiting)
    ensures Places(c, s', loc)
  {
    forall u: nat, x: nat ensures HandHas(s', u, x) == HandHas(s, u, x) {}
    forall k: nat, x: nat ensures OpenHas(s', k, x) == OpenHas(s, k, x) {}
    forall x | 0 <= x < |loc| ensures Accounted(s', loc[x], x) {
      assert Accounted(s, loc[x], x);
    }
  }

  /** Node x leaves the hand of t because its task stops waiting. */
  lemma PlacesWithout(c: Config, s: State, s': State, loc: seq<Loc>, t: nat, x: nat)
    requires Shape(c, s) && Shape(c, s') && Places(c, s, loc)
    requires t < c.threads && x < |c.dep| && HandHas(s, t, x)
    requires s'.watch == s.watch
    requires forall u :: 0 <= u < c.threads && u != t ==> s'.pcs[u] == s.pcs[u]
    requires forall y :: y in Hand(s'.pcs[t]) <==> y in Hand(s.pcs[t]) && y != x
    requires Distinct(Hand(s'.pcs[t]))
    requires s'.status[x] != Waiting && s'.status == s.status[x := s'.status[x]]
    ensures Places(c, s', loc[x := Nowhere])
  {
    var loc' := loc[x := Nowhere];
    assert loc[x] == WithThread(t);
    forall u: nat, y: nat | HandHas(s', u, y) ensures y < |loc'| && loc'[y] == WithThread(u) {
      assert HandHas(s, u, y);
    }
    forall k: nat, y: nat | OpenHas(s', k, y) ensures y < |loc'| && loc'[y] == OnList(k) && k in c.dep[y] {
      assert OpenHas(s, k, y);
    }
    forall y | 0 <= y < |loc'| ensures Accounted(s', loc'[y], y) {
      assert Accounted(s, loc[y], y);
    }
  }

  /** Node j goes from the hand of t to the front of the list of k. */
  lemma PlacesHung(c: Config, s: State, s': State, loc: seq<Loc>, t: nat, j: nat, k: nat)
    requires Shape(c, s) && Shape(c, s') && Places(c, s, loc)
    requires t < c.threads && j < |c.dep| && k < |c.dep| && k in c.dep[j] && HandHas(s, t, j)
    requires s.watch[k].Open? && s'.watch == s.watch[k := Open([j] + s.watch[k].watchers)]
    requires forall u :: 0 <= u < c.threads && u != t ==> s'.pcs[u] == s.pcs[u]
    requires forall y :: y in Hand(s'.pcs[t]) <==> y in Hand(s.pcs[t]) && y != j
    requires Distinct(Hand(s'.pcs[t]))
    requires s'.status == s.status
    ensures Places(c, s', loc[j := OnList(k)])
  {
    var loc' := loc[j := OnList(k)];
    assert loc[j] == WithThread(t);
    forall u: nat, y: nat | HandHas(s', u, y) ensures y < |loc'| && loc'[y] == WithThread(u) {
      assert HandHas(s, u, y);
    }
    forall q: nat, y: nat | OpenHas(s', q, y) ensures y < |loc'| && loc'[y] == OnList(q) && q in c.dep[y] {
      assert OpenHas(s, q, y) || (q == k && y == j);
    }
    forall y | 0 <= y < |loc'| ensures Accounted(s', loc'[y], y) {
      assert Accounted(s, loc[y], y);
    }
    assert !OpenHas(s, k, j);
  }

  /** The watchers of i all go to the hand of t. */
  lemma PlacesTaken(c: Config, s: State, s': State, loc: seq<Loc>, loc': seq<Loc>, t: nat, i: nat)
    requires Shape(c, s) && Shape(c, s') && Places(c, s, loc)
    requires t < c.threads && i < |c.dep| && Hand(s.pcs[t]) == []
    requires s.watch[i].Open? && s'.watch == s.watch[i := Closed]
    requires forall u :: 0 <= u < c.threads && u != t ==> s'.pcs[u] == s.pcs[u]
    requires Hand(s'.pcs[t]) == s.watch[i].watchers
    requires s'.status == s.status
    requires |loc'| == |loc|
    requires forall x :: 0 <= x < |loc| ==> loc'[x] == if loc[x] == OnList(i) then WithThread(t) else loc[x]
    ensures Places(c, s', loc')
  {
    forall u: nat, y: nat | HandHas(s', u, y) ensures y < |loc'| && loc'[y] == WithThread(u) {
      if u == t {
        assert OpenHas(s, i, y);
      } else {
        assert HandHas(s, u, y);
      }
    }
    forall k: nat, y: nat | OpenHas(s', k, y) ensures y < |loc'| && loc'[y] == OnList(k) && k in c.dep[y] {
      assert OpenHas(s, k, y);
    }
    forall y | 0 <= y < |loc'| ensures Accounted(s', loc'[y], y) {
      assert Accounted(s, loc[y], y);
    }
  }

  /** Thread t takes a task that was waiting or available. */
  lemma OwnedStart(c: Config, s: State, s': State, owner: seq<Option<nat>>, t: nat, i: nat)
    requires Shape(c, s) && Shape(c, s') && Owned(c, s, owner)
    requires t < c.threads && i < |c.dep| && Busy(s.pcs[t]).None?
    requires s'.watch == s.watch && s'.status == s.status[i := InProgress]
    requires s.status[i] == Waiting || s.status[i] == Available
    requires s'.pcs == s.pcs[t := Work(i, 0)]
    ensures Owned(c, s', owner[i := Some(t)])
  {}

  /** Thread t has closed the list of its task. */
  lemma OwnedClose(c: Config, s: State, s': State, owner: seq<Option<nat>>, t: nat, i: nat)
    requires Shape(c, s) && Owned(c, s, owner)
    requires t < c.threads && i < |c.dep| && s.pcs[t].Swap? && s.pcs[t].task == i
    requires s'.watch == s.watch[i := Closed] && s'.status == s.status
    requires |s'.pcs| == |s.pcs| && s'.pcs == s.pcs[t := s'.pcs[t]]
    requires s'.pcs[t].Notify?
    ensures Shape(c, s') && Owned(c, s', owner[i := None])
  {
    assert Busy(s.pcs[t]) == Some(i);
    forall u | 0 <= u < c.threads && u != t ensures Busy(s.pcs[u]) != Some(i) {}
    ShapeAfter(c, s, s', t);
  }

  /** No thread changes its task, and no task starts or ends. */
  lemma OwnedSame(c: Config, s: State, s': State, owner: seq<Option<nat>>, t: nat)
    requires Shape(c, s) && Shape(c, s') && Owned(c, s, owner) && t < c.threads
    requires forall i :: 0 <= i < |c.dep| ==> s'.watch[i].Open? == s.watch[i].Open?
    requires forall i :: 0 <= i < |c.dep| ==>
             s'.status[i] == s.status[i] || {s.status[i], s'.status[i]} == {Waiting, Available}
    requires s'.pcs == s.pcs[t := s'.pcs[t]]
    requires Busy(s'.pcs[t]) == Busy(s.pcs[t]) && s'.pcs[t].Work? == s.pcs[t].Work?
    ensures Owned(c, s', owner)
  {
    assert forall u :: 0 <= u < |s'.pcs| ==> Busy(s'.pcs[u]) == Busy(s.pcs[u]) && s'.pcs[u].Work? == s.pcs[u].Work?;
    assert forall i :: 0 <= i < |c.dep| ==>
             (s'.status[i] == InProgress <==> s.status[i] == InProgress) &&
                 (s'.status[i] == Done <==> s.status[i] == Done);
    hide Busy;
  }

  /** A step that leaves the shared state alone keeps the invariant when the
      thread keeps the same nodes and task, and has not learnt anything false. */
  lemma LocalKeeps(c: Config, s: State, v: View, t: nat, pc: Pc)
    requires ValidConfig(c) && Inv(c, s, v) && t < c.threads
    requires InRange(c, s, pc)
    requires Hand(pc) == Hand(s.pcs[t]) && Busy(pc) == Busy(s.pcs[t]) && pc.Work? == s.pcs[t].Work?
    requires Forwarded(pc).Some? ==> Forwarded(pc).value < |c.dep| && AllDepsDone(c, s, Forwarded(pc).value)
    requires Sought(c, s, pc)
    requires !c.weak ==> SeenClaimed(c, s, t, pc)
    ensures Inv(c, At(s, t, pc), v)
  {
    var s' := At(s, t, pc);
    ShapeAfter(c, s, s', t);
    PlacesSame(c, s, s', v.loc);
    OwnedSame(c, s, s', v.owner, t);
    assert Sought(c, s', pc);
    assert !c.weak ==> SeenClaimed(c, s', t, pc);
    OthersKeep(c, s, s', t);
  }

  /** A forwarded task starts without a claim. */
  lemma StartForwardedKeeps(c: Config, s: State, v: View, t: nat, x: nat)
    requires ValidConfig(c) && Inv(c, s, v) && t < c.threads && s.pcs[t] == Get(Some(x))
    ensures s.status[x] == Waiting
    ensures Inv(c, At(s, t, Work(x, 0)).(status := s.status[x := InProgress]),
                View(v.loc[x := Nowhere], v.owner[x := Some(t)]))
  {
    var s' := At(s, t, Work(x, 0)).(status := s.status[x := InProgress]);
    assert HandHas(s, t, x);
    ShapeAfter(c, s, s', t);
    PlacesWithout(c, s, s', v.loc, t, x);
    OwnedStart(c, s, s', v.owner, t, x);
    OthersKeep(c, s, s', t);
  }

  /** A scanning thread wins the CAS on an available task. */
  lemma ClaimKeeps(c: Config, s: State, v: View, t: nat, i: nat)
    requires ValidConfig(c) && Inv(c, s, v) && t < c.threads && s.pcs[t].Claim? && s.pcs[t].i == i
    requires s.status[i] == Available
    ensures Inv(c, At(s, t, Work(i, 0)).(status := s.status[i := InProgress]),
                v.(owner := v.owner[i := Some(t)]))
  {
    var s' := At(s, t, Work(i, 0)).(status := s.status[i := InProgress]);
    ShapeAfter(c, s, s', t);
    PlacesSame(c, s, s', v.loc);
    OwnedStart(c, s, s', v.owner, t, i);
    OthersKeep(c, s, s', t);
  }

  /** A body ends: the status is written before the list is closed. */
  lemma FinishKeeps(c: Config, s: State, v: View, t: nat, i: nat)
    requires ValidConfig(c) && Inv(c, s, v) && t < c.threads && s.pcs[t].Work? && s.pcs[t].task == i
    ensures Inv(c, At(s, t, Close(i)).(status := s.status[i := Done]), v)
  {
    var s' := At(s, t, Close(i)).(status := s.status[i := Done]);
    assert s.status[i] == InProgress;
    ShapeAfter(c, s, s', t);
    PlacesSame(c, s, s', v.loc);
    assert Owned(c, s', v.owner);
    OthersKeep(c, s, s', t);
  }

  /** The list is closed and all its watchers pass to the thread. */
  lemma SwapKeeps(c: Config, s: State, v: View, t: nat, i: nat, seen: seq<nat>) returns (v': View)
    requires ValidConfig(c) && Inv(c, s, v) && t < c.threads && s.pcs[t] == Swap(i, seen)
    requires s.watch[i] == Open(seen)
    ensures Inv(c, At(s, t, Notify(seen, None)).(watch := s.watch[i := Closed]), v')
  {
    var loc := seq(|v.loc|, x requires 0 <= x < |v.loc| =>
                     if v.loc[x] == OnList(i) then WithThread(t) else v.loc[x]);
    v' := View(loc, v.owner[i := None]);
    var s' := At(s, t, Notify(seen, None)).(watch := s.watch[i := Closed]);
    assert Hand(s'.pcs[t]) == seen;
    OwnedClose(c, s, s', v.owner, t, i);
    PlacesTaken(c, s, s', v.loc, loc, t, i);
    OthersKeep(c, s, s', t);
  }

  /** What is left in hand when the current node j goes. */
  lemma HandWithout(j: nat, rest: seq<nat>, next: Option<nat>)
    requires Distinct(Listed(next) + [j] + rest)
    ensures Distinct(Listed(next) + rest)
    ensures forall y :: y in Listed(next) + rest <==> y in Listed(next) + [j] + rest && y != j
  {
    var h, g, l := Listed(next) + [j] + rest, Listed(next) + rest, |Listed(next)|;
    forall i | 0 <= i < |g| ensures g[i] == h[if i < l then i else i + 1] {}
    forall y | y in h && y != j ensures y in g {
      var i :| 0 <= i < |h| && h[i] == y;
      assert y == g[if i < l then i else i - 1];
    }
    forall y | y in g ensures y in h && y != j {
      var i :| 0 <= i < |g| && g[i] == y;
      assert y == h[if i < l then i else i + 1] && h[l] == j;
    }
  }

  /** A watcher is hung on the list of a prerequisite that is still open. */
  lemma PushKeeps(c: Config, s: State, v: View, t: nat)
    requires ValidConfig(c) && Inv(c, s, v) && t < c.threads && s.pcs[t].Push?
    requires s.watch[s.pcs[t].k] == Open(s.pcs[t].seen)
    ensures var Push(_, j, k, _, seen, rest, next) := s.pcs[t];
            Inv(c, At(s, t, Notify(rest, next)).(watch := s.watch[k := Open([j] + seen)]),
                v.(loc := v.loc[j := OnList(k)]))
  {
    var Push(again, j, k, wait, seen, rest, next) := s.pcs[t];
    var s' := At(s, t, Notify(rest, next)).(watch := s.watch[k := Open([j] + seen)]);
    ShapeAfter(c, s, s', t);
    HandWithout(j, rest, next);
    assert HandHas(s, t, j);
    PlacesHung(c, s, s', v.loc, t, j, k);
    OwnedSame(c, s, s', v.owner, t);
    assert Forwarded(s.pcs[t]) == next;
    OthersKeep(c, s, s', t);
  }

  /** A watcher whose prerequisites are all done is made available. */
  lemma ReleaseKeeps(c: Config, s: State, v: View, t: nat)
    requires ValidConfig(c) && Inv(c, s, v) && t < c.threads && s.pcs[t].Release?
    ensures var Release(j, rest, next) := s.pcs[t];
            && s.status[j] == Waiting
            && Inv(c, At(s, t, Notify(rest, next)).(status := s.status[j := Available]),
                   v.(loc := v.loc[j := Nowhere]))
  {
    var Release(j, rest, next) := s.pcs[t];
    var s' := At(s, t, Notify(rest, next)).(status := s.status[j := Available]);
    ShapeAfter(c, s, s', t);
    HandWithout(j, rest, next);
    assert HandHas(s, t, j);
    PlacesWithout(c, s, s', v.loc, t, j);
    OwnedSame(c, s, s', v.owner, t);
    assert Forwarded(s.pcs[t]) == next;
    assert Sought(c, s, s.pcs[t]);
    OthersKeep(c, s, s', t);
  }

  /** One more task looked at. */
  lemma AfterScanSeen(c: Config, s: State, t: nat, i: nat, w: nat)
    requires ValidConfig(c) && t < c.threads && |s.status| == |c.dep| && i < |c.dep|
    requires w == 0 ==> Claimed(s.status[i]) && SeenClaimed(c, s, t, Scan(i, 0))
    ensures SeenClaimed(c, s, t, AfterScan(c, t, i, w))
  {
    if w == 0 {
      var first := Start(c, t);
      var i' := if i + 1 == |c.dep| then 0 else i + 1;
      forall x | 0 <= x < |s.status| && (i' == first || Passed(first, i', x)) ensures Claimed(s.status[x]) {
        assert x == i || Passed(first, i, x);
      }
    }
  }

  // The remaining steps are local: each only has to show what it has learnt.

  lemma GetKeeps(c: Config, s: State, v: View, t: nat)
    requires ValidConfig(c) && Inv(c, s, v) && t < c.threads && s.pcs[t] == Get(None)
    ensures Inv(c, At(s, t, Scan(Start(c, t), 0)), v)
  {
    LocalKeeps(c, s, v, t, Scan(Start(c, t), 0));
  }

  lemma ScanKeeps(c: Config, s: State, v: View, t: nat)
    requires ValidConfig(c) && Inv(c, s, v) && t < c.threads && s.pcs[t].Scan?
    ensures Inv(c, At(s, t, ScanPc(c, s, t, s.pcs[t].i, s.pcs[t].waiting)), v)
  {
    var Scan(i, w) := s.pcs[t];
    if !c.weak && s.status[i] != Available {
      AfterScanSeen(c, s, t, i, if s.status[i] == Waiting then w + 1 else w);
    }
    LocalKeeps(c, s, v, t, ScanPc(c, s, t, i, w));
  }

  lemma ClaimLostKeeps(c: Config, s: State, v: View, t: nat)
    requires ValidConfig(c) && Inv(c, s, v) && t < c.threads && s.pcs[t].Claim?
    requires s.status[s.pcs[t].i] != Available || c.weak
    ensures Inv(c, At(s, t, AfterScan(c, t, s.pcs[t].i, s.pcs[t].waiting)), v)
  {
    var Claim(i, w) := s.pcs[t];
    if !c.weak {
      AfterScanSeen(c, s, t, i, w);
    }
    LocalKeeps(c, s, v, t, AfterScan(c, t, i, w));
  }

  lemma BodyKeeps(c: Config, s: State, v: View, t: nat, pc: Pc)
    requires ValidConfig(c) && Inv(c, s, v) && t < c.threads
    requires Busy(s.pcs[t]).Some? && Busy(pc) == Busy(s.pcs[t]) && pc.Work? == s.pcs[t].Work?
    ensures Inv(c, At(s, t, pc), v)
  {
    LocalKeeps(c, s, v, t, pc);
  }

  /** Taking up the next watcher, or returning the forwarded task. */
  lemma NotifyLearns(c: Config, s: State, rest: seq<nat>, next: Option<nat>)
    requires |s.status| == |c.dep| == |s.watch|
    requires forall x <- Listed(next) + rest :: x < |c.dep|
    ensures InRange(c, s, NotifyPc(rest, next)) && Sought(c, s, NotifyPc(rest, next))
    ensures Hand(NotifyPc(rest, next)) == Listed(next) + rest
    ensures Forwarded(NotifyPc(rest, next)) == next
  {
    if rest == [] {
      assert next.Some? ==> next.value in Listed(next) + rest;
    } else {
      assert rest[0] in Listed(next) + rest;
      assert Listed(next) + [rest[0]] + rest[1..] == Listed(next) + rest;
    }
  }

  lemma NotifyKeeps(c: Config, s: State, v: View, t: nat)
    requires ValidConfig(c) && Inv(c, s, v) && t < c.threads && s.pcs[t].Notify?
    ensures Inv(c, At(s, t, NotifyPc(s.pcs[t].rest, s.pcs[t].next)), v)
  {
    HandBounds(c, s, v, t);
    NotifyLearns(c, s, s.pcs[t].rest, s.pcs[t].next);
    LocalKeeps(c, s, v, t, NotifyPc(s.pcs[t].rest, s.pcs[t].next));
  }

  /** What one turn of the search has learnt. */
  lemma SeekLearns(c: Config, s: State, pc: Pc)
    requires pc.Seek? && |s.status| == |c.dep| == |s.watch| && InRange(c, s, pc) && Sought(c, s, pc)
    requires ValidConfig(c)
    ensures InRange(c, s, SeekPc(c, s, pc)) && Sought(c, s, SeekPc(c, s, pc))
    ensures Hand(SeekPc(c, s, pc)) == Hand(pc)
    ensures Forwarded(SeekPc(c, s, pc)) != Forwarded(pc) ==>
              Forwarded(SeekPc(c, s, pc)) == Some(pc.j) && AllDepsDone(c, s, pc.j)
  {
    var Seek(again, j, k, wait, rest, next) := pc;
    if k == j && (again || !wait) {
      assert DoneBelow(c, s, j, j);
      assert AllDepsDone(c, s, j);
      assert Hand(Ready(j, rest, next)) == Hand(pc);
    }
  }

  lemma SeekKeeps(c: Config, s: State, v: View, t: nat)
    requires ValidConfig(c) && Inv(c, s, v) && t < c.threads && s.pcs[t].Seek?
    ensures Inv(c, At(s, t, SeekPc(c, s, s.pcs[t])), v)
  {
    assert InRange(c, s, s.pcs[t]) && Sought(c, s, s.pcs[t]);
    SeekLearns(c, s, s.pcs[t]);
    LocalKeeps(c, s, v, t, SeekPc(c, s, s.pcs[t]));
  }

  /** A closed list rules its task out; an open one is worth a push. */
  lemma LookLearns(c: Config, s: State, pc: Pc)
    requires pc.Look? && |s.status| == |c.dep| == |s.watch| && InRange(c, s, pc) && Sought(c, s, pc)
    requires s.watch[pc.k].Closed? ==> s.status[pc.k] == Done
    ensures InRange(c, s, LookPc(s, pc)) && Sought(c, s, LookPc(s, pc))
    ensures Hand(LookPc(s, pc)) == Hand(pc) && Forwarded(LookPc(s, pc)) == Forwarded(pc)
  {}

  lemma LookKeeps(c: Config, s: State, v: View, t: nat)
    requires ValidConfig(c) && Inv(c, s, v) && t < c.threads && s.pcs[t].Look?
    ensures Inv(c, At(s, t, LookPc(s, s.pcs[t])), v)
  {
    assert InRange(c, s, s.pcs[t]) && Sought(c, s, s.pcs[t]);
    LookLearns(c, s, s.pcs[t]);
    LocalKeeps(c, s, v, t, LookPc(s, s.pcs[t]));
  }

  lemma PushLostKeeps(c: Config, s: State, v: View, t: nat)
    requires ValidConfig(c) && Inv(c, s, v) && t < c.threads && s.pcs[t].Push?
    ensures var Push(again, j, k, wait, seen, rest, next) := s.pcs[t];
            Inv(c, At(s, t, Look(again, j, k, wait, rest, next)), v)
  {
    var Push(again, j, k, wait, seen, rest, next) := s.pcs[t];
    assert InRange(c, s, s.pcs[t]) && Sought(c, s, s.pcs[t]);
    assert Forwarded(s.pcs[t]) == next;
    LocalKeeps(c, s, v, t, Look(again, j, k, wait, rest, next));
  }

  /** The part of the invariant that says a step of t is defined. */
  lemma Bounds(c: Config, s: State, v: View, t: nat)
    requires ValidConfig(c) && Inv(c, s, v) && t < c.threads
    ensures Shape(c, s) && InRange(c, s, s.pcs[t])
    ensures |s.status| == |s.watch| == |v.loc| == |v.owner| == |c.dep| && |s.pcs| == c.threads
  {}

  /** A thread at the entry of dag_get_task. */
  lemma GetStepKeeps(c: Config, s: State, v: View, t: nat) returns (v': View)
    requires ValidConfig(c) && Inv(c, s, v) && t < c.threads && s.pcs[t].Get?
    ensures Inv(c, Step(c, s, t, false), v')
  {
    hide Inv, Shape;
    Bounds(c, s, v, t);
    var next := s.pcs[t].next;
    if next.Some? {
      StartForwardedKeeps(c, s, v, t, next.value);
      v' := View(v.loc[next.value := Nowhere], v.owner[next.value := Some(t)]);
    } else {
      GetKeeps(c, s, v, t);
      v' := v;
    }
  }

  /** A thread that tries to claim a task. */
  lemma ClaimStepKeeps(c: Config, s: State, v: View, t: nat, spurious: bool) returns (v': View)
    requires ValidConfig(c) && Inv(c, s, v) && t < c.threads && s.pcs[t].Claim? && (spurious ==> c.weak)
    ensures Inv(c, Step(c, s, t, spurious), v')
  {
    hide Inv, Shape;
    Bounds(c, s, v, t);
    var i := s.pcs[t].i;
    if s.status[i] == Available && !spurious {
      ClaimKeeps(c, s, v, t, i);
      v' := v.(owner := v.owner[i := Some(t)]);
    } else {
      ClaimLostKeeps(c, s, v, t);
      v' := v;
    }
  }

  /** A thread inside a body. */
  lemma WorkStepKeeps(c: Config, s: State, v: View, t: nat)
    requires ValidConfig(c) && Inv(c, s, v) && t < c.threads && s.pcs[t].Work?
    ensures Inv(c, Step(c, s, t, false), v)
  {
    hide Inv, Shape;
    Bounds(c, s, v, t);
    var i := s.pcs[t].task;
    if s.pcs[t].ran < c.work[i] {
      BodyKeeps(c, s, v, t, Work(i, s.pcs[t].ran + 1));
    } else {
      FinishKeeps(c, s, v, t, i);
    }
  }

  /** A thread closing the list of its task. */
  lemma SwapStepKeeps(c: Config, s: State, v: View, t: nat, spurious: bool) returns (v': View)
    requires ValidConfig(c) && Inv(c, s, v) && t < c.threads && s.pcs[t].Swap? && (spurious ==> c.weak)
    ensures Inv(c, Step(c, s, t, spurious), v')
  {
    hide Inv, Shape;
    Bounds(c, s, v, t);
    var Swap(i, seen) := s.pcs[t];
    if s.watch[i] == Open(seen) && !spurious {
      v' := SwapKeeps(c, s, v, t, i, seen);
    } else {
      BodyKeeps(c, s, v, t, Close(i));
      v' := v;
    }
  }

  /** A thread that places a watcher. */
  lemma WatchStepKeeps(c: Config, s: State, v: View, t: nat, spurious: bool) returns (v': View)
    requires ValidConfig(c) && Inv(c, s, v) && t < c.threads && (spurious ==> c.weak)
    requires s.pcs[t].Push? || s.pcs[t].Release?
    ensures Inv(c, Step(c, s, t, spurious), v')
  {
    hide Inv, Shape;
    Bounds(c, s, v, t);
    v' := v;
    match s.pcs[t] {
      case Push(_, j, k, _, seen, _, _) =>
        if s.watch[k] == Open(seen) && !spurious {
          PushKeeps(c, s, v, t);
          v' := v.(loc := v.loc[j := OnList(k)]);
        } else {
          PushLostKeeps(c, s, v, t);
        }
      case Release(j, _, _) =>
        ReleaseKeeps(c, s, v, t);
        v' := v.(loc := v.loc[j := Nowhere]);
      case _ =>
    }
  }

  /** Every step of every thread keeps the invariant. */
  lemma StepKeeps(c: Config, s: State, v: View, t: nat, spurious: bool) returns (v': View)
    requires ValidConfig(c) && Inv(c, s, v) && t < c.threads && (spurious ==> c.weak)
    ensures Inv(c, Step(c, s, t, spurious), v')
  {
    hide Inv, Shape;
    Bounds(c, s, v, t);
    v' := v;
    match s.pcs[t] {
      case Get(_) => v' := GetStepKeeps(c, s, v, t);
      case Scan(_, _) => ScanKeeps(c, s, v, t);
      case Claim(_, _) => v' := ClaimStepKeeps(c, s, v, t, spurious);
      case Work(_, _) => WorkStepKeeps(c, s, v, t);
      case Close(i) => BodyKeeps(c, s, v, t, Swap(i, s.watch[i].watchers));
      case Swap(_, _) => v' := SwapStepKeeps(c, s, v, t, spurious);
      case Notify(_, _) => NotifyKeeps(c, s, v, t);
      case Seek(_, _, _, _, _, _) => SeekKeeps(c, s, v, t);
      case Look(_, _, _, _, _, _) => LookKeeps(c, s, v, t);
      case Push(_, _, _, _, _, _, _) => v' := WatchStepKeeps(c, s, v, t, spurious);
      case Release(_, _, _) => v' := WatchStepKeeps(c, s, v, t, spurious);
      case Stopped =>
    }
  }
}
