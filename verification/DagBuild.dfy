/**
 Building the task graph from the chain of active instances, and putting it back
 to its start state before the next period.  Both leave exactly the state from
 which the runs of DispatchPointers start, although one visits the tasks by
 prerequisite and the other by dependent.
 */
module DagBuild {
  import opened Basics
  import D = Dispatch
  import S = DispatchSafety
  import P = DispatchPointers
  import Q = SerialEquivalence
  import Sets = ParSet

  /** Spare tasks allowed for when the vectors grow. */
  const INIT_SIZE: nat := 100

  /** The dependency vector of a task, or none if it has no prerequisite. */
  type Row = Option<seq<bool>>

  /** Task a is marked as a prerequisite of the task with this row. */
  predicate Marked(r: Row, a: nat) {
    r.Some? && a < |r.value| && r.value[a]
  }

  /** The tasks that the rows name as prerequisites of each task. */
  function Prerequisites(rows: seq<Row>): seq<set<nat>> {
    seq(|rows|, j requires 0 <= j < |rows| => set a: nat | a < j && Marked(rows[j], a))
  }

  /** Row r of task b has a mark exactly for its edges from tasks below m. */
  ghost predicate RowIs(chain: seq<Q.Instance>, r: Row, b: nat, m: nat)
    requires b < |chain|
  {
    && (r.Some? ==> |r.value| == b + 1 && exists a: nat :: a < b && Marked(r, a))
    && forall a: nat :: a < b ==> (Marked(r, a) <==> a < m && Q.Edge(chain[a], chain[b]))
  }

  lemma RowSettled(chain: seq<Q.Instance>, r: Row, b: nat, m: nat, m': nat)
    requires b < |chain| && b <= m && b <= m' && RowIs(chain, r, b, m)
    ensures RowIs(chain, r, b, m')
  {}

  /** The list of k holds the tasks below m whose first prerequisite is k. */
  ghost predicate ListIs(dep: seq<set<nat>>, watch: seq<P.Ptr>, next: seq<P.Ptr>, k: nat, m: nat) {
    m <= |dep| && k < |watch| && P.IsList(next, watch[k], S.FirstWatchers(dep, k, m))
  }

  lemma {:induction false} NoneYet(dep: seq<set<nat>>, k: nat, m: nat)
    requires m <= |dep| && m <= k + 1
    requires forall x, p :: 0 <= x < |dep| && p in dep[x] ==> p < x
    ensures S.FirstWatchers(dep, k, m) == []
  {
    if m != 0 {
      NoneYet(dep, k, m - 1);
    }
  }

  /** Hanging node j in front of the list of i when i is its first prerequisite. */
  lemma Hung(dep: seq<set<nat>>, watch: seq<P.Ptr>, next: seq<P.Ptr>, i: nat, j: nat)
    requires j < |dep| == |watch| == |next| && i < j && ListIs(dep, watch, next, i, j)
    requires dep[j] != {} && S.FirstDep(dep[j]) == i
    ensures ListIs(dep, watch[i := P.Node(j)], next[j := watch[i]], i, j + 1)
  {
    var l := S.FirstWatchers(dep, i, j);
    P.ListFrame(next, j, watch[i], watch[i], l);
    P.ConsList(next[j := watch[i]], j, l);
  }

  /** The other lists stay. */
  lemma NotHung(dep: seq<set<nat>>, watch: seq<P.Ptr>, next: seq<P.Ptr>, i: nat, j: nat, p: P.Ptr, k: nat, m: nat)
    requires j < |dep| == |watch| == |next| && i < j && k < |dep| && k != i && ListIs(dep, watch, next, k, m)
    requires dep[j] != {} && S.FirstDep(dep[j]) == i
    ensures ListIs(dep, watch[i := P.Node(j)], next[j := p], k, m)
  {
    P.ListFrame(next, j, p, watch[k], S.FirstWatchers(dep, k, m));
  }

  lemma NotListed(dep: seq<set<nat>>, watch: seq<P.Ptr>, next: seq<P.Ptr>, i: nat, j: nat)
    requires j < |dep| && (dep[j] == {} || S.FirstDep(dep[j]) != i) && ListIs(dep, watch, next, i, j)
    ensures ListIs(dep, watch, next, i, j + 1)
  {}

  /** One turn of the inner loop: the row, status and lists after looking at i, j. */
  lemma EdgeStep(
    chain: seq<Q.Instance>, watch: seq<P.Ptr>, next: seq<P.Ptr>, r: Row, i: nat, j: nat, k: nat, watch': seq<P.Ptr>,
    next': seq<P.Ptr>)
    requires i < j < |chain| == |watch| == |next| && k < |chain| && RowIs(chain, r, j, i)
    requires ListIs(Q.Deps(chain), watch, next, k, Seen(|chain|, i, j, k))
    requires ListIs(Q.Deps(chain), watch, next, i, j)
    requires if r.None? && Q.Edge(chain[i], chain[j])
             then watch' == watch[i := P.Node(j)] && next' == next[j := watch[i]]
             else watch' == watch && next' == next
    ensures ListIs(Q.Deps(chain), watch', next', k, Seen(|chain|, i, j + 1, k))
  {
    hide Q.Edge, ListIs;
    var dep := Q.Deps(chain);
    assert Q.Edge(chain[i], chain[j]) <==> i in dep[j];
    if r.None? {
      assert forall a: nat :: a < i ==> !Marked(r, a) && a !in dep[j];
      if Q.Edge(chain[i], chain[j]) {
        if k == i {
          Hung(dep, watch, next, i, j);
        } else {
          NotHung(dep, watch, next, i, j, watch[i], k, Seen(|chain|, i, j, k));
        }
      } else {
        NotListed(dep, watch, next, i, j);
      }
    } else {
      var a: nat :| a < j && Marked(r, a);
      assert a in dep[j] && a < i;
      NotListed(dep, watch, next, i, j);
    }
  }

  /** How far the list of k has been filled when the loops are at i, j. */
  function Seen(n: nat, i: nat, j: nat, k: nat): nat {
    if k < i then n else if k == i then j else 0
  }

  /** The vectors of the active tasks. */
  datatype Vectors = Vectors(
    status: seq<D.Status>, watch: seq<P.Ptr>, rows: seq<Row>, ids: seq<Option<nat>>, next: seq<P.Ptr>)

  /** The loops of dag_build have compared tasks below i with all later tasks
      and task i with tasks below j. */
  ghost predicate Compared(chain: seq<Q.Instance>, v: Vectors, i: nat, j: nat) {
    && |v.status| == |v.watch| == |v.rows| == |v.ids| == |v.next| == |chain| && i <= |chain| && j <= |chain|
    && (forall b: nat :: b < |chain| ==>
          && RowIs(chain, v.rows[b], b, if b < j then i + 1 else i)
          && v.status[b] == (if v.rows[b].None? then D.Available else D.Waiting)
          && v.ids[b] == Some(b))
    && forall k: nat :: k < |chain| ==> ListIs(Q.Deps(chain), v.watch, v.next, k, Seen(|chain|, i, j, k))
  }

  /** What one turn of the inner loop does to the vectors. */
  function InnerTurn(chain: seq<Q.Instance>, v: Vectors, i: nat, j: nat): Vectors
    requires i < j < |chain| == |v.status| == |v.watch| == |v.rows| == |v.ids| == |v.next|
    requires v.rows[j].Some? ==> i < |v.rows[j].value|
  {
    if !Q.Edge(chain[i], chain[j]) then v
    else if v.rows[j].Some? then v.(rows := v.rows[j := Some(v.rows[j].value[i := true])])
    else Vectors(v.status[j := D.Waiting], v.watch[i := P.Node(j)],
                 v.rows[j := Some(seq(j + 1, _ => false)[i := true])],
                 v.ids[j := Some(j)], v.next[j := v.watch[i]])
  }

  lemma RowStep(chain: seq<Q.Instance>, v: Vectors, i: nat, j: nat)
    requires i < j < |chain| && Compared(chain, v, i, j)
    ensures v.rows[j].Some? ==> i < |v.rows[j].value|
    ensures RowIs(chain, InnerTurn(chain, v, i, j).rows[j], j, i + 1)
  {
    var r, r' := v.rows[j], InnerTurn(chain, v, i, j).rows[j];
    assert RowIs(chain, r, j, i);
    if Q.Edge(chain[i], chain[j]) {
      assert Marked(r', i);
    } else if r.Some? {
      var a: nat :| a < j && Marked(r, a);
      assert Marked(r', a);
    }
  }

  lemma TurnKeeps(chain: seq<Q.Instance>, v: Vectors, i: nat, j: nat)
    requires i < j < |chain| && Compared(chain, v, i, j)
    ensures v.rows[j].Some? ==> i < |v.rows[j].value|
    ensures Compared(chain, InnerTurn(chain, v, i, j), i, j + 1)
  {
    hide RowIs, ListIs, Q.Edge, Q.Deps;
    RowStep(chain, v, i, j);
    var v', j' := InnerTurn(chain, v, i, j), j + 1;
    forall k: nat | k < |chain| ensures ListIs(Q.Deps(chain), v'.watch, v'.next, k, Seen(|chain|, i, j', k)) {
      assert ListIs(Q.Deps(chain), v.watch, v.next, i, Seen(|chain|, i, j, i));
      EdgeStep(chain, v.watch, v.next, v.rows[j], i, j, k, v'.watch, v'.next);
    }
  }

  /** From the end of one turn of the outer loop to the start of the next. */
  lemma NextTurn(chain: seq<Q.Instance>, v: Vectors, i: nat)
    requires i < |chain| && Compared(chain, v, i, |chain|)
    ensures Compared(chain, v, i + 1, if i + 2 < |chain| then i + 2 else |chain|)
  {
    hide RowIs, ListIs, Q.Edge, Q.Deps;
    var i', j := i + 1, if i + 2 < |chain| then i + 2 else |chain|;
    forall b: nat | b < |chain| ensures RowIs(chain, v.rows[b], b, if b < j then i + 2 else i + 1) {
      if b < j {
        RowSettled(chain, v.rows[b], b, i + 1, i + 2);
      }
    }
    forall k: nat | k < |chain| ensures ListIs(Q.Deps(chain), v.watch, v.next, k, Seen(|chain|, i', j, k)) {
      NextList(chain, v.watch, v.next, i, k);
    }
  }

  lemma NextList(chain: seq<Q.Instance>, watch: seq<P.Ptr>, next: seq<P.Ptr>, i: nat, k: nat)
    requires i < |chain| && k < |chain|
    requires ListIs(Q.Deps(chain), watch, next, k, Seen(|chain|, i, |chain|, k))
    ensures ListIs(Q.Deps(chain), watch, next, k, Seen(|chain|, i + 1, if i + 2 < |chain| then i + 2 else |chain|, k))
  {
    if k == i + 1 {
      NoneYet(Q.Deps(chain), k, if i + 2 < |chain| then i + 2 else |chain|);
    }
  }

  /** Before any comparison: no rows, empty lists, every task available. */
  lemma NothingCompared(chain: seq<Q.Instance>, v: Vectors)
    requires |v.status| == |v.watch| == |v.rows| == |v.ids| == |v.next| == |chain|
    requires forall b: nat :: b < |chain| ==>
               v.status[b] == D.Available && v.watch[b] == P.Null && v.rows[b] == None && v.ids[b] == Some(b)
    ensures Compared(chain, v, 0, if 1 < |chain| then 1 else |chain|)
  {
    var j := if 1 < |chain| then 1 else |chain|;
    forall k: nat | k < |chain| ensures ListIs(Q.Deps(chain), v.watch, v.next, k, Seen(|chain|, 0, j, k)) {
      NoneYet(Q.Deps(chain), k, Seen(|chain|, 0, j, k));
    }
  }

  /** The vectors are those from which every run of the dispatcher starts. */
  ghost predicate AtStart(v: Vectors) {
    var n, dep := |v.rows|, Prerequisites(v.rows);
    && |v.watch| == |v.ids| == |v.next| == n
    && v.status == S.InitialStatus(dep)
    && (forall j: nat :: j < n ==> v.ids[j] == Some(j))
    && forall k: nat :: k < n ==> ListIs(dep, v.watch, v.next, k, n)
  }

  /** After all comparisons the rows are the edges and the lists are complete. */
  lemma AllCompared(chain: seq<Q.Instance>, v: Vectors)
    requires Compared(chain, v, |chain|, |chain|)
    ensures Prerequisites(v.rows) == Q.Deps(chain) && Shaped(v.rows) && AtStart(v)
  {
    forall b: nat | b < |chain| ensures Prerequisites(v.rows)[b] == Q.Deps(chain)[b] {
      RowSet(chain, v.rows[b], b);
    }
    assert Prerequisites(v.rows) == Q.Deps(chain);
    forall b: nat | b < |chain| ensures v.status[b] == S.InitialStatus(Q.Deps(chain))[b] {
      RowSet(chain, v.rows[b], b);
    }
    forall k: nat | k < |chain| ensures ListIs(Q.Deps(chain), v.watch, v.next, k, |chain|) {
      assert ListIs(Q.Deps(chain), v.watch, v.next, k, Seen(|chain|, |chain|, |chain|, k));
    }
  }

  /** A task waits for just the earlier ones it must wait for. */
  lemma DepsExactly(chain: seq<Q.Instance>)
    ensures forall i: nat, j :: 0 <= j < |chain| ==>
              (i in Q.Deps(chain)[j] <==> i < j && Q.MustWait(chain[i], chain[j]))
  {
    hide Q.Edge, Q.MustWait;
    forall i: nat, j | 0 <= j < |chain|
      ensures i in Q.Deps(chain)[j] <==> i < j && Q.MustWait(chain[i], chain[j])
    {
      if i < j {
        Q.EdgeExactly(chain[i], chain[j]);
      }
    }
  }

  lemma RowSet(chain: seq<Q.Instance>, r: Row, b: nat)
    requires b < |chain| && RowIs(chain, r, b, |chain|)
    ensures (set a: nat | a < b && Marked(r, a)) == Q.Deps(chain)[b]
    ensures r.None? <==> Q.Deps(chain)[b] == {}
  {
    if r.Some? {
      var a: nat :| a < b && Marked(r, a);
      assert a in Q.Deps(chain)[b];
    }
  }

  // ---------------------------------------------------------------- reinit

  /** Rows as dag_build leaves them. */
  ghost predicate Shaped(rows: seq<Row>) {
    forall b: nat :: b < |rows| && rows[b].Some? ==> |rows[b].value| == b + 1
  }

  /** Tasks below i have been put back to their start state. */
  ghost predicate Restored(v: Vectors, i: nat) {
    && |v.status| == |v.watch| == |v.ids| == |v.next| == |v.rows| && i <= |v.rows|
    && (forall b: nat :: b < |v.rows| ==> v.ids[b] == Some(b))
    && (forall b: nat :: b < i ==> v.status[b] == S.InitialStatus(Prerequisites(v.rows))[b])
    && forall k: nat :: k < i ==> ListIs(Prerequisites(v.rows), v.watch, v.next, k, i)
  }

  /** What one turn of the loop over tasks does, given the first mark in row i. */
  function RestoreTurn(v: Vectors, i: nat, first: Option<nat>): Vectors
    requires i < |v.status| == |v.watch| == |v.ids| == |v.next|
    requires first.Some? ==> first.value < i
  {
    if first.None? then v.(status := v.status[i := D.Available], watch := v.watch[i := P.Null])
    else
      var j := first.value;
      v.(status := v.status[i := D.Waiting], ids := v.ids[i := Some(i)], next := v.next[i := v.watch[j]],
         watch := v.watch[i := P.Null][j := P.Node(i)])
  }

  /** The first task that row i marks. */
  ghost predicate IsFirst(r: Row, i: nat, first: Option<nat>) {
    match first
    case None => forall a: nat :: a < i ==> !Marked(r, a)
    case Some(j) => j < i && Marked(r, j) && forall a: nat :: a < j ==> !Marked(r, a)
  }

  lemma RestoreKeeps(v: Vectors, i: nat, first: Option<nat>)
    requires Restored(v, i) && i < |v.rows| && IsFirst(v.rows[i], i, first)
    ensures Restored(RestoreTurn(v, i, first), i + 1)
  {
    var dep, i' := Prerequisites(v.rows), i + 1;
    var v' := RestoreTurn(v, i, first);
    if first.Some? {
      assert first.value in dep[i];
      FirstIs(dep[i], first.value);
    }
    forall k: nat | k < i' ensures ListIs(dep, v'.watch, v'.next, k, i') {
      RestoredList(v, i, first, k);
    }
  }

  lemma FirstIs(deps: set<nat>, j: nat)
    requires j in deps && forall p <- deps :: j <= p
    ensures S.FirstDep(deps) == j
  {}

  lemma RestoredList(v: Vectors, i: nat, first: Option<nat>, k: nat)
    requires Restored(v, i) && i < |v.rows| && k <= i
    requires var deps := Prerequisites(v.rows)[i];
             if first.None? then deps == {} else deps != {} && first.value < i && S.FirstDep(deps) == first.value
    ensures var v' := RestoreTurn(v, i, first); ListIs(Prerequisites(v.rows), v'.watch, v'.next, k, i + 1)
  {
    var dep, watch := Prerequisites(v.rows), v.watch[i := P.Null];
    if k == i {
      NoneYet(dep, i, i);
      NoneYet(dep, i, i + 1);
    }
    assert k < i ==> ListIs(dep, v.watch, v.next, k, i);
    assert ListIs(dep, watch, v.next, k, i);
    if first.Some? {
      if k == first.value {
        Hung(dep, watch, v.next, k, i);
      } else {
        NotHung(dep, watch, v.next, first.value, i, v.watch[first.value], k, i);
      }
    }
  }

  lemma FirstRestored(v: Vectors)
    requires 0 < |v.rows| == |v.status| == |v.watch| == |v.ids| == |v.next|
    requires v.status[0] == D.Available && v.watch[0] == P.Null
    requires forall b: nat :: b < |v.rows| ==> v.ids[b] == Some(b)
    ensures Restored(v, 1)
  {
    var k: nat := 0;
    NoneYet(Prerequisites(v.rows), k, 1);
  }

  lemma AllRestored(v: Vectors)
    requires Restored(v, |v.rows|)
    ensures AtStart(v)
  {}

  /** The start state is the same each time, node by node: dag_reinit restores
      what dag_build made. */
  lemma StartIsUnique(v: Vectors, w: Vectors)
    requires AtStart(v) && AtStart(w) && v.rows == w.rows
    ensures v.status == w.status && v.watch == w.watch && v.ids == w.ids
    ensures forall j: nat :: j < |v.rows| && Prerequisites(v.rows)[j] != {} ==> v.next[j] == w.next[j]
  {
    var n, dep := |v.rows|, Prerequisites(v.rows);
    forall k: nat | k < n ensures v.watch[k] == w.watch[k] {
      assert ListIs(dep, v.watch, v.next, k, n) && ListIs(dep, w.watch, w.next, k, n);
    }
    forall j: nat | j < n && dep[j] != {} ensures v.next[j] == w.next[j] {
      var k := S.FirstDep(dep[j]);
      assert ListIs(dep, v.watch, v.next, k, n) && ListIs(dep, w.watch, w.next, k, n);
      assert j in S.FirstWatchers(dep, k, n);
    }
  }

  /** From the start vectors the runs of the dispatcher are safe and refine the
      runs on lists. */
  lemma StartsRun(c: D.Config, v: Vectors)
    requires D.ValidConfig(c) && AtStart(v) && Prerequisites(v.rows) == c.dep
    ensures P.Rep(c, P.State(v.status, v.watch, v.next, seq(c.threads, _ => P.Get(None))), S.Initial(c))
  {
    var s, a := P.State(v.status, v.watch, v.next, seq(c.threads, _ => P.Get(None))), S.Initial(c);
    forall k: nat | k < |c.dep| ensures P.RepWatch(s.link, s.head[k], a.watch[k]) {
      assert ListIs(c.dep, v.watch, v.next, k, |c.dep|);
    }
  }

  // ------------------------------------------------------------ the test

  /** What is recorded about the instrument of an instance. */
  datatype Info = Info(monitor: bool, read: Sets.ParSet, write: Sets.ParSet, readWrite: Sets.ParSet)

  /** The list, made of some of the objects, holds these names. */
  ghost predicate IsSet(p: Sets.ParSet, names: set<string>, objects: set<object>)
    reads objects
  {
    p in objects && p.Footprint() <= objects && (forall e <- p.elements :: e in objects)
    && p.Valid() && Sets.Names(p.Contents()) == names
  }

  ghost predicate Describes(info: Info, inst: Q.Instance, objects: set<object>)
    reads objects
  {
    && info.monitor == inst.monitor && IsSet(info.read, inst.read, objects)
    && IsSet(info.write, inst.write, objects) && IsSet(info.readWrite, inst.readWrite, objects)
  }

  ghost predicate Known(infos: seq<Info>, chain: seq<Q.Instance>, objects: set<object>)
    reads objects
  {
    |infos| == |chain| && forall k :: 0 <= k < |chain| ==> Describes(infos[k], chain[k], objects)
  }

  method Meet(
    current: Sets.ParSet, later: Sets.ParSet, ghost a: set<string>, ghost b: set<string>, ghost objects: set<object>)
    returns (meet: bool)
    requires IsSet(current, a, objects) && IsSet(later, b, objects)
    ensures meet <==> a * b != {}
  {
    var cnt := Sets.DagIntersect(current, later);
    meet := cnt != 0;
  }

  /** Must the later instance wait for the current one?  The tests are made one after
      the other until one says so. */
  method HasEdge(
    current: Info, later: Info, ghost a: Q.Instance, ghost b: Q.Instance, ghost objects: set<object>)
        returns (edge: bool)
    requires Describes(current, a, objects) && Describes(later, b, objects)
    ensures edge <==> Q.Edge(a, b)
    ensures edge <==> Q.MustWait(a, b)
  {
    Q.EdgeExactly(a, b);
    hide IsSet;
    edge := current.monitor || later.monitor;
    if !edge { edge := Meet(current.write, later.read, a.write, b.read, objects); }
    if !edge { edge := Meet(current.readWrite, later.read, a.readWrite, b.read, objects); }
    if !edge { edge := Meet(current.read, later.write, a.read, b.write, objects); }
    if !edge { edge := Meet(current.write, later.write, a.write, b.write, objects); }
    if !edge { edge := Meet(current.readWrite, later.write, a.readWrite, b.write, objects); }
    if !edge { edge := Meet(current.read, later.readWrite, a.read, b.readWrite, objects); }
    if !edge { edge := Meet(current.write, later.readWrite, a.write, b.readWrite, objects); }
  }

  class Dag {
    var numActive: nat
    var maxSize: nat
    var status: array?<D.Status>      // null until the vectors are created
    var watch: array<P.Ptr>
    var dep: array<Row>
    var nodeId: array<Option<nat>>    // the task each watch node speaks for
    var next: array<P.Ptr>            // the next field of each watch node
    var taskMap: seq<Q.Instance>
    var changed: nat

    ghost predicate Sized()
      reads this
    {
      && (status != null ==> status.Length == watch.Length == dep.Length == nodeId.Length == next.Length == maxSize)
      && (status == null ==> watch.Length == dep.Length == nodeId.Length == next.Length == 0)
      && watch != next
    }

    ghost predicate Valid()
      reads this
    {
      Sized() && status != null && numActive <= maxSize
    }

    constructor ()
      ensures Sized() && status == null && maxSize == 100 && numActive == 0 && changed == 1
      ensures fresh(watch) && fresh(dep) && fresh(nodeId) && fresh(next)
    {
      numActive, maxSize, changed, taskMap := 0, 100, 1, [];
      status := null;
      watch := new P.Ptr[0];
      dep := new Row[0];
      nodeId := new Option<nat>[0];
      next := new P.Ptr[0];
    }

    static method Reallocated<T(0)>(a: array<T>, size: nat) returns (b: array<T>)
      requires a.Length <= size
      ensures fresh(b) && b.Length == size && b[..a.Length] == a[..]
    {
      b := new T[size];
      forall k | 0 <= k < a.Length {
        b[k] := a[k];
      }
    }

    method Create()
      requires Sized()
      modifies this
      ensures Sized() && status != null && numActive == old(numActive) && maxSize == old(maxSize)
      ensures fresh(status) && fresh(watch) && fresh(dep) && fresh(nodeId) && fresh(next)
      ensures forall k :: 0 <= k < maxSize ==> watch[k] == P.Null && dep[k] == None
    {
      status := new D.Status[maxSize](_ => D.Done);
      watch := new P.Ptr[maxSize](_ => P.Null);
      dep := new Row[maxSize](_ => None);
      nodeId := new Option<nat>[maxSize](_ => Some(0));
      next := new P.Ptr[maxSize](_ => P.Null);
    }

    method Recreate(size: nat)
      requires Sized() && (status != null ==> maxSize <= size)
      modifies this
      ensures Sized() && status != null && numActive == old(numActive) && maxSize == size
      ensures fresh(status) && fresh(watch) && fresh(dep) && fresh(nodeId) && fresh(next)
    {
      if status == null {
        status := new D.Status[size];
      } else {
        status := Reallocated(status, size);
      }
      var before := watch;
      watch := Reallocated(watch, size);
      dep := Reallocated(dep, size);
      nodeId := Reallocated(nodeId, size);
      next := Reallocated(next, size);
      maxSize := size;
    }

    ghost function Active(): Vectors
      reads this, status, watch, dep, nodeId, next
      requires Valid()
    {
      Vectors(status[..numActive], watch[..numActive], dep[..numActive], nodeId[..numActive], next[..numActive])
    }

    /** The vectors are none of the objects. */
    ghost predicate Apart(objects: set<object>)
      reads this
    {
      (status == null || status !in objects) && watch !in objects && dep !in objects && nodeId !in objects
      && next !in objects && this !in objects
    }

    /** Task j waits for task i; with its first prerequisite it gets its row and is hung
        on the list of that one. */
    method AddEdge(ghost chain: seq<Q.Instance>, i: nat, j: nat)
      requires Valid() && i < j < |chain| == numActive && Q.Edge(chain[i], chain[j])
      requires dep[j].Some? ==> i < |dep[j].value|
      modifies status, watch, dep, nodeId, next
      ensures Active() == InnerTurn(chain, old(Active()), i, j)
    {
      hide Q.Edge;
      ghost var v := Active();
      assert v.rows[j] == dep[j];
      var row := dep[j];
      if row.None? {
        row := Some(seq(j + 1, _ => false));
        status[j] := D.Waiting;
        next[j] := watch[i];
        nodeId[j] := Some(j);
        watch[i] := P.Node(j);
      }
      dep[j] := Some(row.value[i := true]);
      assert Active() == InnerTurn(chain, v, i, j);
    }

    /** Who depends on instance i? */
    method CompareWithLater(chain: seq<Q.Instance>, infos: seq<Info>, i: nat, ghost objects: set<object>)
      requires Valid() && i < |chain| == numActive && Compared(chain, Active(), i, i + 1)
      requires Known(infos, chain, objects) && Apart(objects)
      modifies status, watch, dep, nodeId, next
      ensures Compared(chain, Active(), i, |chain|) && Known(infos, chain, objects)
    {
      hide Compared, Q.Edge, Describes;
      var j := i + 1;
      while j < numActive
        invariant i < j <= numActive && Compared(chain, Active(), i, j) && Known(infos, chain, objects)
      {
        ghost var v := Active();
        TurnKeeps(chain, v, i, j);
        assert v.rows[j] == dep[j];
        var edge := HasEdge(infos[i], infos[j], chain[i], chain[j], objects);
        if edge {
          AddEdge(chain, i, j);
        }
        j := j + 1;
      }
    }

    /** Empty lists, no rows, and every active task available. */
    method Clear()
      requires Valid() && numActive <= maxSize
      modifies watch, dep, nodeId
      ensures forall k :: 0 <= k < maxSize ==> watch[k] == P.Null && dep[k] == None
    {
      var i := 0;
      while i < maxSize
        invariant i <= maxSize
        invariant forall k :: 0 <= k < i ==> watch[k] == P.Null
        invariant forall k :: 0 <= k < i ==> dep[k] == None
      {
        watch[i] := P.Null;
        if dep[i].Some? {
          dep[i] := None;
        }
        nodeId[i] := None;
        i := i + 1;
      }
    }

    /** Counts the tasks and makes room for them. */
    method Prepare(chain: seq<Q.Instance>)
      requires Sized()
      modifies this, watch, dep, nodeId
      ensures Valid() && numActive == |chain|
      ensures status == old(status) || fresh(status)
      ensures watch == old(watch) || fresh(watch)
      ensures dep == old(dep) || fresh(dep)
      ensures nodeId == old(nodeId) || fresh(nodeId)
      ensures next == old(next) || fresh(next)
      ensures forall k: nat :: k < maxSize ==> watch[k] == P.Null && dep[k] == None
    {
      numActive := |chain|;
      if numActive > maxSize {
        Recreate(numActive + INIT_SIZE);
      }
      if status == null {
        Create();
      } else {
        Clear();
      }
    }

    method StartAll()
      requires Valid()
      modifies status, nodeId
      ensures forall k: nat :: k < numActive ==> status[k] == D.Available && nodeId[k] == Some(k)
    {
      var i := 0;
      while i < numActive
        invariant i <= numActive
        invariant forall k: nat :: k < i ==> status[k] == D.Available && nodeId[k] == Some(k)
      {
        status[i] := D.Available;
        nodeId[i] := Some(i);
        i := i + 1;
      }
    }

    method CompareAll(chain: seq<Q.Instance>, infos: seq<Info>, ghost objects: set<object>)
      requires Known(infos, chain, objects) && Apart(objects)
      requires Valid() && numActive == |chain| && Compared(chain, Active(), 0, if 1 < |chain| then 1 else |chain|)
      modifies this`taskMap, status, watch, dep, nodeId, next
      ensures taskMap == chain && Compared(chain, Active(), |chain|, |chain|)
    {
      hide Compared, Known;
      taskMap := [];
      var i := 0;
      while i < numActive
        invariant i <= numActive == |chain| && taskMap == chain[..i] && Known(infos, chain, objects)
        invariant Compared(chain, Active(), i, if i + 1 < numActive then i + 1 else numActive)
      {
        CompareWithLater(chain, infos, i, objects);
        NextTurn(chain, Active(), i);
        taskMap := taskMap + [chain[i]];
        i := i + 1;
      }
    }

    /** All tasks available, nothing compared yet. */
    method Begin(chain: seq<Q.Instance>)
      requires Sized()
      modifies this, status, watch, dep, nodeId, next
      ensures Valid() && numActive == |chain| && changed == 0
      ensures (status == old(status) || fresh(status)) && (watch == old(watch) || fresh(watch))
      ensures (dep == old(dep) || fresh(dep)) && (nodeId == old(nodeId) || fresh(nodeId))
      ensures next == old(next) || fresh(next)
      ensures Compared(chain, Active(), 0, if 1 < |chain| then 1 else |chain|)
    {
      hide Compared;
      Prepare(chain);
      StartAll();
      changed := 0;
      NothingCompared(chain, Active());
    }

    /** Builds the graph for a chain of active instances. */
    method Build(chain: seq<Q.Instance>, infos: seq<Info>, ghost objects: set<object>)
      requires Sized() && Known(infos, chain, objects) && Apart(objects)
      modifies this, status, watch, dep, nodeId, next
      ensures Valid() && numActive == |chain| && taskMap == chain && changed == 0
      ensures Prerequisites(Active().rows) == Q.Deps(chain) && Shaped(Active().rows)
      ensures forall i: nat, j :: 0 <= j < |chain| ==>
                (i in Prerequisites(Active().rows)[j] <==> i < j && Q.MustWait(chain[i], chain[j]))
      ensures AtStart(Active())
    {
      hide Compared, AtStart, Prerequisites, Q.Deps, Q.MustWait, Shaped, Known;
      Begin(chain);
      CompareAll(chain, infos, objects);
      AllCompared(chain, Active());
      DepsExactly(chain);
    }

    /** The places of the vectors that no task uses count as done. */
    method FinishRest()
      requires Valid()
      modifies status
      ensures forall b :: 0 <= b < numActive ==> status[b] == old(status[b])
      ensures forall b :: numActive <= b < maxSize ==> status[b] == D.Done
    {
      var i := numActive;
      while i < maxSize
        invariant numActive <= i <= maxSize
        invariant forall b :: 0 <= b < numActive ==> status[b] == old(status[b])
        invariant forall b :: numActive <= b < i ==> status[b] == D.Done
      {
        status[i] := D.Done;
        i := i + 1;
      }
    }

    /** Task i, which has no watchers yet, waits in the list of task j. */
    method Hang(i: nat, j: nat)
      requires Valid() && j < i < numActive && watch[i] == P.Null
      modifies status, watch, nodeId, next
      ensures Active() == RestoreTurn(old(Active()), i, Some(j))
      ensures forall b :: numActive <= b < maxSize ==> status[b] == old(status[b])
    {
      status[i] := D.Waiting;
      nodeId[i] := Some(i);
      next[i] := watch[j];
      watch[j] := P.Node(i);
    }

    /** One turn: hang task i on its first prerequisite, if it has one. */
    method RestoreTask(i: nat)
      requires Valid() && i < numActive && Shaped(Active().rows) && Restored(Active(), i)
      modifies status, watch, nodeId, next
      ensures Restored(Active(), i + 1)
      ensures forall b :: numActive <= b < maxSize ==> status[b] == old(status[b])
    {
      hide Restored;
      ghost var v := Active();
      ghost var first: Option<nat> := None;
      assert v.rows[i] == dep[i];
      status[i] := D.Available;
      watch[i] := P.Null;
      if dep[i].Some? {
        var j := 0;
        while j < i
          invariant j <= i && first.None? && status[i] == D.Available
          invariant forall a: nat :: a < j ==> !Marked(dep[i], a)
          invariant Active() == v.(status := v.status[i := D.Available], watch := v.watch[i := P.Null])
        {
          if dep[i].value[j] {
            Hang(i, j);
            first := Some(j);
            break;
          }
          j := j + 1;
        }
      }
      RestoreKeeps(v, i, first);
      assert Active() == RestoreTurn(v, i, first);
    }

    /** Puts the graph back to its start state, whatever the last run left. */
    method Reinit()
      requires Valid() && 0 < numActive && Shaped(Active().rows)
      requires forall b: nat :: b < numActive ==> nodeId[b] == Some(b)
      modifies status, watch, nodeId, next
      ensures AtStart(Active()) && Active().rows == old(Active().rows)
      ensures forall b :: numActive <= b < maxSize ==> status[b] == D.Done
    {
      hide AtStart, Restored, Shaped;
      FinishRest();
      status[0] := D.Available;
      watch[0] := P.Null;
      FirstRestored(Active());
      var i := 1;
      while i < numActive
        invariant 1 <= i <= numActive && Restored(Active(), i)
        invariant forall b :: numActive <= b < maxSize ==> status[b] == D.Done
      {
        RestoreTask(i);
        i := i + 1;
      }
      AllRestored(Active());
    }
  }
}
