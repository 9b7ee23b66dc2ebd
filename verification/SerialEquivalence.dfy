/**
 The edges of the task graph and what they are for: instances that run on
 several threads, with their actions interleaved in any way the dispatcher
 allows, leave the same global state as running them one after the other.
 */
module SerialEquivalence {
  import opened Basics
  import D = Dispatch
  import I = DispatchInvariant
  import S = DispatchSafety

  // -------------------------------------------------------------- instances

  /** Values of global variables and of the private state of an instance. */
  datatype Value = Scalar(x: real) | Signal(samples: seq<real>) | Text(s: string)

  type Memory = map<string, Value>

  /** What a variable holds, if it has been created. */
  function Look(m: Memory, x: string): Option<Value> {
    if x in m then Some(m[x]) else None
  }

  /** Global memory and the private state of one instance. */
  datatype Scene = Scene(mem: Memory, local: seq<Value>)

  /** One atomic action of a body. */
  type Action = Scene -> Scene

  /** The global variables a body only reads, only writes, or does both with;
      monitor says that it writes outputs directly, which the sets do not cover. */
  datatype Instance = Instance(
    read: set<string>, write: set<string>, readWrite: set<string>,
    monitor: bool, body: seq<Action>, start: seq<Value>)

  /** The body may change x. */
  predicate Changes(p: Instance, x: string) {
    p.monitor || x in p.write || x in p.readWrite
  }

  /** The body may depend on x or change it. */
  predicate Touches(p: Instance, x: string) {
    p.monitor || x in p.read || x in p.write || x in p.readWrite
  }

  ghost predicate Agree(p: Instance, m: Memory, m': Memory) {
    forall x :: Touches(p, x) ==> Look(m, x) == Look(m', x)
  }

  /** An action changes only what the sets say and depends only on it. */
  ghost predicate ActionRespects(p: Instance, a: Action) {
    && (forall c: Scene, x :: !Changes(p, x) ==> Look(a(c).mem, x) == Look(c.mem, x))
    && (forall c: Scene, c': Scene {:trigger a(c), a(c')} ::
          c.local == c'.local && Agree(p, c.mem, c'.mem) ==>
            && a(c).local == a(c').local
            && forall x :: Changes(p, x) ==> Look(a(c).mem, x) == Look(a(c').mem, x))
  }

  ghost predicate Respects(p: Instance) {
    forall r :: 0 <= r < |p.body| ==> ActionRespects(p, p.body[r])
  }

  // ------------------------------------------------------------------ edges

  /** dag_build makes the later instance wait for the earlier one.  There is no
      test of the two read-write sets against each other. */
  predicate Edge(cur: Instance, later: Instance) {
    || cur.monitor || later.monitor
    || cur.write * later.read != {}
    || cur.readWrite * later.read != {}
    || cur.read * later.write != {}
    || cur.write * later.write != {}
    || cur.readWrite * later.write != {}
    || cur.read * later.readWrite != {}
    || cur.write * later.readWrite != {}
  }

  /** One of the two may change what the other touches. */
  predicate Conflict(p: Instance, q: Instance, x: string) {
    (Changes(p, x) && Touches(q, x)) || (Touches(p, x) && Changes(q, x))
  }

  /** All the sets say of x is that the body reads and writes it. */
  predicate Mixes(p: Instance, x: string) {
    x in p.readWrite && x !in p.read && x !in p.write
  }

  /** What an edge is for: direct output, or a variable in conflict, unless all that is
      known is that both instances read and write it. */
  ghost predicate MustWait(cur: Instance, later: Instance) {
    cur.monitor || later.monitor || exists x :: Conflict(cur, later, x) && !(Mixes(cur, x) && Mixes(later, x))
  }

  /** There is an edge where one is needed for that, and nowhere else. */
  lemma EdgeExactly(cur: Instance, later: Instance)
    ensures Edge(cur, later) <==> MustWait(cur, later)
  {
    if Edge(cur, later) && !cur.monitor && !later.monitor {
      var x :| x in cur.write * later.read + cur.readWrite * later.read + cur.read * later.write
                    + cur.write * later.write + cur.readWrite * later.write
                    + cur.read * later.readWrite + cur.write * later.readWrite;
      assert Conflict(cur, later, x) && !(Mixes(cur, x) && Mixes(later, x));
    }
    if !Edge(cur, later) {
      forall x | Conflict(cur, later, x) ensures Mixes(cur, x) && Mixes(later, x) {
        NoEdgeMixes(cur, later, x);
      }
    }
  }

  /** Without an edge two instances that conflict both read and write the variable. */
  lemma NoEdgeMixes(a: Instance, b: Instance, x: string)
    requires !Edge(a, b) && Conflict(a, b, x)
    ensures Mixes(a, x) && Mixes(b, x)
  {
    assert x !in a.write * b.read && x !in a.readWrite * b.read && x !in a.read * b.write;
    assert x !in a.write * b.write && x !in a.readWrite * b.write;
    assert x !in a.read * b.readWrite && x !in a.write * b.readWrite;
  }

  function Deps(chain: seq<Instance>): seq<set<nat>> {
    seq(|chain|, j requires 0 <= j < |chain| => set i: nat | i < j && Edge(chain[i], chain[j]))
  }

  function GraphOf(chain: seq<Instance>, threads: nat, weak: bool): D.Config {
    D.Config(Deps(chain), seq(|chain|, j requires 0 <= j < |chain| => |chain[j].body|), threads, weak)
  }

  /** Task i comes before task j along edges. */
  ghost predicate Reaches(dep: seq<set<nat>>, i: nat, j: nat)
    decreases j
  {
    j < |dep| && (i in dep[j] || exists k :: k in dep[j] && k < j && Reaches(dep, i, k))
  }

  /** Instances that read and write a common variable are ordered by other edges. */
  ghost predicate Covered(chain: seq<Instance>) {
    forall i, j :: 0 <= i < j < |chain| && chain[i].readWrite * chain[j].readWrite != {} ==>
                     Reaches(Deps(chain), i, j)
  }

  /** Two instances of which one may change what the other touches are ordered. */
  lemma ConflictsOrdered(chain: seq<Instance>, i: nat, j: nat, x: string)
    requires Covered(chain) && i < j < |chain|
    requires Conflict(chain[i], chain[j], x)
    ensures Reaches(Deps(chain), i, j)
  {
    var a, b := chain[i], chain[j];
    if !Edge(a, b) {
      NoEdgeMixes(a, b, x);
      assert x in a.readWrite * b.readWrite;
    }
  }

  // ----------------------------------------------------------------- serial

  /** Memory and private state after instances 0..i-1 and the first p actions of i. */
  ghost function Serial(chain: seq<Instance>, m0: Memory, i: nat, p: nat): Scene
    requires i < |chain| && p <= |chain[i].body|
    decreases i, p + 1
  {
    if p == 0 then Scene(SerialMemory(chain, m0, i), chain[i].start)
    else chain[i].body[p - 1](Serial(chain, m0, i, p - 1))
  }

  /** The memory after running instances 0..i-1 in chain order. */
  ghost function SerialMemory(chain: seq<Instance>, m0: Memory, i: nat): Memory
    requires i <= |chain|
    decreases i, 0
  {
    if i == 0 then m0 else Serial(chain, m0, i - 1, |chain[i - 1].body|).mem
  }

  lemma {:induction false} SerialFrame(chain: seq<Instance>, m0: Memory, i: nat, p: nat, x: string)
    requires i < |chain| && p <= |chain[i].body| && Respects(chain[i]) && !Changes(chain[i], x)
    ensures Look(Serial(chain, m0, i, p).mem, x) == Look(SerialMemory(chain, m0, i), x)
  {
    if p != 0 {
      SerialFrame(chain, m0, i, p - 1, x);
      assert ActionRespects(chain[i], chain[i].body[p - 1]);
    }
  }

  /** A stretch of the chain that does not change x. */
  lemma {:induction false} SerialStretch(chain: seq<Instance>, m0: Memory, a: nat, b: nat, x: string)
    requires a <= b <= |chain| && forall u :: 0 <= u < |chain| ==> Respects(chain[u])
    requires forall u :: a <= u < b ==> !Changes(chain[u], x)
    ensures Look(SerialMemory(chain, m0, a), x) == Look(SerialMemory(chain, m0, b), x)
  {
    if a < b {
      SerialStretch(chain, m0, a, b - 1, x);
      SerialFrame(chain, m0, b - 1, |chain[b - 1].body|, x);
    }
  }

  // --------------------------------------------------------------- parallel

  /** Dispatcher state, global memory, private states, actions run so far. */
  datatype Global = Global(s: D.State, mem: Memory, local: seq<seq<Value>>, ran: seq<nat>)

  ghost function InitialGlobal(chain: seq<Instance>, c: D.Config, m0: Memory): Global {
    Global(S.Initial(c), m0, seq(|chain|, j requires 0 <= j < |chain| => chain[j].start), seq(|chain|, _ => 0))
  }

  /** The move runs an action of a body. */
  ghost predicate Acts(chain: seq<Instance>, g: Global, t: nat) {
    && t < |g.s.pcs| && g.s.pcs[t].Work? && |g.local| == |g.ran| == |chain|
    && g.s.pcs[t].task < |chain| && g.s.pcs[t].ran < |chain[g.s.pcs[t].task].body|
  }

  ghost function Next(chain: seq<Instance>, c: D.Config, g: Global, m: S.Move): Global
    requires D.ValidConfig(c)
  {
    var s' := S.Next(c, g.s, m);
    if Acts(chain, g, m.thread) then
      var i, r := g.s.pcs[m.thread].task, g.s.pcs[m.thread].ran;
      var after := chain[i].body[r](Scene(g.mem, g.local[i]));
      Global(s', after.mem, g.local[i := after.local], g.ran[i := r + 1])
    else g.(s := s')
  }

  ghost function Run(chain: seq<Instance>, c: D.Config, m0: Memory, sched: seq<S.Move>): Global
    requires D.ValidConfig(c)
  {
    if sched == [] then InitialGlobal(chain, c, m0)
    else Next(chain, c, Run(chain, c, m0, sched[..|sched| - 1]), sched[|sched| - 1])
  }

  lemma {:induction false} RunStatus(chain: seq<Instance>, c: D.Config, m0: Memory, sched: seq<S.Move>)
    requires D.ValidConfig(c)
    ensures Run(chain, c, m0, sched).s == S.Run(c, sched)
  {
    if sched != [] {
      RunStatus(chain, c, m0, sched[..|sched| - 1]);
    }
  }

  // -------------------------------------------------------------- invariant

  /** Task w has started and is the last started one that may change x. */
  ghost predicate LastChanger(chain: seq<Instance>, s: D.State, w: nat, x: string)
    requires |s.status| == |chain|
  {
    && w < |chain| && I.Claimed(s.status[w]) && Changes(chain[w], x)
    && forall u :: w < u < |chain| && I.Claimed(s.status[u]) ==> !Changes(chain[u], x)
  }

  ghost predicate NoChanger(chain: seq<Instance>, s: D.State, x: string)
    requires |s.status| == |chain|
  {
    forall u :: 0 <= u < |chain| && I.Claimed(s.status[u]) ==> !Changes(chain[u], x)
  }

  /** How many actions of each body have run. */
  ghost predicate Counts(chain: seq<Instance>, g: Global) {
    && |g.s.status| == |g.local| == |g.ran| == |chain|
    && (forall i :: 0 <= i < |chain| ==>
          && g.ran[i] <= |chain[i].body|
          && (!I.Claimed(g.s.status[i]) ==> g.ran[i] == 0)
          && (g.s.status[i] == D.Done ==> g.ran[i] == |chain[i].body|))
    && (forall t :: 0 <= t < |g.s.pcs| && g.s.pcs[t].Work? ==>
          g.s.pcs[t].task < |chain| && g.ran[g.s.pcs[t].task] == g.s.pcs[t].ran)
  }

  /** The private states are those the serial run would have reached. */
  ghost predicate Counted(chain: seq<Instance>, m0: Memory, g: Global) {
    && Counts(chain, g)
    && forall i :: 0 <= i < |chain| ==> g.local[i] == Serial(chain, m0, i, g.ran[i]).local
  }

  /** Each variable holds what the last started task that may change it has made
      of it so far in the serial run. */
  ghost predicate MemoryIs(chain: seq<Instance>, m0: Memory, g: Global)
    requires Counted(chain, m0, g)
  {
    && (forall w: nat, x :: LastChanger(chain, g.s, w, x) ==>
        Look(g.mem, x) == Look(Serial(chain, m0, w, g.ran[w]).mem, x))
    && (forall x :: NoChanger(chain, g.s, x) ==> Look(g.mem, x) == Look(m0, x))
  }

  ghost predicate GoodChain(chain: seq<Instance>, c: D.Config) {
    && D.ValidConfig(c) && c == GraphOf(chain, c.threads, c.weak)
    && Covered(chain)
    && forall i :: 0 <= i < |chain| ==> Respects(chain[i])
  }

  ghost predicate Inv(chain: seq<Instance>, c: D.Config, m0: Memory, g: Global, v: I.View)
    requires D.ValidConfig(c)
  {
    I.Inv(c, g.s, v) && Counted(chain, m0, g) && MemoryIs(chain, m0, g)
  }

  /** A task whose direct prerequisites are done has all earlier ones done. */
  lemma {:induction false} ReachesDone(c: D.Config, s: D.State, i: nat, j: nat)
    requires D.ValidConfig(c) && D.Shape(c, s) && I.Ordered(c, s)
    requires j < |c.dep| && I.AllDepsDone(c, s, j) && Reaches(c.dep, i, j)
    ensures i < |c.dep| && s.status[i] == D.Done
    decreases j
  {
    if i !in c.dep[j] {
      var k :| k in c.dep[j] && k < j && Reaches(c.dep, i, k);
      assert s.status[k] == D.Done;
      ReachesDone(c, s, i, k);
    }
  }

  /** While i is not done, no later task that may disturb it has started, and
      every earlier task that may disturb it is done. */
  lemma Undisturbed(chain: seq<Instance>, c: D.Config, s: D.State, i: nat, u: nat, x: string)
    requires GoodChain(chain, c) && D.Shape(c, s) && I.Ordered(c, s)
    requires i < |chain| && s.status[i] != D.Done && I.AllDepsDone(c, s, i) && Touches(chain[i], x)
    requires u < |chain| && u != i && Changes(chain[u], x)
    ensures i < u ==> !I.Claimed(s.status[u])
    ensures u < i ==> s.status[u] == D.Done
  {
    if u < i {
      ConflictsOrdered(chain, u, i, x);
      ReachesDone(c, s, u, i);
    } else if I.Claimed(s.status[u]) {
      ConflictsOrdered(chain, i, u, x);
      ReachesDone(c, s, i, u);
    }
  }

  /** A task that may start or is running sees, on everything it may touch, the
      memory it would see in the serial run. */
  lemma SeesSerial(chain: seq<Instance>, c: D.Config, m0: Memory, g: Global, i: nat, x: string)
    requires GoodChain(chain, c) && D.Shape(c, g.s) && I.Ordered(c, g.s)
    requires Counted(chain, m0, g) && MemoryIs(chain, m0, g)
    requires i < |chain| && g.s.status[i] != D.Done && I.AllDepsDone(c, g.s, i) && Touches(chain[i], x)
    ensures Look(g.mem, x) == Look(Serial(chain, m0, i, g.ran[i]).mem, x)
    ensures forall u :: i < u < |chain| && I.Claimed(g.s.status[u]) ==> !Changes(chain[u], x)
  {
    hide D.Shape, I.Ordered, GoodChain, I.AllDepsDone, Reaches, Covered, Touches, Serial, Changes;
    var st := g.s.status;
    forall u | 0 <= u < |chain| && u != i && Changes(chain[u], x)
      ensures if u < i then st[u] == D.Done else !I.Claimed(st[u])
    {
      Undisturbed(chain, c, g.s, i, u, x);
    }
    AllRespect(chain, c);
    if I.Claimed(st[i]) && Changes(chain[i], x) {
      assert LastChanger(chain, g.s, i, x);
    } else {
      var w := LastBelow(chain, g.s, i, x);
      if w < i {
        assert LastChanger(chain, g.s, w, x);
        SerialStretch(chain, m0, w + 1, i, x);
      } else {
        assert NoChanger(chain, g.s, x);
        SerialStretch(chain, m0, 0, i, x);
      }
      SerialStart(chain, m0, i);
      if !Changes(chain[i], x) {
        SerialFrame(chain, m0, i, g.ran[i], x);
      }
    }
  }

  lemma SerialStart(chain: seq<Instance>, m0: Memory, i: nat)
    requires i < |chain|
    ensures Serial(chain, m0, i, 0).mem == SerialMemory(chain, m0, i)
  {}

  lemma AllRespect(chain: seq<Instance>, c: D.Config)
    requires GoodChain(chain, c)
    ensures forall i :: 0 <= i < |chain| ==> Respects(chain[i])
  {}

  /** The last started task below i that may change x, or i if there is none. */
  lemma {:induction false} LastBelow(chain: seq<Instance>, s: D.State, i: nat, x: string) returns (w: nat)
    requires i <= |chain| == |s.status|
    ensures w <= i && (w < i ==> I.Claimed(s.status[w]) && Changes(chain[w], x))
    ensures forall u :: (if w < i then w + 1 else 0) <= u < i && I.Claimed(s.status[u]) ==> !Changes(chain[u], x)
  {
    if i == 0 {
      w := 0;
    } else if I.Claimed(s.status[i - 1]) && Changes(chain[i - 1], x) {
      w := i - 1;
    } else {
      w := LastBelow(chain, s, i - 1, x);
      if w == i - 1 {
        w := i;
      }
    }
  }

  // ---------------------------------------------------------------- steps

  /** What a dispatcher step does to the statuses and to the mover. */
  lemma StepEffect(c: D.Config, s: D.State, v: I.View, t: nat, spurious: bool)
    requires D.ValidConfig(c) && I.Inv(c, s, v) && t < c.threads && (spurious ==> c.weak)
    ensures D.Shape(c, s) && |s.status| == |c.dep| == |c.work|
    ensures var s' := D.Step(c, s, t, spurious);
            && |s'.status| == |s.status| && |s'.pcs| == |s.pcs| == c.threads && s'.pcs == s.pcs[t := s'.pcs[t]]
            && (s'.pcs[t].Work? ==>
                  && s'.pcs[t].task < |c.dep|
                  && if s.pcs[t].Work?
                     then s'.pcs[t] == D.Work(s.pcs[t].task, s.pcs[t].ran + 1) && s.pcs[t].ran < c.work[s.pcs[t].task]
                     else s'.pcs[t].ran == 0 && !I.Claimed(s.status[s'.pcs[t].task]))
            && (forall i :: 0 <= i < |c.dep| && s'.status[i] == D.Done && s.status[i] != D.Done ==>
                  s.pcs[t].Work? && s.pcs[t].task == i && c.work[i] <= s.pcs[t].ran)
            && (forall i :: 0 <= i < |c.dep| && I.Claimed(s'.status[i]) && !I.Claimed(s.status[i]) ==>
                  I.AllDepsDone(c, s, i))
            && (forall i :: 0 <= i < |c.dep| && I.Claimed(s.status[i]) ==> I.Claimed(s'.status[i]))
  {
    hide I.Inv, D.Shape, I.AllDepsDone;
    I.Bounds(c, s, v, t);
    S.WriterFacts(c, s, v, t);
    StartFacts(c, s, v, t);
  }

  lemma StartFacts(c: D.Config, s: D.State, v: I.View, t: nat)
    requires D.ValidConfig(c) && I.Inv(c, s, v) && t < c.threads
    ensures forall i :: 0 <= i < |c.dep| && s.status[i] == D.Available ==> I.AllDepsDone(c, s, i)
    ensures s.pcs[t].Get? && s.pcs[t].next.Some? ==>
              s.pcs[t].next.value < |c.dep| && I.AllDepsDone(c, s, s.pcs[t].next.value)
  {
    assert I.Forwarded(s.pcs[t]).Some? ==> I.AllDepsDone(c, s, I.Forwarded(s.pcs[t]).value);
  }

  /** Running one action: what it writes is what it would write in the serial run. */
  lemma ActionAgrees(chain: seq<Instance>, c: D.Config, m0: Memory, g: Global, i: nat, r: nat)
    requires GoodChain(chain, c) && D.Shape(c, g.s) && I.Ordered(c, g.s)
    requires Counted(chain, m0, g) && MemoryIs(chain, m0, g)
    requires i < |chain| && g.s.status[i] == D.InProgress && I.AllDepsDone(c, g.s, i)
    requires g.ran[i] == r < |chain[i].body|
    ensures var after, serial := chain[i].body[r](Scene(g.mem, g.local[i])), Serial(chain, m0, i, r + 1);
            && after.local == serial.local
            && (forall x :: Changes(chain[i], x) ==> Look(after.mem, x) == Look(serial.mem, x))
            && (forall x :: !Changes(chain[i], x) ==> Look(after.mem, x) == Look(g.mem, x))
  {
    hide D.Shape, I.Ordered, GoodChain, I.AllDepsDone, MemoryIs;
    var before := Serial(chain, m0, i, r);
    forall x | Touches(chain[i], x) ensures Look(g.mem, x) == Look(before.mem, x) {
      SeesSerial(chain, c, m0, g, i, x);
    }
    AllRespect(chain, c);
    assert Respects(chain[i]) && ActionRespects(chain[i], chain[i].body[r]);
    assert Agree(chain[i], g.mem, before.mem);
    assert Scene(g.mem, g.local[i]).local == before.local;
  }

  /** A move that runs an action keeps the memory right. */
  lemma ActKeepsMemory(chain: seq<Instance>, c: D.Config, m0: Memory, g: Global, i: nat, r: nat, g': Global)
    requires GoodChain(chain, c) && D.Shape(c, g.s) && I.Ordered(c, g.s)
    requires Counted(chain, m0, g) && MemoryIs(chain, m0, g)
    requires i < |chain| && g.s.status[i] == D.InProgress && I.AllDepsDone(c, g.s, i)
    requires g.ran[i] == r < |chain[i].body|
    requires g'.s.status == g.s.status && g'.mem == chain[i].body[r](Scene(g.mem, g.local[i])).mem
    requires g'.ran == g.ran[i := r + 1] && Counted(chain, m0, g')
    ensures MemoryIs(chain, m0, g')
  {
    hide D.Shape, I.Ordered, GoodChain, I.AllDepsDone;
    ActionAgrees(chain, c, m0, g, i, r);
    forall w: nat, x | LastChanger(chain, g'.s, w, x)
      ensures Look(g'.mem, x) == Look(Serial(chain, m0, w, g'.ran[w]).mem, x)
    {
      assert LastChanger(chain, g.s, w, x);
      if w != i && Changes(chain[i], x) {
        hide MemoryIs;
        OnlyOwnLast(chain, c, m0, g, i, w, x);
      }
    }
    forall x | NoChanger(chain, g'.s, x) ensures Look(g'.mem, x) == Look(m0, x) {
      assert NoChanger(chain, g.s, x);
    }
  }

  /** A running task that may change x is the last one to have started of those. */
  lemma OnlyOwnLast(chain: seq<Instance>, c: D.Config, m0: Memory, g: Global, i: nat, w: nat, x: string)
    requires GoodChain(chain, c) && D.Shape(c, g.s) && I.Ordered(c, g.s)
    requires Counted(chain, m0, g) && MemoryIs(chain, m0, g)
    requires i < |chain| && g.s.status[i] == D.InProgress && I.AllDepsDone(c, g.s, i) && Changes(chain[i], x)
    requires LastChanger(chain, g.s, w, x)
    ensures w == i
  {
    SeesSerial(chain, c, m0, g, i, x);
  }

  /** A move that runs no action keeps the memory right, even if a task starts. */
  lemma QuietKeepsMemory(chain: seq<Instance>, c: D.Config, m0: Memory, g: Global, s': D.State)
    requires GoodChain(chain, c) && D.Shape(c, g.s) && I.Ordered(c, g.s)
    requires Counted(chain, m0, g) && MemoryIs(chain, m0, g) && Counted(chain, m0, g.(s := s'))
    requires forall i :: 0 <= i < |chain| && I.Claimed(g.s.status[i]) ==> I.Claimed(s'.status[i])
    requires forall i :: 0 <= i < |chain| && I.Claimed(s'.status[i]) && !I.Claimed(g.s.status[i]) ==>
               I.AllDepsDone(c, g.s, i)
    ensures MemoryIs(chain, m0, g.(s := s'))
  {
    hide D.Shape, I.Ordered, GoodChain, I.AllDepsDone;
    forall w: nat, x | LastChanger(chain, s', w, x)
      ensures Look(g.mem, x) == Look(Serial(chain, m0, w, g.ran[w]).mem, x)
    {
      if I.Claimed(g.s.status[w]) {
        assert LastChanger(chain, g.s, w, x);
      } else {
        assert Touches(chain[w], x);
        SeesSerial(chain, c, m0, g, w, x);
      }
    }
    forall x | NoChanger(chain, s', x) ensures Look(g.mem, x) == Look(m0, x) {
      assert NoChanger(chain, g.s, x);
    }
  }

  /** The counts after an action of task i by thread t. */
  lemma ActCounts(chain: seq<Instance>, g: Global, t: nat, g': Global)
    requires Counts(chain, g) && Acts(chain, g, t)
    requires var i, r := g.s.pcs[t].task, g.s.pcs[t].ran;
             && g.s.status[i] == D.InProgress
             && g'.s == D.At(g.s, t, D.Work(i, r + 1)) && g'.ran == g.ran[i := r + 1]
             && |g'.local| == |g.local|
             && forall u :: 0 <= u < |g.s.pcs| && u != t && g.s.pcs[u].Work? ==> g.s.pcs[u].task != i
    ensures Counts(chain, g')
  {}

  /** The counts after a dispatcher step that runs no action. */
  lemma QuietCounts(chain: seq<Instance>, c: D.Config, g: Global, t: nat, s': D.State)
    requires Counts(chain, g) && t < |g.s.pcs| && !Acts(chain, g, t)
    requires |c.dep| == |c.work| == |chain| && forall i :: 0 <= i < |chain| ==> c.work[i] == |chain[i].body|
    requires |s'.status| == |chain| && |s'.pcs| == |g.s.pcs| && s'.pcs == g.s.pcs[t := s'.pcs[t]]
    requires s'.pcs[t].Work? ==>
               && s'.pcs[t].task < |chain|
               && if g.s.pcs[t].Work?
                  then g.s.pcs[t].task < |chain| && g.s.pcs[t].ran < c.work[g.s.pcs[t].task]
                  else s'.pcs[t].ran == 0 && !I.Claimed(g.s.status[s'.pcs[t].task])
    requires forall i :: 0 <= i < |chain| && s'.status[i] == D.Done && g.s.status[i] != D.Done ==>
               g.s.pcs[t].Work? && g.s.pcs[t].task == i && c.work[i] <= g.s.pcs[t].ran
    requires forall i :: 0 <= i < |chain| && I.Claimed(g.s.status[i]) ==> I.Claimed(s'.status[i])
    ensures Counts(chain, g.(s := s'))
  {
    assert !(s'.pcs[t].Work? && g.s.pcs[t].Work?);
  }

  ghost predicate IsGraphOf(chain: seq<Instance>, c: D.Config) {
    && D.ValidConfig(c) && |c.dep| == |c.work| == |chain|
    && forall i :: 0 <= i < |chain| ==> c.work[i] == |chain[i].body|
  }

  /** Every legal move keeps the counts, whatever the bodies do. */
  lemma NextCounts(chain: seq<Instance>, c: D.Config, g: Global, v: I.View, m: S.Move)
    requires IsGraphOf(chain, c) && I.Inv(c, g.s, v) && Counts(chain, g) && S.LegalMove(c, m)
    ensures D.ValidConfig(c) && Counts(chain, Next(chain, c, g, m))
    ensures Acts(chain, g, m.thread) ==>
              g.s.status[g.s.pcs[m.thread].task] == D.InProgress && Next(chain, c, g, m).s.status == g.s.status
  {
    hide I.Inv, D.Step, D.Shape, I.Ordered, I.AllDepsDone;
    var _ := S.NextKeeps(c, g.s, v, m);
    RunningFacts(c, g.s, v, m.thread);
    var t := m.thread;
    if Acts(chain, g, t) {
      WorkStep(c, g.s, t, m.spurious);
      ActCounts(chain, g, t, Next(chain, c, g, m));
    } else {
      StepEffect(c, g.s, v, t, m.spurious);
      QuietCounts(chain, c, g, t, Next(chain, c, g, m).s);
    }
  }

  /** Every legal move keeps the memory what the serial run makes it. */
  lemma NextKeeps(chain: seq<Instance>, c: D.Config, m0: Memory, g: Global, v: I.View, m: S.Move) returns (v': I.View)
    requires GoodChain(chain, c) && D.ValidConfig(c) && Inv(chain, c, m0, g, v) && S.LegalMove(c, m)
    ensures Inv(chain, c, m0, Next(chain, c, g, m), v')
  {
    hide I.Inv, D.Step, MemoryIs, Counts, D.Shape, I.Ordered, GoodChain, I.AllDepsDone;
    GraphFacts(chain, c);
    v' := S.NextKeeps(c, g.s, v, m);
    NextCounts(chain, c, g, v, m);
    RunningFacts(c, g.s, v, m.thread);
    CountSizes(chain, g);
    var t, g' := m.thread, Next(chain, c, g, m);
    if Acts(chain, g, t) {
      var i, r := g.s.pcs[t].task, g.s.pcs[t].ran;
      ActionAgrees(chain, c, m0, g, i, r);
      ActKeepsMemory(chain, c, m0, g, i, r, g');
    } else {
      StepEffect(c, g.s, v, t, m.spurious);
      QuietKeepsMemory(chain, c, m0, g, g'.s);
    }
  }

  lemma CountSizes(chain: seq<Instance>, g: Global)
    requires Counts(chain, g)
    ensures |g.s.status| == |g.local| == |g.ran| == |chain|
    ensures forall t :: 0 <= t < |g.s.pcs| && g.s.pcs[t].Work? ==>
              g.s.pcs[t].task < |chain| && g.ran[g.s.pcs[t].task] == g.s.pcs[t].ran
    ensures forall i :: 0 <= i < |chain| ==> g.ran[i] <= |chain[i].body|
  {}

  lemma GraphFacts(chain: seq<Instance>, c: D.Config)
    requires GoodChain(chain, c)
    ensures IsGraphOf(chain, c)
  {}

  lemma WorkStep(c: D.Config, s: D.State, t: nat, spurious: bool)
    requires D.ValidConfig(c) && D.Shape(c, s) && t < c.threads && (spurious ==> c.weak)
    requires s.pcs[t].Work? && s.pcs[t].task < |c.work| && s.pcs[t].ran < c.work[s.pcs[t].task]
    ensures D.Step(c, s, t, spurious) == D.At(s, t, D.Work(s.pcs[t].task, s.pcs[t].ran + 1))
  {}

  lemma RunningFacts(c: D.Config, s: D.State, v: I.View, t: nat)
    requires D.ValidConfig(c) && I.Inv(c, s, v) && t < c.threads
    ensures D.Shape(c, s) && I.Ordered(c, s) && |s.pcs| == c.threads && |s.status| == |c.dep|
    ensures s.pcs[t].Work? ==>
              && s.pcs[t].task < |c.dep| && s.status[s.pcs[t].task] == D.InProgress
              && I.AllDepsDone(c, s, s.pcs[t].task)
              && forall u :: 0 <= u < c.threads && u != t && s.pcs[u].Work? ==> s.pcs[u].task != s.pcs[t].task
    ensures forall u :: 0 <= u < c.threads && s.pcs[u].Work? ==>
              s.pcs[u].task < |c.dep| && s.status[s.pcs[u].task] == D.InProgress
  {
    forall u | 0 <= u < c.threads && s.pcs[u].Work?
      ensures s.pcs[u].task < |c.dep| && s.status[s.pcs[u].task] == D.InProgress &&
              v.owner[s.pcs[u].task] == Some(u)
    {
      assert I.Busy(s.pcs[u]) == Some(s.pcs[u].task);
      assert D.InRange(c, s, s.pcs[u]);
    }
  }

  // ---------------------------------------------------------------- results

  lemma GraphIsValid(chain: seq<Instance>, threads: nat, weak: bool)
    requires 0 < |chain| && 0 < threads
    ensures D.ValidConfig(GraphOf(chain, threads, weak)) && IsGraphOf(chain, GraphOf(chain, threads, weak))
  {}

  lemma InitialIsSerial(chain: seq<Instance>, c: D.Config, m0: Memory) returns (v: I.View)
    requires GoodChain(chain, c) && D.ValidConfig(c)
    ensures Inv(chain, c, m0, InitialGlobal(chain, c, m0), v)
  {
    v := S.InitialInv(c);
    var g := InitialGlobal(chain, c, m0);
    assert forall i :: 0 <= i < |chain| ==> !I.Claimed(g.s.status[i]);
    assert Counted(chain, m0, g);
  }

  lemma {:induction false} RunIsSerial(chain: seq<Instance>, c: D.Config, m0: Memory, sched: seq<S.Move>)
    returns (v: I.View)
    requires GoodChain(chain, c) && D.ValidConfig(c) && S.Legal(c, sched)
    ensures Inv(chain, c, m0, Run(chain, c, m0, sched), v)
  {
    hide Inv, Next, GoodChain;
    if sched == [] {
      v := InitialIsSerial(chain, c, m0);
    } else {
      v := RunIsSerial(chain, c, m0, sched[..|sched| - 1]);
      v := NextKeeps(chain, c, m0, Run(chain, c, m0, sched[..|sched| - 1]), v, sched[|sched| - 1]);
    }
  }

  ghost predicate AllDone(s: D.State) {
    forall x :: 0 <= x < |s.status| ==> s.status[x] == D.Done
  }

  /** However the threads are scheduled, when all tasks are done the memory is
      that of the serial run. */
  lemma ParallelIsSerial(chain: seq<Instance>, threads: nat, weak: bool, m0: Memory, sched: seq<S.Move>)
    requires 0 < |chain| && 0 < threads && Covered(chain) && forall i :: 0 <= i < |chain| ==> Respects(chain[i])
    requires S.Legal(GraphOf(chain, threads, weak), sched)
    ensures D.ValidConfig(GraphOf(chain, threads, weak))
    ensures var g := Run(chain, GraphOf(chain, threads, weak), m0, sched);
            AllDone(g.s) ==> g.mem == SerialMemory(chain, m0, |chain|)
  {
    var c := GraphOf(chain, threads, weak);
    GraphIsValid(chain, threads, weak);
    var v := RunIsSerial(chain, c, m0, sched);
    var g := Run(chain, c, m0, sched);
    if AllDone(g.s) {
      forall x ensures Look(g.mem, x) == Look(SerialMemory(chain, m0, |chain|), x) {
        FinalValue(chain, m0, g, x);
      }
      SameMemory(g.mem, SerialMemory(chain, m0, |chain|));
    }
  }

  lemma FinalValue(chain: seq<Instance>, m0: Memory, g: Global, x: string)
    requires Counted(chain, m0, g) && MemoryIs(chain, m0, g) && AllDone(g.s)
    requires forall i :: 0 <= i < |chain| ==> Respects(chain[i])
    ensures Look(g.mem, x) == Look(SerialMemory(chain, m0, |chain|), x)
  {
    var n := |chain|;
    var w := LastBelow(chain, g.s, n, x);
    if w < n {
      assert LastChanger(chain, g.s, w, x);
      SerialStretch(chain, m0, w + 1, n, x);
    } else {
      assert NoChanger(chain, g.s, x);
      SerialStretch(chain, m0, 0, n, x);
    }
  }

  lemma SameMemory(m: Memory, m': Memory)
    requires forall x :: Look(m, x) == Look(m', x)
    ensures m == m'
  {
    forall x ensures x in m <==> x in m' {
      assert Look(m, x) == Look(m', x);
    }
    forall x | x in m ensures m[x] == m'[x] {
      assert Look(m, x) == Look(m', x);
    }
  }
}
