/**
 Which chains of instances the task graph keeps serial.  The graph has no edge
 for two instances that both read and write a variable, so such a pair must be
 ordered by other edges; otherwise some bodies and some schedule of two or more
 threads lose the effect of the later instance.
 */
module SerialExact {
  import opened Basics
  import D = Dispatch
  import I = DispatchInvariant
  import S = DispatchSafety
  import P = DispatchProgress
  import opened SerialEquivalence

  // --------------------------------------------- holding one task back

  /** Thread t is at work on the task that is held back. */
  ghost predicate Holds(s: D.State, t: nat, hold: nat) {
    t < |s.pcs| && s.pcs[t].Work? && s.pcs[t].task == hold
  }

  /** The task held back has not run any action. */
  ghost predicate Untouched(s: D.State, hold: nat) {
    && (hold < |s.status| ==> s.status[hold] != D.Done)
    && forall t :: 0 <= t < |s.pcs| && Holds(s, t, hold) ==> s.pcs[t].ran == 0
  }

  /** Thread t may move while the task is held back. */
  ghost predicate MayMove(s: D.State, t: nat, hold: nat) {
    t < |s.pcs| && !Holds(s, t, hold)
  }

  lemma MoveUntouched(c: D.Config, s: D.State, v: I.View, t: nat, hold: nat)
    requires D.ValidConfig(c) && I.Inv(c, s, v) && t < c.threads && MayMove(s, t, hold) && Untouched(s, hold)
    ensures D.Shape(c, s) && Untouched(D.Step(c, s, t, false), hold)
  {
    hide I.Inv, I.AllDepsDone;
    StepEffect(c, s, v, t, false);
  }

  /** When only idle threads may move, a task that does not wait for the held one
      is done or the first such task is available. */
  lemma {:induction false} AvailableBeside(c: D.Config, s: D.State, v: I.View, hold: nat, y: nat) returns (x: nat)
    requires D.ValidConfig(c) && I.Inv(c, s, v)
    requires forall t :: 0 <= t < c.threads && MayMove(s, t, hold) ==> P.Idle(s.pcs[t])
    requires y < |c.dep| && y != hold && !Reaches(c.dep, hold, y) && s.status[y] != D.Done
    ensures x < |c.dep| && x != hold && s.status[x] == D.Available
    decreases y
  {
    if k: nat :| k in c.dep[y] && s.status[k] != D.Done {
      assert k < y && k != hold && !Reaches(c.dep, hold, k);
      x := AvailableBeside(c, s, v, hold, k);
    } else {
      x := y;
      NotWaitingBeside(c, s, v, hold, y);
    }
  }

  lemma NotWaitingBeside(c: D.Config, s: D.State, v: I.View, hold: nat, y: nat)
    requires D.ValidConfig(c) && I.Inv(c, s, v)
    requires forall t :: 0 <= t < c.threads && MayMove(s, t, hold) ==> P.Idle(s.pcs[t])
    requires y < |c.dep| && y != hold && s.status[y] != D.Done
    requires forall k :: k in c.dep[y] ==> k < |s.status| && s.status[k] == D.Done
    ensures s.status[y] == D.Available
  {
    HandsEmpty(c, s, hold);
    assert v.loc[y] == I.Nowhere by {
      assert I.Accounted(s, v.loc[y], y);
    }
  }

  /** Threads that may move and are idle have nothing in hand; the others are held in a body. */
  lemma HandsEmpty(c: D.Config, s: D.State, hold: nat)
    requires |s.pcs| == c.threads
    requires forall t :: 0 <= t < c.threads && MayMove(s, t, hold) ==> P.Idle(s.pcs[t])
    ensures forall t: nat, x: nat :: !I.HandHas(s, t, x)
    ensures forall t, k :: 0 <= t < c.threads && I.Busy(s.pcs[t]) == Some(k) ==> k == hold
  {
    forall t | 0 <= t < c.threads
      ensures I.Hand(s.pcs[t]) == [] && (I.Busy(s.pcs[t]).Some? ==> I.Busy(s.pcs[t]).value == hold)
    {
      if Holds(s, t, hold) {
        assert s.pcs[t].Work?;
      } else {
        assert MayMove(s, t, hold);
      }
    }
  }

  /** One more move of thread t. */
  lemma Extend(c: D.Config, sched: seq<S.Move>, v: I.View, t: nat) returns (sched': seq<S.Move>, v': I.View)
    requires D.ValidConfig(c) && S.Legal(c, sched) && I.Inv(c, S.Run(c, sched), v) && t < c.threads
    ensures sched' == sched + [S.Move(t, false)] && S.Legal(c, sched')
    ensures I.Inv(c, S.Run(c, sched'), v') && D.Shape(c, S.Run(c, sched))
    ensures S.Run(c, sched') == D.Step(c, S.Run(c, sched), t, false)
  {
    hide I.Inv, D.Step;
    sched' := sched + [S.Move(t, false)];
    S.RunAfter(c, sched, S.Move(t, false));
    v' := S.NextKeeps(c, S.Run(c, sched), v, S.Move(t, false));
    I.Bounds(c, S.Run(c, sched), v, t);
  }

  /** An idle thread alone gets to an available task. */
  lemma {:induction false} ScanTo(c: D.Config, sched: seq<S.Move>, v: I.View, t: nat, x: nat, hold: nat)
    returns (sched': seq<S.Move>, v': I.View)
    requires D.ValidConfig(c) && !c.weak && S.Legal(c, sched) && I.Inv(c, S.Run(c, sched), v) && t < c.threads
    requires x < |c.dep| && D.Shape(c, S.Run(c, sched)) && S.Run(c, sched).status[x] == D.Available
    requires P.Idle(S.Run(c, sched).pcs[t]) && Untouched(S.Run(c, sched), hold)
    requires D.InRange(c, S.Run(c, sched), S.Run(c, sched).pcs[t])
    ensures sched <= sched' && S.Legal(c, sched') && I.Inv(c, S.Run(c, sched'), v')
    ensures Untouched(S.Run(c, sched'), hold) && D.Shape(c, S.Run(c, sched'))
    ensures P.Lighter(P.LoadOf(c, S.Run(c, sched')), P.LoadOf(c, S.Run(c, sched)))
    decreases P.Distance(c, t, S.Run(c, sched).pcs[t], x)
  {
    hide I.Inv, D.Step, P.LoadOf, P.Lighter, S.Run, Untouched;
    var s := S.Run(c, sched);
    sched', v' := Extend(c, sched, v, t);
    var s' := S.Run(c, sched');
    MoveUntouched(c, s, v, t, hold);
    P.IdleStep(c, s, v, t);
    I.Bounds(c, s', v', t);
    if !P.Lighter(P.LoadOf(c, s'), P.LoadOf(c, s)) {
      if s.pcs[t].Claim? && s.status[s.pcs[t].i] == D.Available {
        ClaimWrites(c, s, t);
      }
      P.ScanNearer(c, s, v, t, x);
      sched', v' := ScanTo(c, sched', v', t, x, hold);
    }
  }

  lemma ClaimWrites(c: D.Config, s: D.State, t: nat)
    requires D.ValidConfig(c) && D.Shape(c, s) && t < c.threads && s.pcs[t].Claim?
    requires s.pcs[t].i < |c.dep| && s.status[s.pcs[t].i] == D.Available
    ensures D.Step(c, s, t, false).status != s.status
  {
    assert D.Step(c, s, t, false).status[s.pcs[t].i] == D.InProgress;
  }

  /** With two threads, any task that does not wait for the held one can be
      brought to an end while the held one runs no action. */
  lemma {:induction false} FinishBeside(c: D.Config, sched: seq<S.Move>, v: I.View, hold: nat, y: nat)
    returns (sched': seq<S.Move>, v': I.View)
    requires D.ValidConfig(c) && !c.weak && 2 <= c.threads && S.Legal(c, sched) && I.Inv(c, S.Run(c, sched), v)
    requires D.Shape(c, S.Run(c, sched)) && Untouched(S.Run(c, sched), hold)
    requires y < |c.dep| && y != hold && !Reaches(c.dep, hold, y)
    ensures sched <= sched' && S.Legal(c, sched') && I.Inv(c, S.Run(c, sched'), v')
    ensures Untouched(S.Run(c, sched'), hold) && D.Shape(c, S.Run(c, sched'))
    ensures S.Run(c, sched').status[y] == D.Done
    decreases P.LoadOf(c, S.Run(c, sched)).tasks, P.LoadOf(c, S.Run(c, sched)).nodes,
              P.LoadOf(c, S.Run(c, sched)).local
  {
    hide I.Inv, D.Step, P.LoadOf, S.Run, Untouched;
    var s := S.Run(c, sched);
    sched', v' := sched, v;
    if s.status[y] != D.Done {
      if t: nat :| t < c.threads && MayMove(s, t, hold) && !P.Idle(s.pcs[t]) {
        sched', v' := Extend(c, sched, v, t);
        MoveUntouched(c, s, v, t, hold);
        P.BusyStep(c, s, v, t);
      } else {
        var x := AvailableBeside(c, s, v, hold, y);
        var t := if Holds(s, 0, hold) then 1 else 0;
        OneHolder(c, s, v, hold);
        I.Bounds(c, s, v, t);
        sched', v' := ScanTo(c, sched, v, t, x, hold);
      }
      sched', v' := FinishBeside(c, sched', v', hold, y);
    }
  }

  lemma OneHolder(c: D.Config, s: D.State, v: I.View, hold: nat)
    requires D.ValidConfig(c) && I.Inv(c, s, v) && 2 <= c.threads
    ensures |s.pcs| == c.threads && !(Holds(s, 0, hold) && Holds(s, 1, hold))
  {
    if Holds(s, 0, hold) {
      assert I.Busy(s.pcs[0]) == Some(hold);
      assert v.owner[hold] == Some(0);
    }
  }

  /** Every schedule extends to one that finishes all tasks. */
  lemma {:induction false} FinishAll(c: D.Config, sched: seq<S.Move>, v: I.View, n: nat)
    returns (sched': seq<S.Move>, v': I.View)
    requires D.ValidConfig(c) && !c.weak && 2 <= c.threads && S.Legal(c, sched) && I.Inv(c, S.Run(c, sched), v)
    requires D.Shape(c, S.Run(c, sched)) && n <= |c.dep|
    ensures sched <= sched' && S.Legal(c, sched') && I.Inv(c, S.Run(c, sched'), v')
    ensures D.Shape(c, S.Run(c, sched'))
    ensures forall y :: 0 <= y < n ==> S.Run(c, sched').status[y] == D.Done
  {
    hide I.Inv, D.Step, S.Run;
    sched', v' := sched, v;
    if n != 0 {
      sched', v' := FinishAll(c, sched, v, n - 1);
      var before := sched';
      NothingReachedFromOutside(c, |c.dep|, n - 1);
      NobodyOutside(c, S.Run(c, before), v');
      sched', v' := FinishBeside(c, before, v', |c.dep|, n - 1);
      forall y | 0 <= y < n - 1 ensures S.Run(c, sched').status[y] == D.Done {
        assert sched'[..|before|] == before && sched'[..|sched'|] == sched';
        S.RankFalls(c, sched', |before|, |sched'|, y);
      }
    }
  }

  lemma {:induction false} NothingReachedFromOutside(c: D.Config, i: nat, j: nat)
    requires D.ValidConfig(c) && |c.dep| <= i && j < |c.dep|
    ensures !Reaches(c.dep, i, j)
    decreases j
  {
    if Reaches(c.dep, i, j) {
      var k :| k in c.dep[j] && k < j && Reaches(c.dep, i, k);
      NothingReachedFromOutside(c, i, k);
    }
  }

  lemma NobodyOutside(c: D.Config, s: D.State, v: I.View)
    requires D.ValidConfig(c) && I.Inv(c, s, v)
    ensures Untouched(s, |c.dep|)
  {
    forall t | 0 <= t < c.threads ensures !Holds(s, t, |c.dep|) {
      assert D.InRange(c, s, s.pcs[t]);
    }
  }

  // ------------------------------------------------------ the lost effect

  /** The same read and write sets. */
  predicate SameSets(p: Instance, q: Instance) {
    p.read == q.read && p.write == q.write && p.readWrite == q.readWrite && p.monitor == q.monitor
  }

  ghost predicate SameSignature(chain: seq<Instance>, chain': seq<Instance>) {
    |chain| == |chain'| && forall i :: 0 <= i < |chain| ==> SameSets(chain[i], chain'[i])
  }

  function Setting(x: string, v: real): Action {
    (c: Scene) => c.(mem := c.mem[x := Scalar(v)])
  }

  /** Instance i sets x to 1, instance j sets it to 2, the others do nothing. */
  function Clashing(chain: seq<Instance>, i: nat, j: nat, x: string): seq<Instance> {
    seq(|chain|, u requires 0 <= u < |chain| =>
      chain[u].(body := if u == i then [Setting(x, 1.0)] else if u == j then [Setting(x, 2.0)] else []))
  }

  lemma SettingRespects(p: Instance, x: string, v: real)
    requires x in p.readWrite
    ensures ActionRespects(p, Setting(x, v))
  {
    var a := Setting(x, v);
    forall c: Scene, y | !Changes(p, y) ensures Look(a(c).mem, y) == Look(c.mem, y) {}
    forall c: Scene, c': Scene | c.local == c'.local && Agree(p, c.mem, c'.mem)
      ensures a(c).local == a(c').local && forall y :: Changes(p, y) ==> Look(a(c).mem, y) == Look(a(c').mem, y)
    {
      forall y | Changes(p, y) ensures Look(a(c).mem, y) == Look(a(c').mem, y) {
        assert Touches(p, y);
      }
    }
  }

  lemma ClashingRespects(chain: seq<Instance>, i: nat, j: nat, x: string, u: nat)
    requires i < |chain| && j < |chain| && x in chain[i].readWrite && x in chain[j].readWrite && u < |chain|
    requires u == i || u == j
    ensures Respects(Clashing(chain, i, j, x)[u])
  {
    var p := Clashing(chain, i, j, x)[u];
    SettingRespects(p, x, 1.0);
    SettingRespects(p, x, 2.0);
  }

  lemma SameGraph(chain: seq<Instance>, chain': seq<Instance>)
    requires SameSignature(chain, chain')
    ensures Deps(chain) == Deps(chain') && (Covered(chain) <==> Covered(chain'))
  {
    forall i, j | 0 <= i < |chain| && 0 <= j < |chain| ensures Edge(chain[i], chain[j]) == Edge(chain'[i], chain'[j]) {
      assert SameSets(chain[i], chain'[i]) && SameSets(chain[j], chain'[j]);
    }
    forall j | 0 <= j < |chain| ensures Deps(chain)[j] == Deps(chain')[j] {}
  }

  /** The serial run ends with the value of the later of the two. */
  lemma {:induction false} ClashingSerial(chain: seq<Instance>, i: nat, j: nat, x: string, m0: Memory, n: nat)
    requires i < j < |chain| && n <= |chain|
    ensures j < n ==> Look(SerialMemory(Clashing(chain, i, j, x), m0, n), x) == Some(Scalar(2.0))
  {
    var ch := Clashing(chain, i, j, x);
    if j < n {
      if n - 1 == j {
        assert ch[j].body == [Setting(x, 2.0)];
        var before := Serial(ch, m0, j, 0);
        assert Serial(ch, m0, j, 1) == Setting(x, 2.0)(before);
      } else {
        ClashingSerial(chain, i, j, x, m0, n - 1);
        assert ch[n - 1].body == [];
      }
    }
  }

  lemma {:induction false} RunCounts(
    chain: seq<Instance>, c: D.Config, m0: Memory, sched: seq<S.Move>) returns (v: I.View)
    requires IsGraphOf(chain, c) && S.Legal(c, sched)
    ensures D.ValidConfig(c) && Counts(chain, Run(chain, c, m0, sched)) && I.Inv(c, Run(chain, c, m0, sched).s, v)
  {
    hide I.Inv, Next, Counts, D.Step;
    RunStatus(chain, c, m0, sched);
    v := S.RunInv(c, sched);
    if sched == [] {
      InitialCounts(chain, c, m0);
    } else {
      var before := sched[..|sched| - 1];
      var w := RunCounts(chain, c, m0, before);
      NextCounts(chain, c, Run(chain, c, m0, before), w, sched[|sched| - 1]);
    }
  }

  lemma InitialCounts(chain: seq<Instance>, c: D.Config, m0: Memory)
    requires IsGraphOf(chain, c)
    ensures Counts(chain, InitialGlobal(chain, c, m0))
  {
    assert forall i :: 0 <= i < |chain| ==> !I.Claimed(S.Initial(c).status[i]);
  }

  /** From a point where j has acted and i has not, the value of i stays. */
  lemma {:induction false} EarlierWins(
    chain: seq<Instance>, c: D.Config, i: nat, j: nat, x: string, m0: Memory, sched: seq<S.Move>, from: nat)
    requires i < j < |chain| && IsGraphOf(Clashing(chain, i, j, x), c) && S.Legal(c, sched) && from <= |sched|
    requires var g := Run(Clashing(chain, i, j, x), c, m0, sched[..from]);
             Counts(Clashing(chain, i, j, x), g) && g.ran[j] == 1 && g.ran[i] == 0
    ensures var g := Run(Clashing(chain, i, j, x), c, m0, sched);
            && Counts(Clashing(chain, i, j, x), g)
            && g.ran[j] == 1 && (g.ran[i] == 1 ==> Look(g.mem, x) == Some(Scalar(1.0)))
    decreases |sched|
  {
    var ch := Clashing(chain, i, j, x);
    var v := RunCounts(ch, c, m0, sched);
    if from == |sched| {
      assert sched[..from] == sched;
    } else {
      var before := sched[..|sched| - 1];
      assert before[..from] == sched[..from];
      EarlierWins(chain, c, i, j, x, m0, before, from);
      EarlierActs(chain, c, i, j, x, Run(ch, c, m0, before), sched[|sched| - 1]);
    }
  }

  /** Once the later one has run, only the earlier one can still act, and then its value
      is there. */
  lemma EarlierActs(chain: seq<Instance>, c: D.Config, i: nat, j: nat, x: string, g: Global, m: S.Move)
    requires i < j < |chain| && D.ValidConfig(c)
    requires var ch := Clashing(chain, i, j, x); Counts(ch, g) && g.ran[j] == 1
    requires g.ran[i] == 1 ==> Look(g.mem, x) == Some(Scalar(1.0))
    ensures var g' := Next(Clashing(chain, i, j, x), c, g, m);
            |g'.ran| == |g.ran| && g'.ran[j] == 1 && (g'.ran[i] == 1 ==> Look(g'.mem, x) == Some(Scalar(1.0)))
  {
    hide S.Next, D.ValidConfig;
    var ch := Clashing(chain, i, j, x);
    if Acts(ch, g, m.thread) {
      assert ch[j].body == [Setting(x, 2.0)] && ch[i].body == [Setting(x, 1.0)];
      assert g.s.pcs[m.thread].task == i && g.s.pcs[m.thread].ran == 0;
      var after := Setting(x, 1.0)(Scene(g.mem, g.local[i]));
      assert Next(ch, c, g, m).mem == after.mem;
    }
  }

  /** A pair that is not ordered: some complete run ends with the value of the
      earlier instance, the serial run with that of the later one. */
  lemma UncoveredLoses(chain: seq<Instance>, threads: nat, i: nat, j: nat, x: string, m0: Memory)
    returns (sched: seq<S.Move>)
    requires 2 <= threads && i < j < |chain| && x in chain[i].readWrite && x in chain[j].readWrite
    requires !Reaches(Deps(chain), i, j)
    ensures var ch, c := Clashing(chain, i, j, x), GraphOf(Clashing(chain, i, j, x), threads, false);
            && D.ValidConfig(c) && S.Legal(c, sched)
            && AllDone(Run(ch, c, m0, sched).s)
            && Run(ch, c, m0, sched).mem != SerialMemory(ch, m0, |ch|)
  {
    var ch := Clashing(chain, i, j, x);
    var c := GraphOf(ch, threads, false);
    hide I.Inv, D.Step, Run, S.Run, Counts, Clashing, Untouched;
    ClashingShape(chain, i, j, x);
    GraphIsValid(ch, threads, false);
    SameGraph(chain, ch);
    var v0 := S.InitialInv(c);
    StartOfRun(c, v0, i);
    var first, v1 := FinishBeside(c, [], v0, i, j);
    var v2;
    sched, v2 := FinishAll(c, first, v1, |c.dep|);
    assert sched[..|first|] == first;
    RunStatus(ch, c, m0, first);
    RunStatus(ch, c, m0, sched);
    var _ := RunCounts(ch, c, m0, first);
    var _ := RunCounts(ch, c, m0, sched);
    HeldBack(ch, c, Run(ch, c, m0, first), v1, i, j);
    EarlierWins(chain, c, i, j, x, m0, sched, |first|);
    AllRan(ch, Run(ch, c, m0, sched), i);
    ClashingSerial(chain, i, j, x, m0, |ch|);
  }

  lemma ClashingShape(chain: seq<Instance>, i: nat, j: nat, x: string)
    requires i < j < |chain|
    ensures var ch := Clashing(chain, i, j, x);
            |ch| == |chain| && SameSignature(chain, ch) && |ch[i].body| == 1 && |ch[j].body| == 1
  {}

  lemma StartOfRun(c: D.Config, v: I.View, hold: nat)
    requires D.ValidConfig(c) && I.Inv(c, S.Initial(c), v) && hold < |c.dep|
    ensures I.Inv(c, S.Run(c, []), v) && D.Shape(c, S.Run(c, [])) && Untouched(S.Run(c, []), hold)
  {}

  lemma HeldBack(ch: seq<Instance>, c: D.Config, g: Global, v: I.View, i: nat, j: nat)
    requires IsGraphOf(ch, c) && I.Inv(c, g.s, v) && Counts(ch, g)
    requires i < |ch| && j < |ch| && Untouched(g.s, i) && g.s.status[j] == D.Done && |ch[j].body| == 1
    ensures g.ran[j] == 1 && g.ran[i] == 0
  {
    if g.s.status[i] == D.InProgress {
      var t := v.owner[i].value;
      assert I.Busy(g.s.pcs[t]) == Some(i);
      assert Holds(g.s, t, i);
    }
  }

  lemma AllRan(ch: seq<Instance>, g: Global, i: nat)
    requires Counts(ch, g) && i < |ch| && |ch[i].body| == 1
    requires forall y :: 0 <= y < |ch| ==> g.s.status[y] == D.Done
    ensures g.ran[i] == 1 && AllDone(g.s)
  {}

  /** Whatever the bodies do within the declared sets and however the threads are
      scheduled, a complete run leaves the memory of the serial run. */
  ghost predicate AlwaysSerial(chain: seq<Instance>, threads: nat) {
    forall chain', m0, sched ::
      && SameSignature(chain, chain') && 0 < |chain'| && 0 < threads
      && (forall i :: 0 <= i < |chain'| ==> Respects(chain'[i]))
      && D.ValidConfig(GraphOf(chain', threads, false)) && S.Legal(GraphOf(chain', threads, false), sched)
      && AllDone(Run(chain', GraphOf(chain', threads, false), m0, sched).s) ==>
        Run(chain', GraphOf(chain', threads, false), m0, sched).mem == SerialMemory(chain', m0, |chain'|)
  }

  /** With two or more threads the graph keeps a chain serial exactly when every
      two instances that read and write a common variable are ordered by edges. */
  lemma SerialExactlyWhenCovered(chain: seq<Instance>, threads: nat)
    requires 0 < |chain| && 2 <= threads
    ensures AlwaysSerial(chain, threads) <==> Covered(chain)
  {
    if Covered(chain) {
      forall chain', m0, sched |
        && SameSignature(chain, chain') && 0 < |chain'|
        && (forall i :: 0 <= i < |chain'| ==> Respects(chain'[i]))
        && D.ValidConfig(GraphOf(chain', threads, false)) && S.Legal(GraphOf(chain', threads, false), sched)
        && AllDone(Run(chain', GraphOf(chain', threads, false), m0, sched).s)
        ensures Run(chain', GraphOf(chain', threads, false), m0, sched).mem == SerialMemory(chain', m0, |chain'|)
      {
        SameGraph(chain, chain');
        ParallelIsSerial(chain', threads, false, m0, sched);
      }
    } else {
      var i, j :| 0 <= i < j < |chain| && chain[i].readWrite * chain[j].readWrite != {} &&
                  !Reaches(Deps(chain), i, j);
      var x :| x in chain[i].readWrite * chain[j].readWrite;
      NotSerial(chain, threads, i, j, x);
    }
  }

  lemma NotSerial(chain: seq<Instance>, threads: nat, i: nat, j: nat, x: string)
    requires 2 <= threads && i < j < |chain| && x in chain[i].readWrite && x in chain[j].readWrite
    requires !Reaches(Deps(chain), i, j)
    ensures !AlwaysSerial(chain, threads)
  {
    var ch := Clashing(chain, i, j, x);
    var sched := UncoveredLoses(chain, threads, i, j, x, map[]);
    ClashingShape(chain, i, j, x);
    forall u | 0 <= u < |ch| ensures Respects(ch[u]) {
      if u == i || u == j {
        ClashingRespects(chain, i, j, x, u);
      }
    }
    assert !(Run(ch, GraphOf(ch, threads, false), map[], sched).mem == SerialMemory(ch, map[], |ch|));
  }
}
