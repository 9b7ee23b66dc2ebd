/**
 Safety of the dispatcher over whole runs, from the state dag_build leaves and
 under every schedule of the threads.
 */
module DispatchSafety {
  import opened Basics
  import opened Dispatch
  import opened DispatchInvariant

  // ------------------------------------------------------------ start state

  /** The first prerequisite of a task: the least one. */
  ghost function FirstDep(deps: set<nat>): (k: nat)
    requires deps != {}
    ensures k in deps && forall p <- deps :: k <= p
  {
    LeastExists(deps);
    var k :| k in deps && forall p <- deps :: k <= p;
    k
  }

  lemma LeastExists(deps: set<nat>)
    requires deps != {}
    ensures exists k :: k in deps && forall p <- deps :: k <= p
  {
    var k := Least(deps);
  }

  lemma {:induction false} Least(deps: set<nat>) returns (k: nat)
    requires deps != {}
    ensures k in deps && forall p <- deps :: k <= p
  {
    var x :| x in deps;
    k := x;
    var rest := deps - {x};
    if rest != {} {
      var y := Least(rest);
      k := if x <= y then x else y;
    }
    forall p | p in deps ensures k <= p {
      assert p == x || p in rest;
    }
  }

  /** The tasks below n whose first prerequisite is k, the latest first. */
  ghost function FirstWatchers(dep: seq<set<nat>>, k: nat, n: nat): (w: seq<nat>)
    requires n <= |dep|
    ensures forall x: nat :: x in w <==> x < n && dep[x] != {} && FirstDep(dep[x]) == k
    ensures Distinct(w)
  {
    if n == 0 then []
    else if dep[n - 1] != {} && FirstDep(dep[n - 1]) == k then [n - 1] + FirstWatchers(dep, k, n - 1)
    else FirstWatchers(dep, k, n - 1)
  }

  ghost function InitialStatus(dep: seq<set<nat>>): seq<Status> {
    seq(|dep|, j requires 0 <= j < |dep| => if dep[j] == {} then Available else Waiting)
  }

  ghost function InitialWatch(dep: seq<set<nat>>): seq<Watch> {
    seq(|dep|, k requires 0 <= k < |dep| => Open(FirstWatchers(dep, k, |dep|)))
  }

  ghost function Initial(c: Config): State {
    State(InitialStatus(c.dep), InitialWatch(c.dep), seq(c.threads, _ => Get(None)))
  }

  lemma InitialInv(c: Config) returns (v: View)
    requires ValidConfig(c)
    ensures Inv(c, Initial(c), v)
  {
    var s := Initial(c);
    var loc := seq(|c.dep|, x requires 0 <= x < |c.dep| =>
                     if c.dep[x] == {} then Nowhere else OnList(FirstDep(c.dep[x])));
    v := View(loc, seq(|c.dep|, _ => None));
    forall x | 0 <= x < |loc| ensures Accounted(s, loc[x], x) {
      if c.dep[x] != {} {
        assert OpenHas(s, FirstDep(c.dep[x]), x);
      }
    }
    forall t: nat, x: nat ensures !HandHas(s, t, x) {}
    assert Places(c, s, loc);
    assert Owned(c, s, v.owner);
  }

  // ------------------------------------------------------------------- runs

  /** One entry of a schedule: who moves, and whether its CAS fails spuriously. */
  datatype Move = Move(thread: nat, spurious: bool)

  ghost predicate LegalMove(c: Config, m: Move) {
    m.thread < c.threads && (m.spurious ==> c.weak)
  }

  ghost predicate Legal(c: Config, sched: seq<Move>) {
    forall m <- sched :: LegalMove(c, m)
  }

  ghost function Next(c: Config, s: State, m: Move): State
    requires ValidConfig(c)
  {
    if Shape(c, s) && LegalMove(c, m) then Step(c, s, m.thread, m.spurious) else s
  }

  /** The state a schedule leads to. */
  ghost function Run(c: Config, sched: seq<Move>): State
    requires ValidConfig(c)
  {
    if sched == [] then Initial(c)
    else Next(c, Run(c, sched[..|sched| - 1]), sched[|sched| - 1])
  }

  /** A legal move from a good state is a step and keeps it good. */
  lemma NextKeeps(c: Config, s: State, v: View, m: Move) returns (v': View)
    requires ValidConfig(c) && Inv(c, s, v) && LegalMove(c, m)
    ensures Next(c, s, m) == Step(c, s, m.thread, m.spurious)
    ensures Inv(c, Next(c, s, m), v')
  {
    assert Shape(c, s);
    v' := StepKeeps(c, s, v, m.thread, m.spurious);
  }

  /** Every reachable state satisfies the invariant. */
  lemma {:induction false} RunInv(c: Config, sched: seq<Move>) returns (v: View)
    requires ValidConfig(c) && Legal(c, sched)
    ensures Inv(c, Run(c, sched), v)
  {
    hide Inv, Step;
    if sched == [] {
      v := InitialInv(c);
    } else {
      v := RunInv(c, sched[..|sched| - 1]);
      v := NextKeeps(c, Run(c, sched[..|sched| - 1]), v, sched[|sched| - 1]);
    }
  }

  /** Move number i of a run is a step from a good state to a good state. */
  lemma RunStep(c: Config, sched: seq<Move>, i: nat) returns (v: View, v': View)
    requires ValidConfig(c) && Legal(c, sched) && i < |sched|
    ensures LegalMove(c, sched[i]) && Inv(c, Run(c, sched[..i]), v) && Inv(c, Run(c, sched[..i + 1]), v')
    ensures Run(c, sched[..i + 1]) == Step(c, Run(c, sched[..i]), sched[i].thread, sched[i].spurious)
  {
    hide Inv, Step;
    v := RunInv(c, sched[..i]);
    assert sched[..i + 1][..i] == sched[..i];
    assert LegalMove(c, sched[i]);
    v' := NextKeeps(c, Run(c, sched[..i]), v, sched[i]);
  }

  // ----------------------------------------------------- dependency safety

  /** No task is in progress or done, or handed to a thread to run, while one of
      its prerequisites is unfinished. */
  lemma DependencySafety(c: Config, sched: seq<Move>, j: nat, k: nat)
    requires ValidConfig(c) && Legal(c, sched) && j < |c.dep| && k in c.dep[j]
    ensures var s := Run(c, sched);
            && Shape(c, s)
            && (s.status[j] != Waiting ==> s.status[k] == Done)
            && forall t :: 0 <= t < c.threads && Forwarded(s.pcs[t]) == Some(j) ==> s.status[k] == Done
  {
    var s := Run(c, sched);
    var v := RunInv(c, sched);
    forall t | 0 <= t < c.threads && Forwarded(s.pcs[t]) == Some(j) ensures s.status[k] == Done {
      assert AllDepsDone(c, s, j);
    }
  }

  // ------------------------------------------------------- no lost wake-up

  /** Node x is at place l. */
  ghost predicate IsAt(s: State, l: Loc, x: nat) {
    match l
    case Nowhere => false
    case OnList(k) => OpenHas(s, k, x)
    case WithThread(t) => HandHas(s, t, x)
  }

  /** The watch node of a waiting task is in exactly one place, once, and if it
      is on a list then on that of an unfinished or still closing prerequisite;
      the node of any other task is nowhere. */
  lemma NoLostWakeup(c: Config, sched: seq<Move>, x: nat) returns (l: Loc)
    requires ValidConfig(c) && Legal(c, sched) && x < |c.dep|
    ensures var s := Run(c, sched);
            && |s.status| == |c.dep|
            && (s.status[x] == Waiting ==>
                  && IsAt(s, l, x)
                  && (forall l' :: IsAt(s, l', x) ==> l' == l)
                  && (l.OnList? ==> l.k in c.dep[x] && Distinct(s.watch[l.k].watchers))
                  && (l.WithThread? ==> Distinct(Hand(s.pcs[l.t]))))
            && (s.status[x] != Waiting ==> forall l' :: !IsAt(s, l', x))
  {
    var s := Run(c, sched);
    var v := RunInv(c, sched);
    l := v.loc[x];
    assert Accounted(s, l, x);
    forall l' | IsAt(s, l', x) ensures l' == l {}
  }

  // ---------------------------------------------------------- exactly once

  /** Statuses only ever move towards Done. */
  lemma StepRank(c: Config, s: State, v: View, t: nat, spurious: bool, x: nat)
    requires ValidConfig(c) && Inv(c, s, v) && t < c.threads && (spurious ==> c.weak) && x < |c.dep|
    ensures Rank(Step(c, s, t, spurious).status[x]) <= Rank(s.status[x])
    ensures s.status[x] != InProgress && Step(c, s, t, spurious).status[x] == InProgress ==>
              Step(c, s, t, spurious).pcs[t] == Work(x, 0)
  {
    hide Inv, Shape;
    Bounds(c, s, v, t);
    WriterFacts(c, s, v, t);
  }

  /** The status a thread is about to overwrite without looking. */
  lemma WriterFacts(c: Config, s: State, v: View, t: nat)
    requires ValidConfig(c) && Inv(c, s, v) && t < c.threads
    ensures s.pcs[t].Get? && s.pcs[t].next.Some? ==>
              s.pcs[t].next.value < |s.status| && s.status[s.pcs[t].next.value] == Waiting
    ensures s.pcs[t].Release? ==> s.pcs[t].j < |s.status| && s.status[s.pcs[t].j] == Waiting
    ensures s.pcs[t].Work? ==> s.pcs[t].task < |s.status| && s.status[s.pcs[t].task] == InProgress
  {
    var pc := s.pcs[t];
    if pc.Get? && pc.next.Some? {
      assert HandHas(s, t, pc.next.value);
    } else if pc.Release? {
      assert HandHas(s, t, pc.j);
    } else if pc.Work? {
      assert Busy(pc) == Some(pc.task);
    }
  }

  lemma {:induction false} RankFalls(c: Config, sched: seq<Move>, i: nat, j: nat, x: nat)
    requires ValidConfig(c) && Legal(c, sched) && i <= j <= |sched| && x < |c.dep|
    ensures |Run(c, sched[..i]).status| == |Run(c, sched[..j]).status| == |c.dep|
    ensures Rank(Run(c, sched[..j]).status[x]) <= Rank(Run(c, sched[..i]).status[x])
  {
    hide Step, Run, Next, Inv;
    if i == j {
      var v := RunInv(c, sched[..i]);
      Bounds(c, Run(c, sched[..i]), v, 0);
    } else {
      RankFalls(c, sched, i, j - 1, x);
      var v, v' := RunStep(c, sched, j - 1);
      Bounds(c, Run(c, sched[..j]), v', 0);
      StepRank(c, Run(c, sched[..j - 1]), v, sched[j - 1].thread, sched[j - 1].spurious, x);
    }
  }

  /** Move number i of the schedule is the one that starts task x. */
  ghost predicate Starts(c: Config, sched: seq<Move>, i: nat, x: nat)
    requires ValidConfig(c) && i < |sched|
  {
    var s, s' := Run(c, sched[..i]), Run(c, sched[..i + 1]);
    x < |s.status| && x < |s'.status| && s.status[x] != InProgress && s'.status[x] == InProgress
  }

  /** A task is started by at most one move of a run, that move puts the mover
      to work on it, and no other thread is ever at work on it. */
  lemma ExactlyOnce(c: Config, sched: seq<Move>, i: nat, j: nat, x: nat)
    requires ValidConfig(c) && Legal(c, sched) && i < |sched| && j < |sched| && x < |c.dep|
    requires Starts(c, sched, i, x) && Starts(c, sched, j, x)
    ensures i == j && sched[i].thread < |Run(c, sched[..i]).pcs|
    ensures Run(c, sched[..i + 1]).pcs == Run(c, sched[..i]).pcs[sched[i].thread := Work(x, 0)]
  {
    StartsFromAbove(c, sched, i, x);
    StartsFromAbove(c, sched, j, x);
    if i < j {
      RankFalls(c, sched, i + 1, j, x);
    } else if j < i {
      RankFalls(c, sched, j + 1, i, x);
    }
  }

  lemma StartsFromAbove(c: Config, sched: seq<Move>, i: nat, x: nat)
    requires ValidConfig(c) && Legal(c, sched) && i < |sched| && x < |c.dep| && Starts(c, sched, i, x)
    ensures sched[i].thread < |Run(c, sched[..i]).pcs|
    ensures Rank(Run(c, sched[..i]).status[x]) > Rank(InProgress)
    ensures Run(c, sched[..i + 1]).pcs == Run(c, sched[..i]).pcs[sched[i].thread := Work(x, 0)]
  {
    hide Run, Next, Step, Inv, Shape, ValidConfig;
    var v, v' := RunStep(c, sched, i);
    var s, m := Run(c, sched[..i]), sched[i];
    MoveStep(c, s, v, m);
    StepRank(c, s, v, m.thread, m.spurious, x);
    StepPcs(c, s, m.thread, m.spurious);
  }

  lemma MoveStep(c: Config, s: State, v: View, m: Move)
    requires ValidConfig(c) && Inv(c, s, v) && LegalMove(c, m)
    ensures Shape(c, s) && |s.status| == |c.dep| && |s.pcs| == c.threads && m.thread < c.threads
    ensures Next(c, s, m) == Step(c, s, m.thread, m.spurious)
  {
    hide Step;
  }

  /** A step moves no other thread. */
  lemma StepPcs(c: Config, s: State, t: nat, spurious: bool)
    requires ValidConfig(c) && Shape(c, s) && t < c.threads && (spurious ==> c.weak)
    ensures |Step(c, s, t, spurious).pcs| == |s.pcs|
    ensures Step(c, s, t, spurious).pcs == s.pcs[t := Step(c, s, t, spurious).pcs[t]]
  {
  }

  /** A task in progress is worked on by exactly one thread, and nobody works on
      any other task. */
  lemma OneWorker(c: Config, sched: seq<Move>, x: nat)
    requires ValidConfig(c) && Legal(c, sched) && x < |c.dep|
    ensures var s := Run(c, sched);
            && |s.status| == |c.dep| && |s.pcs| == c.threads
            && (s.status[x] == InProgress <==> exists t :: 0 <= t < c.threads && WorksOn(s, t, x))
            && forall t, u ::
                 0 <= t < c.threads && 0 <= u < c.threads && WorksOn(s, t, x) && WorksOn(s, u, x) ==> t == u
  {
    var s := Run(c, sched);
    var v := RunInv(c, sched);
    if s.status[x] == InProgress {
      assert WorksOn(s, v.owner[x].value, x);
    }
    forall t | 0 <= t < c.threads && WorksOn(s, t, x) ensures v.owner[x] == Some(t) && s.status[x] == InProgress {
      assert Busy(s.pcs[t]) == Some(x);
    }
  }

  ghost predicate WorksOn(s: State, t: nat, x: nat) {
    t < |s.pcs| && s.pcs[t].Work? && s.pcs[t].task == x
  }

  // ------------------------------------------------- what INVALID may mean

  /** dag_get_task has answered INVALID to some thread while a task is still
      waiting or available. */
  ghost predicate LeftTooEarly(c: Config, s: State) {
    exists t, x :: 0 <= t < |s.pcs| && 0 <= x < |s.status| && s.pcs[t] == Stopped && !Claimed(s.status[x])
  }

  /** With a strong CAS the answer INVALID means that every task is claimed,
      although the statuses were read one at a time. */
  lemma InvalidMeansClaimed(c: Config, sched: seq<Move>)
    requires ValidConfig(c) && Legal(c, sched) && !c.weak
    ensures !LeftTooEarly(c, Run(c, sched))
  {
    var s := Run(c, sched);
    var v := RunInv(c, sched);
    forall t, x | 0 <= t < |s.pcs| && 0 <= x < |s.status| && s.pcs[t] == Stopped ensures Claimed(s.status[x]) {
      assert SeenClaimed(c, s, t, s.pcs[t]);
    }
  }

  lemma RunAfter(c: Config, sched: seq<Move>, m: Move)
    requires ValidConfig(c)
    ensures Run(c, sched + [m]) == Next(c, Run(c, sched), m)
  {
    assert (sched + [m])[..|sched|] == sched;
  }
}
