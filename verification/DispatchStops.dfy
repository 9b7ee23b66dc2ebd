/**
 How a fair run of the dispatcher ends: once every task is done the threads let go of
 what they have in hand, find nothing to do and leave.
 */
module DispatchStops {
  import opened Basics
  import opened Dispatch
  import opened DispatchInvariant
  import opened DispatchSafety
  import opened DispatchProgress

  /** The looks a thread still takes when everything is done: to the end of its scan, and
      one more scan if it has met a waiting task. */
  function LooksLeft(c: Config, t: nat, pc: Pc): nat
    requires ValidConfig(c) && t < c.threads && (pc.Scan? || pc.Claim? ==> pc.i < |c.dep|)
  {
    match pc
    case Scan(i, w) => |c.dep| - Slot(|c.dep|, Start(c, t), i) + if w == 0 then 0 else |c.dep| + 1
    case Claim(i, w) => |c.dep| - Slot(|c.dep|, Start(c, t), i) + if w == 0 then 0 else |c.dep| + 1
    case Stopped => 0
    case _ => |c.dep| + 1
  }

  /** Everything done and every thread looking for work. */
  ghost predicate Over(c: Config, s: State) {
    AllDone(s) && AllIdle(s) && |s.status| == |c.dep| && |s.pcs| == c.threads
  }

  /** A look at a finished task. */
  lemma OneLook(c: Config, s: State, t: nat)
    requires ValidConfig(c) && Shape(c, s) && Over(c, s) && t < c.threads && InRange(c, s, s.pcs[t])
    ensures var s' := Step(c, s, t, false);
            && s' == At(s, t, s'.pcs[t]) && Idle(s'.pcs[t])
            && (s'.pcs[t].Scan? || s'.pcs[t].Claim? ==> s'.pcs[t].i < |c.dep|)
            && (s.pcs[t] == Stopped ==> s'.pcs[t] == Stopped)
            && (s.pcs[t] != Stopped ==> LooksLeft(c, t, s'.pcs[t]) < LooksLeft(c, t, s.pcs[t]))
  {
    match s.pcs[t]
    case Scan(i, w) => assert s.status[i] == Done;
    case Claim(i, w) => assert s.status[i] == Done;
    case _ =>
  }

  lemma OverOn(c: Config, sigma: nat -> nat, i: nat, v: View) returns (v': View)
    requires ValidConfig(c) && Fair(c, sigma) && Inv(c, FairState(c, sigma, i), v) && Over(c, FairState(c, sigma, i))
    ensures Inv(c, FairState(c, sigma, i + 1), v') && Over(c, FairState(c, sigma, i + 1))
    ensures var s, s', t := FairState(c, sigma, i), FairState(c, sigma, i + 1), sigma(i);
            && Shape(c, s) && t < c.threads && InRange(c, s, s.pcs[t]) && s' == At(s, t, s'.pcs[t])
            && (s.pcs[t] == Stopped ==> s'.pcs[t] == Stopped)
            && (s.pcs[t] != Stopped ==>
                  (s'.pcs[t].Scan? || s'.pcs[t].Claim? ==> s'.pcs[t].i < |c.dep|) &&
                  LooksLeft(c, t, s'.pcs[t]) < LooksLeft(c, t, s.pcs[t]))
  {
    hide Inv, Step, FairState, LooksLeft;
    v' := FairStep(c, sigma, i, v);
    Bounds(c, FairState(c, sigma, i), v, sigma(i));
    OneLook(c, FairState(c, sigma, i), sigma(i));
  }

  /** What has stopped stays so. */
  lemma {:induction false} OverStays(c: Config, sigma: nat -> nat, i: nat, v: View, m: nat) returns (v': View)
    requires ValidConfig(c) && Fair(c, sigma) && Inv(c, FairState(c, sigma, i), v) && Over(c, FairState(c, sigma, i))
    requires i <= m
    ensures Inv(c, FairState(c, sigma, m), v') && Over(c, FairState(c, sigma, m))
    ensures forall t :: 0 <= t < c.threads && FairState(c, sigma, i).pcs[t] == Stopped ==>
              FairState(c, sigma, m).pcs[t] == Stopped
    decreases m - i
  {
    hide Inv, FairState, LooksLeft;
    v' := v;
    if i < m {
      v' := OverOn(c, sigma, i, v);
      v' := OverStays(c, sigma, i + 1, v', m);
    }
  }

  /** Thread t comes to its end; j is its next move. */
  lemma {:induction false} ThreadStops(c: Config, sigma: nat -> nat, i: nat, v: View, t: nat, j: nat)
    returns (k: nat, v': View)
    requires ValidConfig(c) && Fair(c, sigma) && Inv(c, FairState(c, sigma, i), v) && Over(c, FairState(c, sigma, i))
    requires t < c.threads && i <= j && sigma(j) == t
    requires var pc := FairState(c, sigma, i).pcs[t]; pc.Scan? || pc.Claim? ==> pc.i < |c.dep|
    ensures i <= k && Inv(c, FairState(c, sigma, k), v') && Over(c, FairState(c, sigma, k))
    ensures FairState(c, sigma, k).pcs[t] == Stopped
    decreases LooksLeft(c, t, FairState(c, sigma, i).pcs[t]), j - i
  {
    hide Inv, FairState, LooksLeft;
    k, v' := i, v;
    if FairState(c, sigma, i).pcs[t] != Stopped {
      v' := OverOn(c, sigma, i, v);
      var j' := j;
      if sigma(i) == t {
        assert MovesFrom(sigma, i + 1, t);
        j' :| i + 1 <= j' && sigma(j') == t;
      }
      k, v' := ThreadStops(c, sigma, i + 1, v', t, j');
    }
  }

  /** The first n threads come to their end. */
  lemma {:induction false} ThreadsStop(c: Config, sigma: nat -> nat, i: nat, v: View, n: nat) returns (k: nat, v': View)
    requires ValidConfig(c) && Fair(c, sigma) && Inv(c, FairState(c, sigma, i), v) && Over(c, FairState(c, sigma, i))
    requires n <= c.threads
    ensures i <= k && Inv(c, FairState(c, sigma, k), v') && Over(c, FairState(c, sigma, k))
    ensures forall t :: 0 <= t < n ==> FairState(c, sigma, k).pcs[t] == Stopped
  {
    hide Inv, FairState;
    k, v' := i, v;
    if n > 0 {
      var k1, v1 := ThreadsStop(c, sigma, i, v, n - 1);
      Bounds(c, FairState(c, sigma, k1), v1, n - 1);
      assert MovesFrom(sigma, k1, n - 1);
      var j: nat :| k1 <= j && sigma(j) == n - 1;
      k, v' := ThreadStops(c, sigma, k1, v1, n - 1, j);
      var _ := OverStays(c, sigma, k1, v1, k);
    }
  }

  /** From a point where everything is done all threads come to look for work. */
  lemma {:induction false} AllLook(c: Config, sigma: nat -> nat, i: nat, v: View) returns (k: nat, v': View)
    requires ValidConfig(c) && Fair(c, sigma) && Inv(c, FairState(c, sigma, i), v) && AllDone(FairState(c, sigma, i))
    requires Shape(c, FairState(c, sigma, i))
    ensures i <= k && Inv(c, FairState(c, sigma, k), v') && Over(c, FairState(c, sigma, k))
    decreases LoadOf(c, FairState(c, sigma, i)).tasks, LoadOf(c, FairState(c, sigma, i)).nodes,
              LoadOf(c, FairState(c, sigma, i)).local
  {
    hide Inv, FairState, LoadOf;
    var s := FairState(c, sigma, i);
    Bounds(c, s, v, 0);
    k, v' := i, v;
    if h: nat :| h < c.threads && !Idle(s.pcs[h]) {
      assert MovesFrom(sigma, i, h);
      var j: nat :| i <= j && sigma(j) == h;
      k, v' := WaitForBusy(c, sigma, i, v, h, j);
      var _ := StaysDone(c, sigma, i, k);
      k, v' := AllLook(c, sigma, k, v');
    }
  }

  /** Under a strong CAS every fair run comes to a point from which on all tasks are done
      and all threads have left, each told that there is nothing more to do. */
  lemma FairRunsStop(c: Config, sigma: nat -> nat) returns (k: nat)
    requires ValidConfig(c) && !c.weak && Fair(c, sigma)
    ensures forall m: nat :: k <= m ==>
              var s := FairState(c, sigma, m);
              && AllDone(s) && |s.status| == |c.dep| && |s.pcs| == c.threads
              && forall t :: 0 <= t < c.threads ==> s.pcs[t] == Stopped
  {
    hide Inv, FairState;
    var k0 := FairRunsFinish(c, sigma);
    var v0 := FairInv(c, sigma, k0);
    Bounds(c, FairState(c, sigma, k0), v0, 0);
    var k1, v1 := AllLook(c, sigma, k0, v0);
    var v2;
    k, v2 := ThreadsStop(c, sigma, k1, v1, c.threads);
    forall m: nat | k <= m
      ensures var s := FairState(c, sigma, m);
              && AllDone(s) && |s.status| == |c.dep| && |s.pcs| == c.threads
              && forall t :: 0 <= t < c.threads ==> s.pcs[t] == Stopped
    {
      var _ := OverStays(c, sigma, k, v2, m);
    }
  }
}
