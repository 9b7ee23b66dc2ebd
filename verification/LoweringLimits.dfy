/**
 The two conditions on lowering, and that each is exact: the label counter must start
 above zero, and a for loop needs an element.
 */
module LoweringLimits {
  import opened Basics
  import opened Resolved
  import opened ControlFlow
  import opened ControlLowering

  /** Why the label counter must start above zero: the very first if with an else
      would get no end label, and its first branch would run on into the else. */
  lemma ZeroCounterFallsThrough(w: World, s: Store, a: nat, b: nat, cond: nat)
    requires Holds(w, cond, s)
    ensures var cs := Cons(If(Branch(cond, Cons(Act(a), Nil), Else(Cons(Act(b), Nil)))), Nil);
            var p, s1 := Lower(cs, 0, None).code, w.act(a, Tested(w, cond, s));
            && WellFormed(cs, false) && RunAll(w, cs, s, 0) == Normal(s1)
            && HaltsIn(w, p, s, 5) && Steps(w, p, Start(s), 5).s == w.act(b, s1)
  {
    var chain := Branch(cond, Cons(Act(a), Nil), Else(Cons(Act(b), Nil)));
    var cs := Cons(If(chain), Nil);
    var p := Lower(cs, 0, None).code;
    IfElseCode(cond, a, b);
    OneRuns(w, a, Tested(w, cond, s));
    var s1 := w.act(a, Tested(w, cond, s));
    assert RunChain(w, chain, s, 0) == RunOne(w, If(chain), s, 0) == Normal(s1);
    assert RunAll(w, Nil, s1, 0) == Normal(s1);
    assert WellFormed(Nil, false) && WellFormedOne(Act(a), false) && WellFormedOne(Act(b), false);
    assert WellFormed(Cons(Act(a), Nil), false) && WellFormed(Cons(Act(b), Nil), false);
    assert WellFormedChain(chain.rest, false);
    assert WellFormedOne(If(chain), false) && WellFormed(Nil, false);
    FiveSteps(w, p, s, cond, a, b);
  }

  lemma OneRuns(w: World, a: nat, s: Store)
    ensures RunAll(w, Cons(Act(a), Nil), s, 0) == Normal(w.act(a, s))
  {
    assert RunOne(w, Act(a), s, 0) == Normal(w.act(a, s));
  }

  lemma FiveSteps(w: World, p: seq<Instr>, s: Store, cond: nat, a: nat, b: nat)
    requires Holds(w, cond, s) && p == [Test(cond), GotoIf(false, 1), Do(a), Label(1), Do(b)]
    ensures HaltsIn(w, p, s, 5) && Steps(w, p, Start(s), 5).s == w.act(b, w.act(a, Tested(w, cond, s)))
  {
    var m0 := Start(s);
    var m1 := Step(w, p, m0);
    var m2 := Step(w, p, m1);
    var m3 := Step(w, p, m2);
    var m4 := Step(w, p, m3);
    assert Steps(w, p, m0, 5) == Steps(w, p, m1, 4) == Steps(w, p, m2, 3) == Steps(w, p, m3, 2) == Steps(w, p, m4, 1);
    assert Steps(w, p, m4, 1) == Step(w, p, m4);
  }

  lemma IfElseCode(cond: nat, a: nat, b: nat)
    ensures Lower(Cons(If(Branch(cond, Cons(Act(a), Nil), Else(Cons(Act(b), Nil)))), Nil), 0, None).code ==
            [Test(cond), GotoIf(false, 1), Do(a), Label(1), Do(b)]
  {
    var other := Else(Cons(Act(b), Nil));
    var chain := Branch(cond, Cons(Act(a), Nil), other);
    PlainBody(a, 2, None);
    PlainBody(b, 2, None);
    assert LowerChain(other, None, 2, 2, None).code == [Do(b)];
    assert Branches(chain) == 1 && Leave(None) == [];
    var c := LowerChain(chain, None, 1, 2, None).code;
    assert c == [Test(cond), GotoIf(false, 1)] + [Do(a)] + [] + [Label(1)] + [Do(b)];
    assert LowerOne(If(chain), 0, None).code == c + Mark(None);
    assert Mark(None) == [] && Lower(Nil, LowerOne(If(chain), 0, None).gen, None).code == [];
  }

  lemma PlainBody(a: nat, gen: nat, tg: Option<Targets>)
    ensures Lower(Cons(Act(a), Nil), gen, tg) == Lowered([Do(a)], gen)
  {
    assert [Do(a)] + [] == [Do(a)];
  }

  /** A for loop over an empty array runs its body once, on an element that is
      not there. */
  lemma EmptyForRunsBody(w: World, s: Store, x: string, source: nat, a: nat, gen: nat)
    requires w.elements(source, s) == [] && gen > 0
    ensures var p := Lower(Cons(For(x, None, source, Cons(Act(a), Nil)), Nil), gen, None).code;
            HaltsIn(w, p, s, 9) && Steps(w, p, Start(s), 9).s == w.act(a, s[x := ZERO])
  {
    var p := Lower(Cons(For(x, None, source, Cons(Act(a), Nil)), Nil), gen, None).code;
    ForCode(x, source, a, gen);
    NineSteps(w, p, s, x, source, a, gen);
  }

  lemma ForCode(x: string, source: nat, a: nat, gen: nat)
    ensures Lower(Cons(For(x, None, source, Cons(Act(a), Nil)), Nil), gen, None).code ==
            [ZeroIndex(gen), TakeArray(gen + 1, source), TakeLength(gen + 2, gen + 1), Label(gen + 3),
             ArrayGet(x, gen + 1, gen), Do(a), Label(gen + 4), LoopLess(gen, gen + 2, gen + 3), Label(gen + 5)]
  {
    var c := For(x, None, source, Cons(Act(a), Nil));
    PlainBody(a, gen + 6, Some(Targets(gen + 5, gen + 4)));
    var h := [ZeroIndex(gen), TakeArray(gen + 1, source), TakeLength(gen + 2, gen + 1), Label(gen + 3)];
    assert CopyIndex(None, gen) == [];
    assert LowerOne(c, gen, None).code == h + [] + [ArrayGet(x, gen + 1, gen)] + [Do(a)]
           + [Label(gen + 4), LoopLess(gen, gen + 2, gen + 3), Label(gen + 5)];
    assert Lower(Nil, LowerOne(c, gen, None).gen, None).code == [];
  }

  lemma NineSteps(w: World, p: seq<Instr>, s: Store, x: string, source: nat, a: nat, gen: nat)
    requires w.elements(source, s) == []
    requires p == [ZeroIndex(gen), TakeArray(gen + 1, source), TakeLength(gen + 2, gen + 1), Label(gen + 3),
                   ArrayGet(x, gen + 1, gen), Do(a), Label(gen + 4), LoopLess(gen, gen + 2, gen + 3), Label(gen + 5)]
    ensures HaltsIn(w, p, s, 9) && Steps(w, p, Start(s), 9).s == w.act(a, s[x := ZERO])
  {
    hide Steps, Find;
    var c := For(x, None, source, Cons(Act(a), Nil));
    ForStart(w, p, Start(s), c, gen);
    var m3 := Steps(w, p, Start(s), 3);
    TurnStart(w, p, m3, c, gen, 0, [], 0);
    var m5 := Steps(w, p, m3, 2);
    DoStep(w, p, m5, a);
    var m6 := Steps(w, p, m5, 1);
    TurnEnd(w, p, m6, gen, [], 0);
    StepsAdd(w, p, Start(s), 3, 6);
    StepsAdd(w, p, m3, 2, 4);
    StepsAdd(w, p, m5, 1, 3);
  }

  lemma DoStep(w: World, p: seq<Instr>, m: Machine, a: nat)
    requires m.pc < |p| && p[m.pc] == Do(a)
    ensures Steps(w, p, m, 1) == m.(pc := m.pc + 1, s := w.act(a, m.s))
  {
    assert Steps(w, p, m, 1) == Step(w, p, m);
  }

  // ------------------------------------------------ the conditions are exact

  /** The code ends, and in this store. */
  ghost predicate EndsIn(w: World, p: seq<Instr>, s: Store, t: Store) {
    exists n: nat :: HaltsIn(w, p, s, n) && Steps(w, p, Start(s), n).s == t
  }

  lemma EndsOnce(w: World, p: seq<Instr>, s: Store, n: nat, t: Store)
    requires HaltsIn(w, p, s, n) && EndsIn(w, p, s, t)
    ensures Steps(w, p, Start(s), n).s == t
  {
    hide Step;
    var k: nat :| HaltsIn(w, p, s, k) && Steps(w, p, Start(s), k).s == t;
    var least, most := if k <= n then k else n, if k <= n then n else k;
    StepsAdd(w, p, Start(s), least, most - least);
    StaysHalted(w, p, Steps(w, p, Start(s), least), most - least);
  }

  /** Lowering with this label counter keeps the outcome of every program. */
  ghost predicate Faithful(gen: nat) {
    forall w: World, cs: Cmds, s: Store, fuel: nat ::
      WellFormed(cs, false) && RunAll(w, cs, s, fuel).Normal? ==>
        EndsIn(w, Lower(cs, gen, None).code, s, RunAll(w, cs, s, fuel).s)
  }

  /** Two acts that leave different stores, and a condition that always holds. */
  function Marking(): World {
    World((id: nat, s: Store) => s["x" := Val(id)], (cond, s) => true, (source, s) => [], k => ZERO)
  }

  function Marked(id: nat): Store {
    map["x" := Val(id)]
  }

  lemma MarksDiffer(s: Store)
    requires s == map[] || s == Marked(0) || s == Marked(1)
    ensures Marking().act(0, s) == Marked(0) && Marking().act(1, s) == Marked(1) && Marking().act(2, s) == Marked(2)
    ensures Marked(1)["x"] != Marked(2)["x"]
  {
  }

  /** Exactly the counters above zero keep the outcome of every program. */
  lemma FaithfulExactly(gen: nat)
    ensures Faithful(gen) <==> gen > 0
  {
    hide RunAll, Lower, WellFormed, Steps, HaltsIn, Faithful, Marking, Marked;
    if gen > 0 {
      FaithfulAbove(gen);
    } else {
      var w := Marking();
      AlwaysHolds(0, map[]);
      MarksDiffer(map[]);
      MarksDiffer(Marked(0));
      MarksDiffer(Marked(1));
      ZeroCounterFallsThrough(w, map[], 1, 2, 0);
      NotFaithful(
        w, Cons(If(Branch(0, Cons(Act(1), Nil), Else(Cons(Act(2), Nil)))), Nil), map[], Marked(1), Marked(2));
    }
  }

  lemma AlwaysHolds(cond: nat, s: Store)
    ensures Holds(Marking(), cond, s)
  {
  }

  lemma NotFaithful(w: World, cs: Cmds, s: Store, s1: Store, s2: Store)
    requires WellFormed(cs, false) && RunAll(w, cs, s, 0) == Normal(s1) && s1 != s2
    requires HaltsIn(w, Lower(cs, 0, None).code, s, 5) && Steps(w, Lower(cs, 0, None).code, Start(s), 5).s == s2
    ensures !Faithful(0)
  {
    hide RunAll, Lower, WellFormed, Steps;
    if Faithful(0) {
      EndsOnce(w, Lower(cs, 0, None).code, s, 5, s1);
    }
  }

  lemma FaithfulAbove(gen: nat)
    requires gen > 0
    ensures Faithful(gen)
  {
    hide RunAll, Lower, WellFormed, Steps;
    forall w: World, cs: Cmds, s: Store, fuel: nat | WellFormed(cs, false) && RunAll(w, cs, s, fuel).Normal?
      ensures EndsIn(w, Lower(cs, gen, None).code, s, RunAll(w, cs, s, fuel).s)
    {
      var n := LoweredEndsAlike(w, cs, gen, s, fuel);
    }
  }

  /** A lowered for over these values does what its body does for each of them in turn:
      over no values at all that is nothing. */
  ghost predicate LoopsRight(values: seq<Val>) {
    forall w: World, c: Cmd, gen: nat, s: Store, fuel: nat ::
      c.For? && gen > 0 && WellFormed(Cons(c, Nil), false) && w.elements(c.source, s) == values
      && RunFor(w, c.x, c.index, values, 0, c.body, s, fuel).Normal? ==>
        EndsIn(w, Lower(Cons(c, Nil), gen, None).code, s, RunFor(w, c.x, c.index, values, 0, c.body, s, fuel).s)
  }

  /** That is so for every loop, whatever its body and with or without an index, exactly
      when there is a value. */
  lemma LoopsRightExactly(values: seq<Val>)
    ensures LoopsRight(values) <==> values != []
  {
    hide LoopsRight;
    if values != [] {
      LoopsRightSome(values);
    } else {
      NoLoopOverNothing();
    }
  }

  lemma LoopsRightSome(values: seq<Val>)
    requires values != []
    ensures LoopsRight(values)
  {
    hide Steps, Lower, WellFormed, HaltsIn, EndsIn, RunFor, RunAll;
    forall w: World, c: Cmd, gen: nat, s: Store, fuel: nat
      | c.For? && gen > 0 && WellFormed(Cons(c, Nil), false) && w.elements(c.source, s) == values
        && RunFor(w, c.x, c.index, values, 0, c.body, s, fuel).Normal?
      ensures EndsIn(w, Lower(Cons(c, Nil), gen, None).code, s, RunFor(w, c.x, c.index, values, 0, c.body, s, fuel).s)
    {
      LoopAlone(w, c, s, fuel);
      var n := LoweredEndsAlike(w, Cons(c, Nil), gen, s, fuel);
      Ended(w, Lower(Cons(c, Nil), gen, None).code, s, n);
    }
  }

  lemma LoopAlone(w: World, c: Cmd, s: Store, fuel: nat)
    requires c.For? && w.elements(c.source, s) != []
    requires RunFor(w, c.x, c.index, w.elements(c.source, s), 0, c.body, s, fuel).Normal?
    ensures RunAll(w, Cons(c, Nil), s, fuel) == RunFor(w, c.x, c.index, w.elements(c.source, s), 0, c.body, s, fuel)
  {
    hide RunFor;
    var r := RunOne(w, c, s, fuel);
    assert RunAll(w, Nil, r.s, fuel) == Normal(r.s);
  }

  lemma Ended(w: World, p: seq<Instr>, s: Store, n: nat)
    requires HaltsIn(w, p, s, n)
    ensures EndsIn(w, p, s, Steps(w, p, Start(s), n).s)
  {
  }

  lemma NoLoopOverNothing()
    ensures !LoopsRight([])
  {
    hide Steps, Lower, HaltsIn, EndsIn, WellFormed;
    var w, s := Marking(), Marked(1);
    var c := For("x", None, 0, Cons(Act(2), Nil));
    SimpleLoop("x", 0, 2);
    EmptyForRunsBody(w, s, "x", 0, 2, 1);
    assert w.act(2, s["x" := ZERO])["x"] == Val(2) && s["x"] == Val(1);
    assert RunFor(w, c.x, c.index, [], 0, c.body, s, 0) == Normal(s);
    if LoopsRight([]) {
      EndsOnce(w, Lower(Cons(c, Nil), 1, None).code, s, 9, s);
    }
  }

  lemma SimpleLoop(x: string, source: nat, a: nat)
    ensures WellFormed(Cons(For(x, None, source, Cons(Act(a), Nil)), Nil), false)
  {
    assert WellFormed(Nil, true) && WellFormedOne(Act(a), true);
    assert WellFormed(Nil, false) && WellFormedOne(For(x, None, source, Cons(Act(a), Nil)), false);
  }
}
