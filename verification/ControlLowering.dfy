/**
 The lowered code does what the structured program does: it ends in the same
 store, and runs forever exactly when the structured program does.
 */
module ControlLowering {
  import opened Basics
  import opened Resolved
  import opened ControlFlow

  // ---------------------------------------------------------------- labels

  function OwnLabel(i: Instr): seq<nat> {
    if i.Label? then [i.target] else []
  }

  function LabelsOf(p: seq<Instr>): seq<nat> {
    if p == [] then [] else OwnLabel(p[0]) + LabelsOf(p[1..])
  }

  lemma {:induction false} LabelsAppend(a: seq<Instr>, b: seq<Instr>)
    ensures LabelsOf(a + b) == LabelsOf(a) + LabelsOf(b)
  {
    hide OwnLabel;
    if a == [] {
      assert a + b == b;
    } else {
      assert (a + b)[0] == a[0] && (a + b)[1..] == a[1..] + b;
      LabelsAppend(a[1..], b);
    }
  }

  lemma LabelsOne(a: Instr)
    ensures LabelsOf([a]) == OwnLabel(a)
  {
    assert [a][1..] == [];
  }

  lemma LabelsTwo(a: Instr, b: Instr)
    ensures LabelsOf([a, b]) == OwnLabel(a) + OwnLabel(b)
  {
    assert [a, b] == [a] + [b];
    LabelsAppend([a], [b]);
    LabelsOne(a);
    LabelsOne(b);
  }

  lemma LabelsThree(a: Instr, b: Instr, c: Instr)
    ensures LabelsOf([a, b, c]) == OwnLabel(a) + OwnLabel(b) + OwnLabel(c)
  {
    assert [a, b, c] == [a, b] + [c];
    LabelsAppend([a, b], [c]);
    LabelsTwo(a, b);
    LabelsOne(c);
  }

  lemma {:induction false} LabelListed(p: seq<Instr>, i: nat)
    requires i < |p| && p[i].Label?
    ensures p[i].target in LabelsOf(p)
  {
    if i > 0 {
      LabelListed(p[1..], i - 1);
    }
  }

  /** With distinct labels the first occurrence is the only one. */
  lemma {:induction false} FindAt(p: seq<Instr>, i: nat)
    requires i < |p| && p[i].Label? && Distinct(LabelsOf(p))
    ensures Find(p, p[i].target) == i
  {
    if i > 0 {
      LabelListed(p[1..], i - 1);
      if p[0].Label? {
        assert LabelsOf(p)[0] == p[0].target && LabelsOf(p)[1..] == LabelsOf(p[1..]);
      } else {
        assert LabelsOf(p) == LabelsOf(p[1..]);
      }
      DistinctTail(p);
      FindAt(p[1..], i - 1);
    }
  }

  lemma DistinctTail(p: seq<Instr>)
    requires p != [] && Distinct(LabelsOf(p))
    ensures Distinct(LabelsOf(p[1..]))
    ensures p[0].Label? ==> p[0].target !in LabelsOf(p[1..])
  {
    var l, t := LabelsOf(p), LabelsOf(p[1..]);
    if p[0].Label? {
      assert l == [p[0].target] + t;
      forall k | 0 <= k < |t| ensures t[k] == l[k + 1] && t[k] != l[0] {
        assert l[0] != l[k + 1];
      }
    } else {
      assert l == t;
    }
  }

  /** Labels are distinct and numbered from lo up to hi. */
  ghost predicate Numbered(p: seq<Instr>, lo: nat, hi: nat) {
    Distinct(LabelsOf(p)) && forall x :: x in LabelsOf(p) ==> lo <= x < hi
  }

  lemma DistinctAppend(a: seq<nat>, b: seq<nat>)
    requires Distinct(a) && Distinct(b) && forall x :: x in a ==> x !in b
    ensures Distinct(a + b)
  {
    var c := a + b;
    forall i, j | 0 <= i < j < |c| ensures c[i] != c[j] {
      if i < |a| && j >= |a| {
        assert c[i] in a && c[j] in b;
      }
    }
  }

  lemma NumberedAppend(a: seq<Instr>, b: seq<Instr>, lo: nat, mid: nat, hi: nat)
    requires Numbered(a, lo, mid) && Numbered(b, mid, hi) && lo <= mid <= hi
    ensures Numbered(a + b, lo, hi)
  {
    LabelsAppend(a, b);
    DistinctAppend(LabelsOf(a), LabelsOf(b));
  }

  lemma {:induction false} LowerNumbered(cs: Cmds, gen: nat, tg: Option<Targets>)
    ensures Numbered(Lower(cs, gen, tg).code, gen, Lower(cs, gen, tg).gen)
    decreases cs
  {
    if cs.Cons? {
      var first := LowerOne(cs.head, gen, tg);
      LowerOneNumbered(cs.head, gen, tg);
      LowerNumbered(cs.tail, first.gen, tg);
      NumberedAppend(first.code, Lower(cs.tail, first.gen, tg).code, gen, first.gen, Lower(cs, gen, tg).gen);
    }
  }

  lemma {:induction false} LowerOneNumbered(c: Cmd, gen: nat, tg: Option<Targets>)
    ensures Numbered(LowerOne(c, gen, tg).code, gen, LowerOne(c, gen, tg).gen)
    decreases c
  {
    match c
    case Act(_) =>
      assert [Do(c.id)][1..] == [];
    case If(chain) => IfNumbered(chain, gen, tg);
    case Loop(isWhile, cond, body) =>
      var b := Lower(body, gen + 2, Some(Targets(gen + 1, gen)));
      LowerNumbered(body, gen + 2, Some(Targets(gen + 1, gen)));
      LoopLabels(gen, [Label(gen), Test(cond), GotoIf(!isWhile, gen + 1)], b.code, [Goto(gen), Label(gen + 1)], b.gen);
    case For(x, index, source, body) =>
      var b := Lower(body, gen + 6, Some(Targets(gen + 5, gen + 4)));
      LowerNumbered(body, gen + 6, Some(Targets(gen + 5, gen + 4)));
      ForLabels(c, gen, b.code, b.gen);
    case Break =>
    case Continue =>
  }

  lemma LoopLabels(gen: nat, head: seq<Instr>, body: seq<Instr>, tail: seq<Instr>, hi: nat)
    requires |head| == 3 && head[0] == Label(gen) && !head[1].Label? && !head[2].Label?
    requires |tail| == 2 && !tail[0].Label? && tail[1] == Label(gen + 1)
    requires gen + 2 <= hi && Numbered(body, gen + 2, hi)
    ensures Numbered(head + body + tail, gen, hi)
  {
    LabelsAppend(head + body, tail);
    LabelsAppend(head, body);
    LabelsThree(head[0], head[1], head[2]);
    LabelsTwo(tail[0], tail[1]);
    assert head == [head[0], head[1], head[2]] && tail == [tail[0], tail[1]];
    assert LabelsOf(head) == [gen] && LabelsOf(tail) == [gen + 1];
    DistinctAppend([gen], LabelsOf(body));
    DistinctAppend([gen] + LabelsOf(body), [gen + 1]);
  }

  function ForHead(c: Cmd, gen: nat): seq<Instr>
    requires c.For?
  {
    [ZeroIndex(gen), TakeArray(gen + 1, c.source), TakeLength(gen + 2, gen + 1), Label(gen + 3)]
    + CopyIndex(c.index, gen) + [ArrayGet(c.x, gen + 1, gen)]
  }

  function ForTail(gen: nat): seq<Instr> {
    [Label(gen + 4), LoopLess(gen, gen + 2, gen + 3), Label(gen + 5)]
  }

  lemma ForLabels(c: Cmd, gen: nat, body: seq<Instr>, hi: nat)
    requires c.For? && gen + 6 <= hi && Numbered(body, gen + 6, hi)
    ensures Numbered(ForHead(c, gen) + body + ForTail(gen), gen, hi)
  {
    LabelsAppend(ForHead(c, gen) + body, ForTail(gen));
    LabelsAppend(ForHead(c, gen), body);
    ForHeadLabels(c, gen);
    var t := ForTail(gen);
    LabelsThree(t[0], t[1], t[2]);
    assert LabelsOf(t) == [gen + 4, gen + 5];
    DistinctAppend([gen + 3], LabelsOf(body));
    DistinctAppend([gen + 3] + LabelsOf(body), [gen + 4, gen + 5]);
  }

  lemma ForHeadLabels(c: Cmd, gen: nat)
    requires c.For?
    ensures LabelsOf(ForHead(c, gen)) == [gen + 3]
  {
    var a := [ZeroIndex(gen), TakeArray(gen + 1, c.source), TakeLength(gen + 2, gen + 1), Label(gen + 3)];
    var u, g := CopyIndex(c.index, gen), [ArrayGet(c.x, gen + 1, gen)];
    LabelsAppend(a + u, g);
    LabelsAppend(a, u);
    assert a == [a[0], a[1], a[2]] + [a[3]];
    LabelsAppend([a[0], a[1], a[2]], [a[3]]);
    LabelsThree(a[0], a[1], a[2]);
    LabelsOne(a[3]);
    LabelsOne(g[0]);
    if u != [] {
      LabelsOne(u[0]);
    }
    assert LabelsOf(u) == [] && LabelsOf(g) == [];
  }

  /** The labels of the branches come from two ranges. */
  ghost predicate TwoRanges(p: seq<Instr>, lab: nat, labs: nat, lo: nat, hi: nat) {
    && Distinct(LabelsOf(p))
    && forall x :: x in LabelsOf(p) ==> lab <= x < lab + labs || lo <= x < hi
  }

  lemma {:induction false} ChainLabels(chain: Chain, end: Option<nat>, lab: nat, gen: nat, tg: Option<Targets>)
    requires lab + Branches(chain) <= gen
    ensures TwoRanges(LowerChain(chain, end, lab, gen, tg).code, lab, Branches(chain), gen,
            LowerChain(chain, end, lab, gen, tg).gen)
    decreases chain, 0
  {
    match chain
    case EndIf =>
    case Else(body) => LowerNumbered(body, gen, tg);
    case Branch(cond, body, rest) =>
      var b := Lower(body, gen, tg);
      var more := LowerChain(rest, end, lab + 1, b.gen, tg);
      LowerNumbered(body, gen, tg);
      ChainLabels(rest, end, lab + 1, b.gen, tg);
      BranchLabels([Test(cond), GotoIf(false, lab)], b.code, Leave(end), [Label(lab)], more.code, lab, Branches(rest),
        gen, b.gen, more.gen);
  }

  lemma BranchLabels(
    head: seq<Instr>, body: seq<Instr>, leave: seq<Instr>, mark: seq<Instr>, more: seq<Instr>,
    lab: nat, labs: nat, lo: nat, mid: nat, hi: nat)
    requires |head| == 2 && !head[0].Label? && !head[1].Label? && mark == [Label(lab)]
    requires leave == [] || (|leave| == 1 && !leave[0].Label?)
    requires lab + 1 + labs <= lo <= mid <= hi && Numbered(body, lo, mid) && TwoRanges(more, lab + 1, labs, mid, hi)
    ensures TwoRanges(head + body + leave + mark + more, lab, labs + 1, lo, hi)
  {
    hide Distinct;
    LabelsOfBranch(head, body, leave, mark, more, lab);
    OneDistinct(lab);
    DistinctAppend(LabelsOf(body), [lab]);
    DistinctAppend(LabelsOf(body) + [lab], LabelsOf(more));
  }

  lemma OneDistinct(x: nat)
    ensures Distinct([x])
  {}

  lemma LabelsOfBranch(
    head: seq<Instr>, body: seq<Instr>, leave: seq<Instr>, mark: seq<Instr>, more: seq<Instr>, lab: nat)
    requires |head| == 2 && !head[0].Label? && !head[1].Label? && mark == [Label(lab)]
    requires leave == [] || (|leave| == 1 && !leave[0].Label?)
    ensures LabelsOf(head + body + leave + mark + more) == (LabelsOf(body) + [lab]) + LabelsOf(more)
  {
    assert LabelsOf([]) == [];
    hide LabelsOf;
    LabelsAppend(head + body + leave + mark, more);
    LabelsAppend(head + body + leave, mark);
    LabelsAppend(head + body, leave);
    LabelsAppend(head, body);
    LabelsTwo(head[0], head[1]);
    LabelsOne(Label(lab));
    assert head == [head[0], head[1]];
    if leave != [] {
      LabelsOne(leave[0]);
      assert leave == [leave[0]];
    }
    assert LabelsOf(head) == [] && LabelsOf(leave) == [] && LabelsOf(mark) == [lab];
  }

  lemma MarkLabels(code: seq<Instr>, end: Option<nat>, gen: nat, lab: nat, labs: nat, lo: nat, hi: nat)
    requires TwoRanges(code, lab, labs, lo, hi) && lab + labs <= lo <= hi && gen <= lab
    requires end.Some? ==> end.value == gen && gen < lab
    ensures Numbered(code + Mark(end), gen, hi)
  {
    LabelsAppend(code, Mark(end));
    if end.Some? {
      LabelsOne(Label(gen));
    }
    assert LabelsOf(Mark(end)) == Listed(end);
    DistinctAppend(LabelsOf(code), Listed(end));
  }

  lemma {:induction false} IfNumbered(chain: Chain, gen: nat, tg: Option<Targets>)
    ensures Numbered(LowerOne(If(chain), gen, tg).code, gen, LowerOne(If(chain), gen, tg).gen)
    decreases chain, 1
  {
    hide LabelsOf, TwoRanges, Numbered, LowerChain;
    var end := if Several(chain) && gen > 0 then Some(gen) else None;
    var lab := if Several(chain) then gen + 1 else gen;
    var b := LowerChain(chain, end, lab, lab + Branches(chain), tg);
    ChainLabels(chain, end, lab, lab + Branches(chain), tg);
    MarkLabels(b.code, end, gen, lab, Branches(chain), lab + Branches(chain), b.gen);
  }

  // ------------------------------------------------------------- machine

  lemma {:induction false} StepsAdd(w: World, p: seq<Instr>, m: Machine, a: nat, b: nat)
    ensures Steps(w, p, m, a + b) == Steps(w, p, Steps(w, p, m, a), b)
    decreases a
  {
    hide Step;
    if a > 0 {
      StepsAdd(w, p, Step(w, p, m), a - 1, b);
    }
  }

  lemma {:induction false} StaysHalted(w: World, p: seq<Instr>, m: Machine, n: nat)
    requires m.pc >= |p|
    ensures Steps(w, p, m, n) == m
  {
    if n > 0 {
      StaysHalted(w, p, m, n - 1);
    }
  }

  /** The synthetic variables numbered below gen are the same. */
  ghost predicate SameBelow(m: Machine, m': Machine, gen: nat) {
    forall k: nat :: k < gen ==>
      && At(m.index, k, 0) == At(m'.index, k, 0)
      && At(m.arrays, k, []) == At(m'.arrays, k, [])
      && At(m.length, k, 0) == At(m'.length, k, 0)
  }

  /** The code stands at this place of a program whose labels are distinct. */
  ghost predicate Placed(p: seq<Instr>, at: nat, code: seq<Instr>) {
    at + |code| <= |p| && p[at..at + |code|] == code && Distinct(LabelsOf(p))
  }

  ghost predicate TargetsIn(p: seq<Instr>, tg: Option<Targets>) {
    tg.Some? ==> Find(p, tg.value.onBreak) < |p| && Find(p, tg.value.onContinue) < |p|
  }

  lemma PlacedParts(p: seq<Instr>, at: nat, a: seq<Instr>, b: seq<Instr>)
    requires Placed(p, at, a + b)
    ensures Placed(p, at, a) && Placed(p, at + |a|, b)
  {
    assert p[at..at + |a|] == (a + b)[..|a|];
    assert p[at + |a|..at + |a| + |b|] == (a + b)[|a|..];
  }

  lemma PlacedAt(p: seq<Instr>, at: nat, code: seq<Instr>, i: nat)
    requires Placed(p, at, code) && i < |code|
    ensures p[at + i] == code[i]
    ensures code[i].Label? ==> Find(p, code[i].target) == at + i
  {
    assert p[at + i] == p[at..at + |code|][i];
    if code[i].Label? {
      FindAt(p, at + i);
    }
  }

  // ---------------------------------------------------------- simulation

  /** The machine, started at the code at m.pc, gets where the result says: past
      the code, to the target of a break or continue, or it is still running after
      at least fuel steps. */
  ghost predicate Reaches(
    w: World, p: seq<Instr>, m: Machine, n: nat, r: Result, past: nat, gen: nat, tg: Option<Targets>, fuel: nat)
  {
    var m' := Steps(w, p, m, n);
    && SameBelow(m, m', gen)
    && match r
       case Normal(s) => m'.pc == past && m'.s == s
       case Broke(s) => tg.Some? && m'.pc == Find(p, tg.value.onBreak) && m'.s == s
       case Continued(s) => tg.Some? && m'.pc == Find(p, tg.value.onContinue) && m'.s == s
       case Unfinished => n >= fuel && m'.pc < |p|
       case EmptyFor => true
  }

  /** More steps in front. */
  lemma ReachesLater(
    w: World, p: seq<Instr>, m: Machine, a: nat, n: nat, r: Result, past: nat, gen: nat, low: nat,
    tg: Option<Targets>, fuel: nat, more: nat)
    requires Reaches(w, p, Steps(w, p, m, a), n, r, past, gen, tg, fuel) && low <= gen && more <= fuel + a
    requires SameBelow(m, Steps(w, p, m, a), low)
    ensures Reaches(w, p, m, a + n, r, past, low, tg, more)
  {
    hide Steps;
    StepsAdd(w, p, m, a, n);
  }

  lemma {:induction false} RunsAll(
    w: World, p: seq<Instr>, m: Machine, cs: Cmds, gen: nat, tg: Option<Targets>, fuel: nat) returns (n: nat)
    requires Placed(p, m.pc, Lower(cs, gen, tg).code) && TargetsIn(p, tg) && WellFormed(cs, tg.Some?)
    requires gen > 0
    ensures Reaches(w, p, m, n, RunAll(w, cs, m.s, fuel), m.pc + |Lower(cs, gen, tg).code|, gen, tg, fuel)
    decreases fuel, cs, 0
  {
    hide Placed, Reaches, LowerOne, RunOne, Steps, SameBelow, Find;
    match cs
    case Nil =>
      n := 0;
      NoSteps(w, p, m, gen, tg, fuel);
    case Cons(c, rest) =>
      var first := LowerOne(c, gen, tg);
      var more := Lower(rest, first.gen, tg);
      PlacedParts(p, m.pc, first.code, more.code);
      var a := RunsOne(w, p, m, c, gen, tg, fuel);
      var r := RunOne(w, c, m.s, fuel);
      if r.Normal? {
        var m1 := Steps(w, p, m, a);
        AtEnd(w, p, m, a, r.s, m.pc + |first.code|, gen, tg, fuel);
        var b := RunsAll(w, p, m1, rest, first.gen, tg, fuel);
        n := a + b;
        ReachesLater(w, p, m, a, b, RunAll(w, rest, m1.s, fuel), m1.pc + |more.code|, first.gen, gen, tg, fuel, fuel);
      } else {
        n := a;
        Elsewhere(w, p, m, a, r, m.pc + |first.code|, m.pc + |first.code| + |more.code|, gen, tg, fuel);
      }
  }

  lemma NoSteps(w: World, p: seq<Instr>, m: Machine, gen: nat, tg: Option<Targets>, fuel: nat)
    ensures Reaches(w, p, m, 0, Normal(m.s), m.pc, gen, tg, fuel)
  {}

  lemma AtEnd(
    w: World, p: seq<Instr>, m: Machine, a: nat, s: Store, past: nat, gen: nat, tg: Option<Targets>, fuel: nat)
    requires Reaches(w, p, m, a, Normal(s), past, gen, tg, fuel)
    ensures Steps(w, p, m, a).pc == past && Steps(w, p, m, a).s == s && SameBelow(m, Steps(w, p, m, a), gen)
  {}

  lemma Elsewhere(
    w: World, p: seq<Instr>, m: Machine, a: nat, r: Result, past: nat, past': nat, gen: nat, tg: Option<Targets>,
      fuel: nat)
    requires Reaches(w, p, m, a, r, past, gen, tg, fuel) && !r.Normal?
    ensures Reaches(w, p, m, a, r, past', gen, tg, fuel)
  {}

  /** A plain statement, a break or a continue is one instruction. */
  lemma RunsSimple(
    w: World, p: seq<Instr>, m: Machine, c: Cmd, gen: nat, tg: Option<Targets>, fuel: nat) returns (n: nat)
    requires c.Act? || (tg.Some? && (c.Break? || c.Continue?))
    requires Placed(p, m.pc, LowerOne(c, gen, tg).code)
    ensures Reaches(w, p, m, n, RunOne(w, c, m.s, fuel), m.pc + |LowerOne(c, gen, tg).code|, gen, tg, fuel)
  {
    PlacedAt(p, m.pc, LowerOne(c, gen, tg).code, 0);
    n := 1;
    assert Steps(w, p, m, 1) == Step(w, p, m);
  }

  lemma {:induction false} RunsOne(
    w: World, p: seq<Instr>, m: Machine, c: Cmd, gen: nat, tg: Option<Targets>, fuel: nat) returns (n: nat)
    requires Placed(p, m.pc, LowerOne(c, gen, tg).code) && TargetsIn(p, tg) && WellFormedOne(c, tg.Some?)
    requires gen > 0
    ensures Reaches(w, p, m, n, RunOne(w, c, m.s, fuel), m.pc + |LowerOne(c, gen, tg).code|, gen, tg, fuel)
    decreases fuel, c, 3
  {
    hide Placed, Reaches;
    match c
    case Act(_) => n := RunsSimple(w, p, m, c, gen, tg, fuel);
    case Break => n := RunsSimple(w, p, m, c, gen, tg, fuel);
    case Continue => n := RunsSimple(w, p, m, c, gen, tg, fuel);
    case If(chain) => n := RunsIf(w, p, m, chain, gen, tg, fuel);
    case Loop(isWhile, cond, body) => n := RunsLoop(w, p, m, c, gen, tg, fuel);
    case For(_, _, _, _) => n := RunsFor(w, p, m, c, gen, tg, fuel);
  }

  // ------------------------------------------------------------------- if

  lemma {:induction false} RunsIf(
    w: World, p: seq<Instr>, m: Machine, chain: Chain, gen: nat, tg: Option<Targets>, fuel: nat) returns (n: nat)
    requires Placed(p, m.pc, LowerOne(If(chain), gen, tg).code) && TargetsIn(p, tg) &&
             WellFormedOne(If(chain), tg.Some?)
    requires gen > 0
    ensures Reaches(w, p, m, n, RunChain(w, chain, m.s, fuel), m.pc + |LowerOne(If(chain), gen, tg).code|, gen, tg,
            fuel)
    decreases fuel, chain, 1
  {
    hide Placed, Reaches, LowerChain;
    var end := if Several(chain) && gen > 0 then Some(gen) else None;
    var lab := if Several(chain) then gen + 1 else gen;
    var b := LowerChain(chain, end, lab, lab + Branches(chain), tg);
    PlacedParts(p, m.pc, b.code, Mark(end));
    var past := m.pc + |b.code|;
    if end.Some? {
      PlacedAt(p, past, Mark(end), 0);
    }
    n := RunsChain(w, p, m, chain, end, lab, lab + Branches(chain), tg, fuel);
    var r := RunChain(w, chain, m.s, fuel);
    LowerGen(w, p, m, n, r, past, lab + Branches(chain), gen, tg, fuel);
    if end.Some? {
      n := OverLabel(w, p, m, n, r, past, gen, tg, fuel);
    }
  }

  lemma LowerGen(
    w: World, p: seq<Instr>, m: Machine, n: nat, r: Result, past: nat, gen: nat, low: nat, tg: Option<Targets>,
      fuel: nat)
    requires Reaches(w, p, m, n, r, past, gen, tg, fuel) && low <= gen
    ensures Reaches(w, p, m, n, r, past, low, tg, fuel)
  {}

  /** A label at the end is passed by one more step. */
  lemma OverLabel(
    w: World, p: seq<Instr>, m: Machine, n: nat, r: Result, past: nat, gen: nat, tg: Option<Targets>, fuel: nat)
    returns (n': nat)
    requires Reaches(w, p, m, n, r, past, gen, tg, fuel) && past < |p| && p[past].Label?
    ensures Reaches(w, p, m, n', r, past + 1, gen, tg, fuel)
  {
    if r.Normal? {
      n' := n + 1;
      StepsAdd(w, p, m, n, 1);
      var m1 := Steps(w, p, m, n);
      assert Steps(w, p, m1, 1) == Step(w, p, m1);
    } else {
      n' := n;
    }
  }

  /** The parts of a branch in the code. */
  lemma BranchParts(p: seq<Instr>, at: nat, cond: nat, lab: nat, body: seq<Instr>, leave: seq<Instr>, more: seq<Instr>)
    requires Placed(p, at, [Test(cond), GotoIf(false, lab)] + body + leave + [Label(lab)] + more)
    ensures at + 2 + |body| + |leave| < |p| && p[at] == Test(cond) && p[at + 1] == GotoIf(false, lab)
    ensures Placed(p, at + 2, body) && Placed(p, at + 2 + |body|, leave)
    ensures p[at + 2 + |body| + |leave|] == Label(lab) && Find(p, lab) == at + 2 + |body| + |leave|
    ensures Placed(p, at + 3 + |body| + |leave|, more)
  {
    hide Placed, Find;
    var head := [Test(cond), GotoIf(false, lab)];
    PlacedParts(p, at, head + body + leave + [Label(lab)], more);
    PlacedParts(p, at, head + body + leave, [Label(lab)]);
    PlacedParts(p, at, head + body, leave);
    PlacedParts(p, at, head, body);
    PlacedAt(p, at, head, 0);
    PlacedAt(p, at, head, 1);
    PlacedAt(p, at + 2 + |body| + |leave|, [Label(lab)], 0);
  }

  /** The test of a branch and its jump. */
  lemma TestStep(w: World, p: seq<Instr>, m: Machine, cond: nat, value: bool, lab: nat)
    requires m.pc + 1 < |p| && p[m.pc] == Test(cond) && p[m.pc + 1] == GotoIf(value, lab)
    ensures var m2 := Steps(w, p, m, 2);
            && m2.s == Tested(w, cond, m.s)
            && m2.pc == (if Holds(w, cond, m.s) == value then Find(p, lab) else m.pc + 2)
            && m2.index == m.index && m2.arrays == m.arrays && m2.length == m.length
  {
    var m1 := Step(w, p, m);
    assert Steps(w, p, m, 2) == Steps(w, p, m1, 1) == Step(w, p, m1);
  }

  lemma {:induction false} RunsChain(
    w: World, p: seq<Instr>, m: Machine, chain: Chain, end: Option<nat>, lab: nat, gen: nat, tg: Option<Targets>,
      fuel: nat)
    returns (n: nat)
    requires Placed(p, m.pc, LowerChain(chain, end, lab, gen, tg).code) && TargetsIn(p, tg) &&
             WellFormedChain(chain, tg.Some?)
    requires gen > 0
    requires if end.Some? then Find(p, end.value) == m.pc + |LowerChain(chain, end, lab, gen, tg).code|
             else chain.EndIf? || (chain.Branch? && chain.rest.EndIf?)
    ensures Reaches(w, p, m, n, RunChain(w, chain, m.s, fuel), m.pc + |LowerChain(chain, end, lab, gen, tg).code|, gen,
            tg, fuel)
    decreases fuel, chain, 0
  {
    hide Placed, Reaches, Steps, Lower, Find, SameBelow, Tested, RunAll, Leave;
    match chain
    case EndIf =>
      n := 0;
      NoSteps(w, p, m, gen, tg, fuel);
    case Else(body) => n := RunsAll(w, p, m, body, gen, tg, fuel);
    case Branch(cond, body, rest) =>
      var b := Lower(body, gen, tg);
      var past := ChainParts(p, m.pc, chain, end, lab, gen, tg);
      TestStep(w, p, m, cond, false, lab);
      var m2 := Steps(w, p, m, 2);
      SameRegisters(m, m2, gen);
      if Holds(w, cond, m.s) {
        var a := RunsTaken(w, p, m2, body, end, past, gen, tg, fuel);
        n := 2 + a;
        ReachesLater(w, p, m, 2, a, RunAll(w, body, m2.s, fuel), past, gen, gen, tg, fuel, fuel);
      } else {
        var a := RunsUntaken(w, p, m2, rest, end, lab, gen, b.gen, tg, fuel);
        n := 2 + a;
        ReachesLater(w, p, m, 2, a, RunChain(w, rest, m2.s, fuel), past, gen, gen, tg, fuel, fuel);
      }
  }

  /** From the label behind a branch whose condition failed. */
  lemma {:induction false} RunsUntaken(
    w: World, p: seq<Instr>, m: Machine, rest: Chain, end: Option<nat>, lab: nat, low: nat, gen: nat,
    tg: Option<Targets>, fuel: nat) returns (n: nat)
    requires m.pc < |p| && p[m.pc].Label? && Placed(p, m.pc + 1, LowerChain(rest, end, lab + 1, gen, tg).code)
    requires TargetsIn(p, tg) && WellFormedChain(rest, tg.Some?) && 0 < low <= gen
    requires if end.Some? then Find(p, end.value) == m.pc + 1 + |LowerChain(rest, end, lab + 1, gen, tg).code|
             else rest.EndIf?
    ensures Reaches(w, p, m, n, RunChain(w, rest, m.s, fuel),
            m.pc + 1 + |LowerChain(rest, end, lab + 1, gen, tg).code|, low, tg, fuel)
    decreases fuel, rest, 1
  {
    hide Placed, Reaches, Steps, LowerChain, Find, RunChain;
    StayPut(w, p, m, low);
    LabelStep(w, p, m, 0, low);
    var m1 := Steps(w, p, m, 1);
    var a := RunsChain(w, p, m1, rest, end, lab + 1, gen, tg, fuel);
    n := 1 + a;
    ReachesLater(w, p, m, 1, a, RunChain(w, rest, m1.s, fuel), m1.pc + |LowerChain(rest, end, lab + 1, gen, tg).code|,
      gen, low, tg, fuel, fuel);
  }

  lemma StayPut(w: World, p: seq<Instr>, m: Machine, gen: nat)
    ensures Steps(w, p, m, 0) == m && SameBelow(m, m, gen)
  {}

  /** Where the parts of the first branch of a chain are. */
  lemma ChainParts(p: seq<Instr>, at: nat, chain: Chain, end: Option<nat>, lab: nat, gen: nat, tg: Option<Targets>)
    returns (past: nat)
    requires chain.Branch? && Placed(p, at, LowerChain(chain, end, lab, gen, tg).code)
    requires end.None? ==> chain.rest.EndIf?
    ensures var b := Lower(chain.body, gen, tg);
            var more := LowerChain(chain.rest, end, lab + 1, b.gen, tg);
            var leave, mark := at + 2 + |b.code|, at + 2 + |b.code| + |Leave(end)|;
            && past == at + |LowerChain(chain, end, lab, gen, tg).code| == mark + 1 + |more.code|
            && mark < |p| && p[at] == Test(chain.cond) && p[at + 1] == GotoIf(false, lab)
            && Placed(p, at + 2, b.code) && Placed(p, leave, Leave(end))
            && p[mark] == Label(lab) && Find(p, lab) == mark && Placed(p, mark + 1, more.code)
            && (end.None? ==> leave == mark && past == mark + 1)
  {
    hide Lower, LabelsOf, Find, Placed;
    var b := Lower(chain.body, gen, tg);
    var more := LowerChain(chain.rest, end, lab + 1, b.gen, tg);
    past := at + |LowerChain(chain, end, lab, gen, tg).code|;
    BranchParts(p, at, chain.cond, lab, b.code, Leave(end), more.code);
  }

  /** The body of the branch that is taken, and the way out. */
  lemma {:induction false} RunsTaken(
    w: World, p: seq<Instr>, m: Machine, body: Cmds, end: Option<nat>, goal: nat, gen: nat, tg: Option<Targets>,
      fuel: nat)
    returns (n: nat)
    requires Placed(p, m.pc, Lower(body, gen, tg).code) && TargetsIn(p, tg) && WellFormed(body, tg.Some?) && gen > 0
    requires var past := m.pc + |Lower(body, gen, tg).code|;
             && Placed(p, past, Leave(end))
             && (if end.Some? then Find(p, end.value) == goal
                 else past < |p| && p[past].Label? && goal == past + 1)
    ensures Reaches(w, p, m, n, RunAll(w, body, m.s, fuel), goal, gen, tg, fuel)
    decreases fuel, body, 1
  {
    hide Reaches, Steps, Lower, RunAll, SameBelow;
    var past := m.pc + |Lower(body, gen, tg).code|;
    n := RunsAll(w, p, m, body, gen, tg, fuel);
    if end.Some? {
      PlacedAt(p, past, Leave(end), 0);
    }
    n := LeaveBranch(w, p, m, n, RunAll(w, body, m.s, fuel), past, end, goal, gen, tg, fuel);
  }

  lemma SameRegisters(m: Machine, m': Machine, gen: nat)
    requires m'.index == m.index && m'.arrays == m.arrays && m'.length == m.length
    ensures SameBelow(m, m', gen)
  {}

  /** One step over a label. */
  lemma LabelStep(w: World, p: seq<Instr>, m: Machine, a: nat, gen: nat)
    requires Steps(w, p, m, a).pc < |p| && p[Steps(w, p, m, a).pc].Label? && SameBelow(m, Steps(w, p, m, a), gen)
    ensures var m1, m2 := Steps(w, p, m, a), Steps(w, p, m, a + 1);
            m2 == m1.(pc := m1.pc + 1) && SameBelow(m, m2, gen)
  {
    StepsAdd(w, p, m, a, 1);
    var m1 := Steps(w, p, m, a);
    assert Steps(w, p, m1, 1) == Step(w, p, m1);
  }

  /** After a branch the code leaves for the end, or passes its own label if
      there is no other branch. */
  lemma LeaveBranch(
    w: World, p: seq<Instr>, m: Machine, n: nat, r: Result, past: nat, end: Option<nat>, goal: nat, gen: nat,
    tg: Option<Targets>, fuel: nat) returns (n': nat)
    requires Reaches(w, p, m, n, r, past, gen, tg, fuel) && past < |p|
    requires if end.Some? then p[past] == Goto(end.value) && Find(p, end.value) == goal
             else p[past].Label? && goal == past + 1
    ensures Reaches(w, p, m, n', r, goal, gen, tg, fuel)
  {
    if r.Normal? {
      n' := n + 1;
      StepsAdd(w, p, m, n, 1);
      var m1 := Steps(w, p, m, n);
      assert Steps(w, p, m1, 1) == Step(w, p, m1);
    } else {
      n' := n;
    }
  }

  // ---------------------------------------------------------------- loops

  lemma LoopParts(p: seq<Instr>, at: nat, gen: nat, cond: nat, value: bool, body: seq<Instr>)
    requires Placed(p, at, [Label(gen), Test(cond), GotoIf(value, gen + 1)] + body + [Goto(gen), Label(gen + 1)])
    ensures p[at] == Label(gen) && p[at + 1] == Test(cond) && p[at + 2] == GotoIf(value, gen + 1)
    ensures Placed(p, at + 3, body) && Find(p, gen) == at
    ensures p[at + 3 + |body|] == Goto(gen) && p[at + 4 + |body|] == Label(gen + 1)
    ensures Find(p, gen + 1) == at + 4 + |body| && at + 5 + |body| <= |p|
  {
    var head, tail := [Label(gen), Test(cond), GotoIf(value, gen + 1)], [Goto(gen), Label(gen + 1)];
    PlacedParts(p, at, head + body, tail);
    PlacedParts(p, at, head, body);
    PlacedAt(p, at, head, 0);
    PlacedAt(p, at, head, 1);
    PlacedAt(p, at, head, 2);
    PlacedAt(p, at + 3 + |body|, tail, 0);
    PlacedAt(p, at + 3 + |body|, tail, 1);
  }

  /** The label and the test at the top of a while or until loop. */
  lemma LoopTop(w: World, p: seq<Instr>, m: Machine, cond: nat, value: bool, lab: nat, gen: nat)
    requires m.pc + 2 < |p| && p[m.pc].Label? && p[m.pc + 1] == Test(cond) && p[m.pc + 2] == GotoIf(value, lab)
    ensures var m3 := Steps(w, p, m, 3);
            && m3.s == Tested(w, cond, m.s)
            && m3.pc == (if Holds(w, cond, m.s) == value then Find(p, lab) else m.pc + 3)
            && SameBelow(m, m3, gen)
  {
    var m1 := Step(w, p, m);
    TestStep(w, p, m1, cond, value, lab);
    assert Steps(w, p, m, 3) == Steps(w, p, m1, 2);
  }

  lemma {:induction false} RunsLoop(
    w: World, p: seq<Instr>, m: Machine, c: Cmd, gen: nat, tg: Option<Targets>, fuel: nat) returns (n: nat)
    requires c.Loop? && Placed(p, m.pc, LowerOne(c, gen, tg).code) && WellFormedOne(c, tg.Some?) && gen > 0
    ensures Reaches(w, p, m, n, RunOne(w, c, m.s, fuel), m.pc + |LowerOne(c, gen, tg).code|, gen, tg, fuel)
    decreases fuel, c, 1
  {
    hide Placed, Reaches, Steps, Lower, Find, SameBelow, Tested, RunAll;
    var inner := Some(Targets(gen + 1, gen));
    var b := Lower(c.body, gen + 2, inner);
    var past := m.pc + |LowerOne(c, gen, tg).code|;
    LoopParts(p, m.pc, gen, c.cond, !c.isWhile, b.code);
    if fuel == 0 {
      n := 0;
      NotYet(w, p, m, past, gen, tg);
    } else {
      var m3 := Steps(w, p, m, 3);
      LoopTop(w, p, m, c.cond, !c.isWhile, gen + 1, gen);
      if Holds(w, c.cond, m.s) != c.isWhile {
        n := 4;
        LabelStep(w, p, m, 3, gen);
        Arrives(w, p, m, 4, past, gen, tg, fuel);
      } else {
        var a := RunsTurn(w, p, m3, c, gen, tg, fuel - 1);
        n := 3 + a;
        ReachesLater(w, p, m, 3, a, AfterTurn(w, c, RunAll(w, c.body, m3.s, fuel - 1), fuel - 1), past, gen, gen, tg,
          fuel - 1, fuel);
      }
    }
  }

  lemma NotYet(w: World, p: seq<Instr>, m: Machine, past: nat, gen: nat, tg: Option<Targets>)
    requires m.pc < |p|
    ensures Reaches(w, p, m, 0, Unfinished, past, gen, tg, 0)
  {}

  lemma Arrives(w: World, p: seq<Instr>, m: Machine, n: nat, past: nat, gen: nat, tg: Option<Targets>, fuel: nat)
    requires Steps(w, p, m, n).pc == past && SameBelow(m, Steps(w, p, m, n), gen)
    ensures Reaches(w, p, m, n, Normal(Steps(w, p, m, n).s), past, gen, tg, fuel)
  {}

  /** The body of a loop from behind its test, and what comes after it. */
  lemma {:induction false} RunsTurn(
    w: World, p: seq<Instr>, m: Machine, c: Cmd, gen: nat, tg: Option<Targets>, fuel: nat) returns (n: nat)
    requires c.Loop? && m.pc >= 3 && Placed(p, m.pc - 3, LowerOne(c, gen, tg).code) && WellFormedOne(c, tg.Some?) &&
             gen > 0
    ensures Reaches(w, p, m, n, AfterTurn(w, c, RunAll(w, c.body, m.s, fuel), fuel),
                    m.pc - 3 + |LowerOne(c, gen, tg).code|, gen, tg, fuel)
    decreases fuel, c, 2
  {
    hide Placed, Reaches, Steps, Lower, SameBelow, RunAll, RunOne;
    var inner := Some(Targets(gen + 1, gen));
    var b := Lower(c.body, gen + 2, inner);
    var top, past := m.pc - 3, m.pc - 3 + |LowerOne(c, gen, tg).code|;
    LoopParts(p, top, gen, c.cond, !c.isWhile, b.code);
    var r := RunAll(w, c.body, m.s, fuel);
    var a := RunsAll(w, p, m, c.body, gen + 2, inner, fuel);
    LowerGen(w, p, m, a, r, m.pc + |b.code|, gen + 2, gen, inner, fuel);
    match r {
      case Broke(s) =>
        BodyLeaves(w, p, m, a, r, m.pc + |b.code|, gen, inner, fuel);
        LabelStep(w, p, m, a, gen);
        n := a + 1;
        Arrives(w, p, m, n, past, gen, tg, fuel);
      case Unfinished =>
        n := a;
        StillRunning(w, p, m, a, m.pc + |b.code|, past, gen, inner, tg, fuel);
      case EmptyFor =>
        n := a;
        Excused(w, p, m, a, m.pc + |b.code|, past, gen, inner, tg, fuel);
      case _ =>
        a := BackToTop(w, p, m, a, r, m.pc + |b.code|, gen, inner, fuel);
        var m2 := Steps(w, p, m, a);
        var k := RunsLoop(w, p, m2, c, gen, tg, fuel);
        n := a + k;
        ReachesLater(w, p, m, a, k, RunOne(w, c, m2.s, fuel), past, gen, gen, tg, fuel, fuel);
    }
  }

  lemma BodyLeaves(
    w: World, p: seq<Instr>, m: Machine, n: nat, r: Result, past: nat, gen: nat, tg: Option<Targets>, fuel: nat)
    requires Reaches(w, p, m, n, r, past, gen, tg, fuel) && r.Broke?
    ensures tg.Some? && Steps(w, p, m, n).pc == Find(p, tg.value.onBreak) && Steps(w, p, m, n).s == r.s
    ensures SameBelow(m, Steps(w, p, m, n), gen)
  {}

  lemma StillRunning(
    w: World, p: seq<Instr>, m: Machine, n: nat, past: nat, past': nat, gen: nat, tg: Option<Targets>,
      tg': Option<Targets>, fuel: nat)
    requires Reaches(w, p, m, n, Unfinished, past, gen, tg, fuel)
    ensures Reaches(w, p, m, n, Unfinished, past', gen, tg', fuel)
  {}

  lemma Excused(
    w: World, p: seq<Instr>, m: Machine, n: nat, past: nat, past': nat, gen: nat, tg: Option<Targets>,
      tg': Option<Targets>, fuel: nat)
    requires Reaches(w, p, m, n, EmptyFor, past, gen, tg, fuel)
    ensures Reaches(w, p, m, n, EmptyFor, past', gen, tg', fuel)
  {}

  /** The end of the body and a continue both get to the top of the loop. */
  lemma BackToTop(
    w: World, p: seq<Instr>, m: Machine, n: nat, r: Result, past: nat, gen: nat, tg: Option<Targets>, fuel: nat)
    returns (n': nat)
    requires Reaches(w, p, m, n, r, past, gen, tg, fuel) && (r.Normal? || r.Continued?)
    requires tg.Some? && past < |p| && p[past] == Goto(tg.value.onContinue)
    ensures var m' := Steps(w, p, m, n');
            m'.pc == Find(p, tg.value.onContinue) && m'.s == r.s && SameBelow(m, m', gen)
  {
    n' := n;
    if r.Normal? {
      n' := n + 1;
      StepsAdd(w, p, m, n, 1);
      var m1 := Steps(w, p, m, n);
      assert Steps(w, p, m1, 1) == Step(w, p, m1);
    }
  }

  // ------------------------------------------------------------------ for

  /** The body of a for loop in the code, and what stands around it. */
  lemma ForParts(p: seq<Instr>, at: nat, c: Cmd, gen: nat, tg: Option<Targets>) returns (u: nat)
    requires c.For? && Placed(p, at, LowerOne(c, gen, tg).code)
    ensures u == if c.index.Some? then 1 else 0
    ensures var b := Lower(c.body, gen + 6, Some(Targets(gen + 5, gen + 4)));
            var body, past := at + 5 + u, at + |LowerOne(c, gen, tg).code|;
            && p[at] == ZeroIndex(gen) && p[at + 1] == TakeArray(gen + 1, c.source)
            && p[at + 2] == TakeLength(gen + 2, gen + 1)
            && p[at + 3] == Label(gen + 3) && (c.index.Some? ==> p[at + 4] == UserIndex(c.index.value, gen))
            && p[at + 4 + u] == ArrayGet(c.x, gen + 1, gen) && Placed(p, body, b.code)
            && past == body + |b.code| + 3 <= |p|
            && p[body + |b.code|] == Label(gen + 4) && p[body + |b.code| + 1] == LoopLess(gen, gen + 2, gen + 3)
            && p[body + |b.code| + 2] == Label(gen + 5)
            && Find(p, gen + 3) == at + 3 && Find(p, gen + 4) == body + |b.code|
            && Find(p, gen + 5) == body + |b.code| + 2
  {
    hide Lower, Placed, Find;
    u := if c.index.Some? then 1 else 0;
    var b := Lower(c.body, gen + 6, Some(Targets(gen + 5, gen + 4)));
    var head, tail := ForHead(c, gen), ForTail(gen);
    assert LowerOne(c, gen, tg).code == head + b.code + tail;
    PlacedParts(p, at, head + b.code, tail);
    PlacedParts(p, at, head, b.code);
    HeadParts(p, at, c, gen);
    PlacedAt(p, at + 5 + u + |b.code|, tail, 0);
    PlacedAt(p, at + 5 + u + |b.code|, tail, 1);
    PlacedAt(p, at + 5 + u + |b.code|, tail, 2);
  }

  lemma HeadParts(p: seq<Instr>, at: nat, c: Cmd, gen: nat)
    requires c.For? && Placed(p, at, ForHead(c, gen))
    ensures var u := if c.index.Some? then 1 else 0;
            && |ForHead(c, gen)| == 5 + u
            && p[at] == ZeroIndex(gen) && p[at + 1] == TakeArray(gen + 1, c.source)
            && p[at + 2] == TakeLength(gen + 2, gen + 1)
            && p[at + 3] == Label(gen + 3) && (c.index.Some? ==> p[at + 4] == UserIndex(c.index.value, gen))
            && p[at + 4 + u] == ArrayGet(c.x, gen + 1, gen) && Find(p, gen + 3) == at + 3
  {
    PlacedAt(p, at, ForHead(c, gen), 0);
    PlacedAt(p, at, ForHead(c, gen), 1);
    PlacedAt(p, at, ForHead(c, gen), 2);
    PlacedAt(p, at, ForHead(c, gen), 3);
    PlacedAt(p, at, ForHead(c, gen), 4);
    PlacedAt(p, at, ForHead(c, gen), |ForHead(c, gen)| - 1);
  }

  /** At the top of turn k, with the synthetic variables as they must be. */
  ghost predicate AtTurn(m: Machine, gen: nat, values: seq<Val>, k: nat) {
    At(m.index, gen, 0) == k && At(m.arrays, gen + 1, []) == values && At(m.length, gen + 2, 0) == |values|
  }

  lemma ForStart(w: World, p: seq<Instr>, m: Machine, c: Cmd, gen: nat)
    requires c.For? && m.pc + 2 < |p| && p[m.pc] == ZeroIndex(gen) && p[m.pc + 1] == TakeArray(gen + 1, c.source)
    requires p[m.pc + 2] == TakeLength(gen + 2, gen + 1)
    ensures var m3 := Steps(w, p, m, 3);
            && m3.pc == m.pc + 3 && m3.s == m.s && AtTurn(m3, gen, w.elements(c.source, m.s), 0)
            && SameBelow(m, m3, gen)
  {
    var m1 := Step(w, p, m);
    var m2 := Step(w, p, m1);
    assert Steps(w, p, m, 3) == Steps(w, p, m1, 2) == Steps(w, p, m2, 1) == Step(w, p, m2);
  }

  /** From the label at the top to the body: the loop variable is set. */
  lemma TurnStart(w: World, p: seq<Instr>, m: Machine, c: Cmd, gen: nat, u: nat, values: seq<Val>, k: nat)
    requires c.For? && u == (if c.index.Some? then 1 else 0) && m.pc + 1 + u < |p| && p[m.pc] == Label(gen + 3)
    requires (c.index.Some? ==> p[m.pc + 1] == UserIndex(c.index.value, gen)) &&
             p[m.pc + 1 + u] == ArrayGet(c.x, gen + 1, gen)
    requires AtTurn(m, gen, values, k)
    ensures var m' := Steps(w, p, m, 2 + u);
            && m'.pc == m.pc + 2 + u && m'.s == TurnStore(w, c.x, c.index, values, k, m.s)
            && AtTurn(m', gen, values, k) && SameBelow(m, m', gen)
  {
    var m1 := Step(w, p, m);
    var m2 := Step(w, p, m1);
    assert Steps(w, p, m, 2) == Steps(w, p, m1, 1) == m2;
    if u == 1 {
      assert Steps(w, p, m, 3) == Steps(w, p, m1, 2) == Steps(w, p, m2, 1) == Step(w, p, m2);
    }
  }

  /** From the label behind the body: count and test. */
  lemma TurnEnd(w: World, p: seq<Instr>, m: Machine, gen: nat, values: seq<Val>, k: nat)
    requires m.pc + 2 < |p| && p[m.pc] == Label(gen + 4) && p[m.pc + 1] == LoopLess(gen, gen + 2, gen + 3)
    requires p[m.pc + 2] == Label(gen + 5) && AtTurn(m, gen, values, k)
    ensures k + 1 < |values| ==>
              var m' := Steps(w, p, m, 2);
              m'.pc == Find(p, gen + 3) && m'.s == m.s && AtTurn(m', gen, values, k + 1) && SameBelow(m, m', gen)
    ensures k + 1 >= |values| ==>
              var m' := Steps(w, p, m, 3);
              m'.pc == m.pc + 3 && m'.s == m.s && SameBelow(m, m', gen)
  {
    var m1 := Step(w, p, m);
    var m2 := Step(w, p, m1);
    assert Steps(w, p, m, 2) == Steps(w, p, m1, 1) == m2;
    assert Steps(w, p, m, 3) == Steps(w, p, m1, 2) == Steps(w, p, m2, 1) == Step(w, p, m2);
  }

  lemma {:induction false} RunsFor(
    w: World, p: seq<Instr>, m: Machine, c: Cmd, gen: nat, tg: Option<Targets>, fuel: nat) returns (n: nat)
    requires c.For? && Placed(p, m.pc, LowerOne(c, gen, tg).code) && WellFormedOne(c, tg.Some?) && gen > 0
    ensures Reaches(w, p, m, n, RunOne(w, c, m.s, fuel), m.pc + |LowerOne(c, gen, tg).code|, gen, tg, fuel)
    decreases fuel, c, 2
  {
    hide Placed, Reaches, Steps, LowerOne, SameBelow, RunFor, AtTurn, Find, Step, Lower, WellFormedOne;
    var values := w.elements(c.source, m.s);
    var past := m.pc + |LowerOne(c, gen, tg).code|;
    if values == [] {
      n := 0;
      AnythingGoes(w, p, m, past, gen, tg, fuel);
    } else {
      var _ := ForParts(p, m.pc, c, gen, tg);
      ForStart(w, p, m, c, gen);
      var m3 := Steps(w, p, m, 3);
      var a := RunsTurns(w, p, m3, c, gen, tg, values, 0, fuel);
      n := 3 + a;
      ReachesLater(w, p, m, 3, a, RunFor(w, c.x, c.index, values, 0, c.body, m3.s, fuel), past, gen, gen, tg, fuel,
        fuel);
    }
  }

  lemma AnythingGoes(w: World, p: seq<Instr>, m: Machine, past: nat, gen: nat, tg: Option<Targets>, fuel: nat)
    ensures Reaches(w, p, m, 0, EmptyFor, past, gen, tg, fuel)
  {}

  /** The turns of a for loop from turn k on, started at its top label. */
  lemma {:induction false} RunsTurns(
    w: World, p: seq<Instr>, m: Machine, c: Cmd, gen: nat, tg: Option<Targets>, values: seq<Val>, k: nat, fuel: nat)
    returns (n: nat)
    requires c.For? && m.pc >= 3 && Placed(p, m.pc - 3, LowerOne(c, gen, tg).code) && WellFormedOne(c, tg.Some?) &&
             gen > 0
    requires AtTurn(m, gen, values, k) && k < |values|
    ensures Reaches(w, p, m, n, RunFor(w, c.x, c.index, values, k, c.body, m.s, fuel),
                    m.pc - 3 + |LowerOne(c, gen, tg).code|, gen, tg, fuel)
    decreases fuel, c, 1, |values| - k, 2
  {
    hide Placed, Reaches, Steps, LowerOne, Lower, SameBelow, RunAll, AtTurn, TurnStore, Find, Step;
    var inner := Some(Targets(gen + 5, gen + 4));
    var b := Lower(c.body, gen + 6, inner);
    var past := m.pc - 3 + |LowerOne(c, gen, tg).code|;
    var u := ForParts(p, m.pc - 3, c, gen, tg);
    TurnStart(w, p, m, c, gen, u, values, k);
    var m1 := Steps(w, p, m, 2 + u);
    var r := RunAll(w, c.body, m1.s, fuel);
    var a := RunsAll(w, p, m1, c.body, gen + 6, inner, fuel);
    var e := AfterBody(w, p, m1, c, gen, tg, values, k, a, r, m1.pc + |b.code|, past, fuel);
    n := 2 + u + e;
    ReachesLater(w, p, m, 2 + u, e, ForResult(w, c, values, k, r, fuel), past, gen, gen, tg, fuel, fuel);
  }

  /** What becomes of a for loop once turn k has ended like this. */
  function ForResult(w: World, c: Cmd, values: seq<Val>, k: nat, r: Result, fuel: nat): Result
    requires c.For?
  {
    match r
    case Normal(s1) => RunFor(w, c.x, c.index, values, k + 1, c.body, s1, fuel)
    case Continued(s1) => RunFor(w, c.x, c.index, values, k + 1, c.body, s1, fuel)
    case Broke(s1) => Normal(s1)
    case other => other
  }

  lemma {:induction false} AfterBody(
    w: World, p: seq<Instr>, m: Machine, c: Cmd, gen: nat, tg: Option<Targets>, values: seq<Val>, k: nat,
    a: nat, r: Result, bottom: nat, past: nat, fuel: nat) returns (n: nat)
    requires c.For? && bottom + 3 == past <= |p| && past >= |LowerOne(c, gen, tg).code|
    requires Placed(p, past - |LowerOne(c, gen, tg).code|, LowerOne(c, gen, tg).code) && WellFormedOne(c, tg.Some?) &&
             gen > 0
    requires AtTurn(m, gen, values, k) && k < |values|
    requires Reaches(w, p, m, a, r, bottom, gen + 6, Some(Targets(gen + 5, gen + 4)), fuel)
    ensures Reaches(w, p, m, n, ForResult(w, c, values, k, r, fuel), past, gen, tg, fuel)
    decreases fuel, c, 1, |values| - k, 1
  {
    hide Placed, Reaches, Steps, LowerOne, SameBelow, AtTurn, RunFor, Lower, Find, Step, WellFormedOne, RunAll;
    var inner := Some(Targets(gen + 5, gen + 4));
    var _ := ForParts(p, past - |LowerOne(c, gen, tg).code|, c, gen, tg);
    LowerGen(w, p, m, a, r, bottom, gen + 6, gen, inner, fuel);
    match r {
      case Broke(s) =>
        BodyLeaves(w, p, m, a, r, bottom, gen, inner, fuel);
        LabelStep(w, p, m, a, gen);
        n := a + 1;
        Arrives(w, p, m, n, past, gen, tg, fuel);
      case Unfinished =>
        n := a;
        StillRunning(w, p, m, a, bottom, past, gen, inner, tg, fuel);
      case EmptyFor =>
        n := a;
        Excused(w, p, m, a, bottom, past, gen, inner, tg, fuel);
      case _ =>
        TurnKept(w, p, m, a, r, bottom, gen, values, k, fuel);
        var m2 := Steps(w, p, m, a);
        var e := NextTurn(w, p, m2, c, gen, tg, values, k, past, fuel);
        n := a + e;
        ReachesLater(w, p, m, a, e, RunFor(w, c.x, c.index, values, k + 1, c.body, m2.s, fuel), past, gen, gen, tg,
          fuel, fuel);
    }
  }

  /** From the label behind the body: the next turn, or the end of the loop. */
  lemma {:induction false} NextTurn(
    w: World, p: seq<Instr>, m: Machine, c: Cmd, gen: nat, tg: Option<Targets>, values: seq<Val>, k: nat,
    past: nat, fuel: nat) returns (n: nat)
    requires c.For? && m.pc + 3 == past <= |p| && past >= |LowerOne(c, gen, tg).code|
    requires Placed(p, past - |LowerOne(c, gen, tg).code|, LowerOne(c, gen, tg).code) && WellFormedOne(c, tg.Some?) &&
             gen > 0
    requires AtTurn(m, gen, values, k) && k < |values|
    ensures Reaches(w, p, m, n, RunFor(w, c.x, c.index, values, k + 1, c.body, m.s, fuel), past, gen, tg, fuel)
    decreases fuel, c, 1, |values| - k, 0
  {
    hide Placed, Reaches, Steps, LowerOne, SameBelow, AtTurn, Lower, RunAll;
    var _ := ForParts(p, past - |LowerOne(c, gen, tg).code|, c, gen, tg);
    TurnEnd(w, p, m, gen, values, k);
    if k + 1 < |values| {
      hide RunFor;
      var m3 := Steps(w, p, m, 2);
      var e := RunsTurns(w, p, m3, c, gen, tg, values, k + 1, fuel);
      n := 2 + e;
      ReachesLater(w, p, m, 2, e, RunFor(w, c.x, c.index, values, k + 1, c.body, m3.s, fuel), past, gen, gen, tg, fuel,
        fuel);
    } else {
      n := 3;
      Arrives(w, p, m, 3, past, gen, tg, fuel);
    }
  }

  /** The body leaves the synthetic variables of its loop alone. */
  lemma TurnKept(
    w: World, p: seq<Instr>, m: Machine, a: nat, r: Result, bottom: nat, gen: nat, values: seq<Val>, k: nat, fuel: nat)
    requires Reaches(w, p, m, a, r, bottom, gen + 6, Some(Targets(gen + 5, gen + 4)), fuel) &&
             (r.Normal? || r.Continued?)
    requires AtTurn(m, gen, values, k) && Find(p, gen + 4) == bottom
    ensures var m2 := Steps(w, p, m, a);
            m2.pc == bottom && m2.s == r.s && AtTurn(m2, gen, values, k) && SameBelow(m, m2, gen)
  {
    assert gen < gen + 6 && gen + 1 < gen + 6 && gen + 2 < gen + 6;
  }

  // -------------------------------------------------------------- results

  function Start(s: Store): Machine {
    Machine(0, s, false, map[], map[], map[])
  }

  ghost predicate HaltsIn(w: World, p: seq<Instr>, s: Store, n: nat) {
    Steps(w, p, Start(s), n).pc >= |p|
  }

  /** When the structured program ends, the code ends in the same store. */
  lemma LoweredEndsAlike(w: World, cs: Cmds, gen: nat, s: Store, fuel: nat) returns (n: nat)
    requires WellFormed(cs, false) && gen > 0
    ensures var p := Lower(cs, gen, None).code;
            RunAll(w, cs, s, fuel).Normal? ==>
              HaltsIn(w, p, s, n) && Steps(w, p, Start(s), n).s == RunAll(w, cs, s, fuel).s
  {
    hide Lower, RunAll, LabelsOf, Find, Step, WellFormed;
    var p := Lower(cs, gen, None).code;
    LowerNumbered(cs, gen, None);
    assert p[0..|p|] == p;
    n := RunsAll(w, p, Start(s), cs, gen, None, fuel);
  }

  /** When the code ends, so does the structured program, unless a for loop met an
      empty array; breaks and continues have all been caught. */
  lemma LoweredEndsOnlyThen(w: World, cs: Cmds, gen: nat, s: Store, n: nat)
    requires WellFormed(cs, false) && gen > 0 && HaltsIn(w, Lower(cs, gen, None).code, s, n)
    ensures var r := RunAll(w, cs, s, n + 1);
            r.EmptyFor? || (r.Normal? && r.s == Steps(w, Lower(cs, gen, None).code, Start(s), n).s)
  {
    hide Lower, RunAll, LabelsOf, Find, Step, WellFormed;
    var p := Lower(cs, gen, None).code;
    LowerNumbered(cs, gen, None);
    assert p[0..|p|] == p;
    var k := RunsAll(w, p, Start(s), cs, gen, None, n + 1);
    var r := RunAll(w, cs, s, n + 1);
    if k >= n {
      StepsAdd(w, p, Start(s), n, k - n);
      StaysHalted(w, p, Steps(w, p, Start(s), n), k - n);
    } else if r.Normal? {
      StepsAdd(w, p, Start(s), k, n - k);
      StaysHalted(w, p, Steps(w, p, Start(s), k), n - k);
    }
  }

  /** The code runs forever exactly when the structured program does. */
  lemma DivergesTogether(w: World, cs: Cmds, gen: nat, s: Store)
    requires WellFormed(cs, false) && gen > 0 && forall fuel: nat :: !RunAll(w, cs, s, fuel).EmptyFor?
    ensures (exists n: nat :: HaltsIn(w, Lower(cs, gen, None).code, s, n)) <==>
            (exists fuel: nat :: !RunAll(w, cs, s, fuel).Unfinished?)
  {
    if n: nat :| HaltsIn(w, Lower(cs, gen, None).code, s, n) {
      LoweredEndsOnlyThen(w, cs, gen, s, n);
      assert !RunAll(w, cs, s, n + 1).Unfinished?;
    }
    if fuel: nat :| !RunAll(w, cs, s, fuel).Unfinished? {
      NothingEscapes(w, cs, gen, s, fuel);
      var n := LoweredEndsAlike(w, cs, gen, s, fuel);
      assert HaltsIn(w, Lower(cs, gen, None).code, s, n);
    }
  }

  /** Outside loops no break or continue is left over. */
  lemma NothingEscapes(w: World, cs: Cmds, gen: nat, s: Store, fuel: nat)
    requires WellFormed(cs, false) && gen > 0
    ensures !RunAll(w, cs, s, fuel).Broke? && !RunAll(w, cs, s, fuel).Continued?
  {
    hide Lower, RunAll, LabelsOf, Find, Step, WellFormed;
    var p := Lower(cs, gen, None).code;
    LowerNumbered(cs, gen, None);
    assert p[0..|p|] == p;
    var _ := RunsAll(w, p, Start(s), cs, gen, None, fuel);
  }
}
