/**
 Expression trees as three-address code.  Operators and calls are flattened from
 left to right into temporaries; a conditional expression becomes a test with two
 arms of which one is run.  Comparisons, && and || are operators like the others:
 both sides are evaluated.
 */
module ExpressionFlattening {
  import opened Basics
  import opened Resolved

  datatype Exprs = NoExprs | More(head: Expr, tail: Exprs)

  datatype Expr =
    | Leaf(arg: Arg)                                       // a literal or a variable
    | Apply(op: string, args: Exprs)                       // operator, function or array read
    | Cond(op: string, args: Exprs, yes: Expr, no: Expr)   // the test is an operation

  /** A temporary is known by its number. */
  datatype Arg = Literal(text: string) | Variable(name: string) | Temp(number: nat)

  /** A call that has been made. */
  datatype Call = Call(op: string, args: seq<Val>)

  type Trace = seq<Call>

  /** What calls yield and what they do to the variables may depend on all earlier
      calls. */
  datatype Meaning = Meaning(
    literal: string -> Val, apply: (string, seq<Val>, Store, Trace) -> Val,
    effect: (string, seq<Val>, Store, Trace) -> Store, truth: Val -> bool)

  // ----------------------------------------------------------------- trees

  /** The value of a tree, and the variables and the calls made by then. */
  datatype Valued = Valued(v: Val, s: Store, trace: Trace)

  datatype AllValued = AllValued(vs: seq<Val>, s: Store, trace: Trace)

  function LeafValue(mn: Meaning, a: Arg, s: Store): Val {
    match a
    case Literal(text) => mn.literal(text)
    case Variable(n) => Get(s, n)
    case Temp(_) => ZERO
  }

  function Called(mn: Meaning, op: string, args: AllValued): Valued {
    Valued(mn.apply(op, args.vs, args.s, args.trace), mn.effect(op, args.vs, args.s, args.trace),
           args.trace + [Call(op, args.vs)])
  }

  function InOrder(mn: Meaning, e: Expr, s: Store, trace: Trace): Valued
    decreases e
  {
    match e
    case Leaf(a) => Valued(LeafValue(mn, a, s), s, trace)
    case Apply(op, args) => Called(mn, op, InOrderAll(mn, args, s, trace))
    case Cond(op, args, yes, no) =>
      var t := Called(mn, op, InOrderAll(mn, args, s, trace));
      if mn.truth(t.v) then InOrder(mn, yes, t.s, t.trace) else InOrder(mn, no, t.s, t.trace)
  }

  /** From left to right. */
  function InOrderAll(mn: Meaning, es: Exprs, s: Store, trace: Trace): AllValued
    decreases es
  {
    match es
    case NoExprs => AllValued([], s, trace)
    case More(e, rest) =>
      var first := InOrder(mn, e, s, trace);
      var others := InOrderAll(mn, rest, first.s, first.trace);
      AllValued([first.v] + others.vs, others.s, others.trace)
  }

  // ---------------------------------------------- variables are read late

  /** An operand whose value is there, or one that is read when it is used. */
  datatype Held = Ready(v: Val) | Later(arg: Arg)

  datatype AllHeld = AllHeld(held: seq<Held>, s: Store, trace: Trace)

  function ReadNow(mn: Meaning, held: seq<Held>, s: Store): (vs: seq<Val>)
    ensures |vs| == |held|
  {
    if held == [] then []
    else [if held[0].Ready? then held[0].v else LeafValue(mn, held[0].arg, s)] + ReadNow(mn, held[1..], s)
  }

  function Settled(mn: Meaning, h: AllHeld): AllValued {
    AllValued(ReadNow(mn, h.held, h.s), h.s, h.trace)
  }

  /** As InOrder, but an operand that is a variable or a literal is read at the call it is
      an operand of, behind the calls in the operands to its right. */
  function Late(mn: Meaning, e: Expr, s: Store, trace: Trace): Valued
    decreases e
  {
    match e
    case Leaf(a) => Valued(LeafValue(mn, a, s), s, trace)
    case Apply(op, args) => Called(mn, op, Settled(mn, LateAll(mn, args, s, trace)))
    case Cond(op, args, yes, no) =>
      var t := Called(mn, op, Settled(mn, LateAll(mn, args, s, trace)));
      if mn.truth(t.v) then Late(mn, yes, t.s, t.trace) else Late(mn, no, t.s, t.trace)
  }

  function LateAll(mn: Meaning, es: Exprs, s: Store, trace: Trace): AllHeld
    decreases es
  {
    match es
    case NoExprs => AllHeld([], s, trace)
    case More(e, rest) =>
      var first := Late(mn, e, s, trace);
      var others := LateAll(mn, rest, first.s, first.trace);
      AllHeld([if e.Leaf? then Later(e.arg) else Ready(first.v)] + others.held, others.s, others.trace)
  }

  // ------------------------------------------------------------------ code

  datatype Instr =
    | Do(out: nat, op: string, args: seq<Arg>)
    | Copy(out: nat, arg: Arg)
    | GotoIf(test: nat, target: nat)
    | Goto(target: nat)
    | Label(target: nat)

  datatype Machine = Machine(temps: map<nat, Val>, s: Store, trace: Trace)

  function ArgValue(mn: Meaning, a: Arg, m: Machine): Val {
    match a
    case Temp(n) => if n in m.temps then m.temps[n] else ZERO
    case _ => LeafValue(mn, a, m.s)
  }

  function ArgValues(mn: Meaning, args: seq<Arg>, m: Machine): (vs: seq<Val>)
    ensures |vs| == |args|
  {
    if args == [] then [] else [ArgValue(mn, args[0], m)] + ArgValues(mn, args[1..], m)
  }

  /** A call with what its arguments stand for. */
  function Invoked(mn: Meaning, op: string, args: seq<Arg>, m: Machine): Valued {
    Called(mn, op, AllValued(ArgValues(mn, args, m), m.s, m.trace))
  }

  /** The code behind a label further on. */
  function Ahead(code: seq<Instr>, target: nat): (rest: seq<Instr>)
    ensures |rest| <= |code|
  {
    if code == [] then [] else if code[0] == Label(target) then code[1..] else Ahead(code[1..], target)
  }

  /** Runs code to its end; jumps only go forward. */
  function Run(mn: Meaning, code: seq<Instr>, m: Machine): Machine
    decreases |code|
  {
    if code == [] then m
    else
      match code[0]
      case Do(out, op, args) =>
        var r := Invoked(mn, op, args, m);
        Run(mn, code[1..], Machine(m.temps[out := r.v], r.s, r.trace))
      case Copy(out, a) => Run(mn, code[1..], m.(temps := m.temps[out := ArgValue(mn, a, m)]))
      case GotoIf(test, target) =>
        if mn.truth(ArgValue(mn, Temp(test), m)) then Run(mn, Ahead(code[1..], target), m)
        else Run(mn, code[1..], m)
      case Goto(target) => Run(mn, Ahead(code[1..], target), m)
      case Label(_) => Run(mn, code[1..], m)
  }

  // ------------------------------------------------------------ flattening

  /** Code, the argument that stands for the value, and the next free temporary
      and label. */
  datatype Flat = Flat(code: seq<Instr>, arg: Arg, temps: nat, labels: nat)

  datatype FlatAll = FlatAll(code: seq<Instr>, args: seq<Arg>, temps: nat, labels: nat)

  function Flatten(e: Expr, temps: nat, labels: nat): (f: Flat)
    ensures temps <= f.temps && labels <= f.labels
    decreases e
  {
    match e
    case Leaf(a) => Flat([], a, temps, labels)
    case Apply(op, args) =>
      var fs := FlattenAll(args, temps, labels);
      Flat(fs.code + [Do(fs.temps, op, fs.args)], Temp(fs.temps), fs.temps + 1, fs.labels)
    case Cond(op, args, yes, no) =>
      var l1, l2 := labels, labels + 1;
      var fs := FlattenAll(args, temps, labels + 2);
      var test, out := fs.temps, fs.temps + 1;
      var n := Flatten(no, fs.temps + 2, fs.labels);
      var y := Flatten(yes, n.temps, n.labels);
      Flat(fs.code + [Do(test, op, fs.args), GotoIf(test, l1)]
           + n.code + [Copy(out, n.arg), Goto(l2), Label(l1)]
           + y.code + [Copy(out, y.arg), Label(l2), Copy(out, Temp(out))],
           Temp(out), y.temps, y.labels)
  }

  function FlattenAll(es: Exprs, temps: nat, labels: nat): (f: FlatAll)
    ensures temps <= f.temps && labels <= f.labels
    decreases es
  {
    match es
    case NoExprs => FlatAll([], [], temps, labels)
    case More(e, rest) =>
      var first := Flatten(e, temps, labels);
      var others := FlattenAll(rest, first.temps, first.labels);
      FlatAll(first.code + others.code, [first.arg] + others.args, others.temps, others.labels)
  }

  /** The tree has no temporaries of its own. */
  predicate Plain(e: Expr)
    decreases e
  {
    match e
    case Leaf(a) => !a.Temp?
    case Apply(_, args) => AllPlain(args)
    case Cond(_, args, yes, no) => AllPlain(args) && Plain(yes) && Plain(no)
  }

  predicate AllPlain(es: Exprs)
    decreases es
  {
    match es
    case NoExprs => true
    case More(e, rest) => Plain(e) && AllPlain(rest)
  }

  /** The literals and variables of a tree. */
  ghost function Leaves(e: Expr): set<Arg>
    decreases e
  {
    match e
    case Leaf(a) => {a}
    case Apply(_, args) => AllLeaves(args)
    case Cond(_, args, yes, no) => AllLeaves(args) + Leaves(yes) + Leaves(no)
  }

  ghost function AllLeaves(es: Exprs): set<Arg>
    decreases es
  {
    match es
    case NoExprs => {}
    case More(e, rest) => Leaves(e) + AllLeaves(rest)
  }

  /** Every tree of literals and variables is meant. */
  lemma {:induction false} PlainExactly(e: Expr)
    ensures Plain(e) <==> forall a <- Leaves(e) :: !a.Temp?
    decreases e
  {
    match e
    case Leaf(_) =>
    case Apply(_, args) => AllPlainExactly(args);
    case Cond(_, args, yes, no) =>
      AllPlainExactly(args);
      PlainExactly(yes);
      PlainExactly(no);
  }

  lemma {:induction false} AllPlainExactly(es: Exprs)
    ensures AllPlain(es) <==> forall a <- AllLeaves(es) :: !a.Temp?
    decreases es
  {
    match es
    case NoExprs =>
    case More(e, rest) =>
      PlainExactly(e);
      AllPlainExactly(rest);
  }

  // ----------------------------------------------------------- correctness

  /** The labels of the code have numbers from the range. */
  ghost predicate LabelsIn(code: seq<Instr>, lo: nat, hi: nat) {
    forall i :: i in code && i.Label? ==> lo <= i.target < hi
  }

  lemma LabelsJoin(a: seq<Instr>, b: seq<Instr>, lo: nat, hi: nat)
    requires LabelsIn(a, lo, hi) && LabelsIn(b, lo, hi)
    ensures LabelsIn(a + b, lo, hi)
  {}

  lemma LabelsWider(a: seq<Instr>, lo: nat, hi: nat, lo': nat, hi': nat)
    requires LabelsIn(a, lo, hi) && lo' <= lo && hi <= hi'
    ensures LabelsIn(a, lo', hi')
  {}

  /** Temporaries outside the range are as before. */
  ghost predicate SameOutside(m: Machine, m': Machine, lo: nat, hi: nat) {
    forall n: nat :: !(lo <= n < hi) ==>
        (n in m.temps <==> n in m'.temps) && (n in m.temps ==> m.temps[n] == m'.temps[n])
  }

  lemma {:induction false} AheadPast(code: seq<Instr>, rest: seq<Instr>, target: nat)
    requires forall i :: i in code ==> i != Label(target)
    ensures Ahead(code + [Label(target)] + rest, target) == rest
  {
    var all := code + [Label(target)] + rest;
    if code == [] {
      assert all[0] == Label(target) && all[1..] == rest;
    } else {
      assert all[1..] == code[1..] + [Label(target)] + rest;
      assert all[0] == code[0] && code[0] in code;
      forall i | i in code[1..] ensures i != Label(target) {
        assert i in code;
      }
      AheadPast(code[1..], rest, target);
    }
  }

  lemma PlainInstr(code: seq<Instr>, lo: nat, hi: nat)
    requires forall i :: i in code ==> !i.Label?
    ensures LabelsIn(code, lo, hi)
  {}

  lemma {:induction false} FlattenLabels(e: Expr, temps: nat, labels: nat)
    ensures LabelsIn(Flatten(e, temps, labels).code, labels, Flatten(e, temps, labels).labels)
    decreases e
  {
    hide LabelsIn;
    match e
    case Leaf(_) => PlainInstr([], labels, labels);
    case Apply(op, args) =>
      var fs := FlattenAll(args, temps, labels);
      FlattenAllLabels(args, temps, labels);
      PlainInstr([Do(fs.temps, op, fs.args)], labels, fs.labels);
      LabelsJoin(fs.code, [Do(fs.temps, op, fs.args)], labels, fs.labels);
    case Cond(op, args, yes, no) =>
      var fs := FlattenAll(args, temps, labels + 2);
      var n := Flatten(no, fs.temps + 2, fs.labels);
      var y := Flatten(yes, n.temps, n.labels);
      FlattenAllLabels(args, temps, labels + 2);
      FlattenLabels(no, fs.temps + 2, fs.labels);
      FlattenLabels(yes, n.temps, n.labels);
      CondLabels(fs.code, n.code, y.code, labels, fs.labels, n.labels, y.labels, op, fs.args, fs.temps, n.arg, y.arg);
  }

  lemma CondLabels(
    a: seq<Instr>, n: seq<Instr>, y: seq<Instr>, l: nat, la: nat, ln: nat, ly: nat,
    op: string, args: seq<Arg>, t: nat, narg: Arg, yarg: Arg)
    requires l + 2 <= la <= ln <= ly && LabelsIn(a, l + 2, la) && LabelsIn(n, la, ln) && LabelsIn(y, ln, ly)
    ensures LabelsIn(a + [Do(t, op, args), GotoIf(t, l)] + n + [Copy(t + 1, narg), Goto(l + 1), Label(l)]
                     + y + [Copy(t + 1, yarg), Label(l + 1), Copy(t + 1, Temp(t + 1))], l, ly)
  {
    hide LabelsIn;
    var p, q, r := [Do(t, op, args), GotoIf(t, l)], [Copy(t + 1, narg), Goto(l + 1), Label(l)],
                   [Copy(t + 1, yarg), Label(l + 1), Copy(t + 1, Temp(t + 1))];
    assert LabelsIn(p, l, ly) && LabelsIn(q, l, ly) && LabelsIn(r, l, ly) by {
      Short(p, q, r, l, ly);
    }
    LabelsWider(a, l + 2, la, l, ly);
    LabelsWider(n, la, ln, l, ly);
    LabelsWider(y, ln, ly, l, ly);
    LabelsJoin(a, p, l, ly);
    LabelsJoin(a + p, n, l, ly);
    LabelsJoin(a + p + n, q, l, ly);
    LabelsJoin(a + p + n + q, y, l, ly);
    LabelsJoin(a + p + n + q + y, r, l, ly);
  }

  lemma Short(p: seq<Instr>, q: seq<Instr>, r: seq<Instr>, l: nat, ly: nat)
    requires |p| == 2 && |q| == |r| == 3 && l + 2 <= ly
    requires !p[0].Label? && !p[1].Label? && !q[0].Label? && !q[1].Label? && q[2] == Label(l)
    requires !r[0].Label? && r[1] == Label(l + 1) && !r[2].Label?
    ensures LabelsIn(p, l, ly) && LabelsIn(q, l, ly) && LabelsIn(r, l, ly)
  {}

  lemma {:induction false} FlattenAllLabels(es: Exprs, temps: nat, labels: nat)
    ensures LabelsIn(FlattenAll(es, temps, labels).code, labels, FlattenAll(es, temps, labels).labels)
    decreases es
  {
    match es
    case NoExprs =>
    case More(e, rest) =>
      var first := Flatten(e, temps, labels);
      var others := FlattenAll(rest, first.temps, first.labels);
      FlattenLabels(e, temps, labels);
      FlattenAllLabels(rest, first.temps, first.labels);
      LabelsWider(first.code, labels, first.labels, labels, others.labels);
      LabelsWider(others.code, first.labels, others.labels, labels, others.labels);
      LabelsJoin(first.code, others.code, labels, others.labels);
  }

  /** The result is the leaf itself or one of the temporaries of the tree. */
  lemma FlattenArg(e: Expr, temps: nat, labels: nat)
    requires Plain(e)
    ensures var f := Flatten(e, temps, labels);
            if e.Leaf? then f.arg == e.arg && !f.arg.Temp? else f.arg.Temp? && temps <= f.arg.number < f.temps
  {
    match e
    case Leaf(_) =>
    case Apply(op, args) =>
      var fs := FlattenAll(args, temps, labels);
    case Cond(op, args, yes, no) =>
      var fs := FlattenAll(args, temps, labels + 2);
      var n := Flatten(no, fs.temps + 2, fs.labels);
      var y := Flatten(yes, n.temps, n.labels);
  }

  lemma SameSelf(m: Machine, a: nat, b: nat)
    ensures SameOutside(m, m, a, b)
  {}

  lemma OutsideJoin(m: Machine, m1: Machine, m2: Machine, a: nat, b: nat, c: nat)
    requires SameOutside(m, m1, a, b) && SameOutside(m1, m2, b, c) && a <= b <= c
    ensures SameOutside(m, m2, a, c)
  {}

  /** What a temporary holds does not depend on later temporaries. */
  lemma TempKept(mn: Meaning, a: Arg, m: Machine, m': Machine, mid: nat, hi: nat)
    requires SameOutside(m, m', mid, hi) && a.Temp? && a.number < mid
    ensures ArgValue(mn, a, m') == ArgValue(mn, a, m)
  {}

  /** What running the code of a tree comes to. */
  ghost predicate Computes(mn: Meaning, f: Flat, temps: nat, m: Machine, m': Machine, v: Valued) {
    m'.s == v.s && m'.trace == v.trace && ArgValue(mn, f.arg, m') == v.v && SameOutside(m, m', temps, f.temps)
  }

  /** The code of a tree, whatever follows it, makes the calls of the tree in order, on
      operands of which the variables are read last, and touches only its own
      temporaries. */
  lemma {:induction false} FlattenCorrect(
    mn: Meaning, e: Expr, temps: nat, labels: nat, m: Machine, rest: seq<Instr>) returns (m': Machine)
    requires Plain(e)
    ensures var f := Flatten(e, temps, labels);
            && Run(mn, f.code + rest, m) == Run(mn, rest, m')
            && Computes(mn, f, temps, m, m', Late(mn, e, m.s, m.trace))
    decreases e, 1
  {
    match e
    case Leaf(a) =>
      m' := m;
      assert [] + rest == rest;
    case Apply(op, args) =>
      var fs := FlattenAll(args, temps, labels);
      var last := [Do(fs.temps, op, fs.args)];
      assert Flatten(e, temps, labels).code + rest == fs.code + (last + rest);
      var m1 := AllCorrect(mn, args, temps, labels, m, last + rest);
      assert (last + rest)[1..] == rest;
      var r := Invoked(mn, op, fs.args, m1);
      m' := Machine(m1.temps[fs.temps := r.v], r.s, r.trace);
    case Cond(_, _, _, _) => m' := CondCorrect(mn, e, temps, labels, m, rest);
  }

  lemma {:induction false} AllCorrect(
    mn: Meaning, es: Exprs, temps: nat, labels: nat, m: Machine, rest: seq<Instr>) returns (m': Machine)
    requires AllPlain(es)
    ensures var f, h := FlattenAll(es, temps, labels), LateAll(mn, es, m.s, m.trace);
            && Run(mn, f.code + rest, m) == Run(mn, rest, m')
            && m'.s == h.s && m'.trace == h.trace && ArgValues(mn, f.args, m') == ReadNow(mn, h.held, h.s)
            && SameOutside(m, m', temps, f.temps)
    decreases es, 0
  {
    hide SameOutside, Run, Flatten, Late, Plain;
    match es
    case NoExprs =>
      m' := m;
      SameSelf(m, temps, temps);
      assert [] + rest == rest;
    case More(e, others) =>
      var f := Flatten(e, temps, labels);
      var fs := FlattenAll(others, f.temps, f.labels);
      assert FlattenAll(es, temps, labels).code + rest == f.code + (fs.code + rest);
      var m1 := FlattenCorrect(mn, e, temps, labels, m, fs.code + rest);
      m' := AllCorrect(mn, others, f.temps, f.labels, m1, rest);
      FlattenArg(e, temps, labels);
      if !e.Leaf? {
        TempKept(mn, f.arg, m1, m', f.temps, fs.temps);
      }
      OutsideJoin(m, m1, m', temps, f.temps, fs.temps);
      assert ([f.arg] + fs.args)[1..] == fs.args;
      HeldTail(mn, e, others, m.s, m.trace);
  }

  lemma HeldTail(mn: Meaning, e: Expr, rest: Exprs, s: Store, trace: Trace)
    ensures var h, first := LateAll(mn, More(e, rest), s, trace), Late(mn, e, s, trace);
            var others := LateAll(mn, rest, first.s, first.trace);
            && h.held != [] && h.held[1..] == others.held && h.s == others.s && h.trace == others.trace
            && h.held[0] == if e.Leaf? then Later(e.arg) else Ready(first.v)
  {}

  /** The pieces of a conditional expression in the code. */
  function Arm(f: Flat, out: nat, tail: seq<Instr>): seq<Instr> {
    f.code + ([Copy(out, f.arg)] + tail)
  }

  datatype Pieces = Pieces(fs: FlatAll, no: Flat, yes: Flat, test: nat, out: nat, l1: nat, l2: nat)

  function PiecesOf(e: Expr, temps: nat, labels: nat): (p: Pieces)
    requires e.Cond?
    ensures p.l1 == labels && p.l2 == labels + 1 && p.test == p.fs.temps && p.out == p.test + 1
    ensures p.fs == FlattenAll(e.args, temps, labels + 2)
    ensures p.no == Flatten(e.no, p.out + 1, p.fs.labels) && p.yes == Flatten(e.yes, p.no.temps, p.no.labels)
  {
    var fs := FlattenAll(e.args, temps, labels + 2);
    var n := Flatten(e.no, fs.temps + 2, fs.labels);
    Pieces(fs, n, Flatten(e.yes, n.temps, n.labels), fs.temps, fs.temps + 1, labels, labels + 1)
  }

  function Last(p: Pieces, rest: seq<Instr>): seq<Instr> {
    [Copy(p.out, Temp(p.out))] + rest
  }

  function YesPart(p: Pieces, rest: seq<Instr>): seq<Instr> {
    Arm(p.yes, p.out, [Label(p.l2)] + Last(p, rest))
  }

  function NoPart(p: Pieces, rest: seq<Instr>): seq<Instr> {
    Arm(p.no, p.out, [Goto(p.l2), Label(p.l1)] + YesPart(p, rest))
  }

  lemma CondShape(e: Expr, temps: nat, labels: nat, rest: seq<Instr>)
    requires e.Cond?
    ensures var p, f := PiecesOf(e, temps, labels), Flatten(e, temps, labels);
            && f.code + rest == p.fs.code + ([Do(p.test, e.op, p.fs.args), GotoIf(p.test, p.l1)] + NoPart(p, rest))
            && f.arg == Temp(p.out) && f.temps == p.yes.temps
  {
    hide FlattenAll;
    var p := PiecesOf(e, temps, labels);
    var h := [Do(p.test, e.op, p.fs.args), GotoIf(p.test, p.l1)];
    var q, r := [Copy(p.out, p.no.arg), Goto(p.l2), Label(p.l1)],
        [Copy(p.out, p.yes.arg), Label(p.l2), Copy(p.out, Temp(p.out))];
    assert r + rest == [Copy(p.out, p.yes.arg)] + ([Label(p.l2)] + Last(p, rest));
    assert q + YesPart(p, rest) == [Copy(p.out, p.no.arg)] + ([Goto(p.l2), Label(p.l1)] + YesPart(p, rest));
    Nested(p.fs.code, h, p.no.code, q, p.yes.code, r, rest);
  }

  lemma Nested(
    a: seq<Instr>, h: seq<Instr>, n: seq<Instr>, q: seq<Instr>, y: seq<Instr>, r: seq<Instr>, rest: seq<Instr>)
    ensures a + h + n + q + y + r + rest == a + (h + (n + (q + (y + (r + rest)))))
  {
    Assoc(a + h + n + q + y, r, rest);
    Assoc(a + h + n + q, y, r + rest);
    Assoc(a + h + n, q, y + (r + rest));
    Assoc(a + h, n, q + (y + (r + rest)));
    Assoc(a, h, n + (q + (y + (r + rest))));
  }

  lemma Assoc(a: seq<Instr>, b: seq<Instr>, c: seq<Instr>)
    ensures a + b + c == a + (b + c)
  {}

  /** A taken test goes to the yes arm. */
  lemma JumpYes(e: Expr, temps: nat, labels: nat, rest: seq<Instr>)
    requires e.Cond?
    ensures var p := PiecesOf(e, temps, labels); Ahead(NoPart(p, rest), p.l1) == YesPart(p, rest)
  {
    var p := PiecesOf(e, temps, labels);
    var skipped := p.no.code + [Copy(p.out, p.no.arg), Goto(p.l2)];
    FlattenLabels(e.no, p.out + 1, p.fs.labels);
    assert NoPart(p, rest) == skipped + [Label(p.l1)] + YesPart(p, rest);
    AheadPast(skipped, YesPart(p, rest), p.l1);
  }

  /** The no arm goes past the yes arm. */
  lemma JumpEnd(e: Expr, temps: nat, labels: nat, rest: seq<Instr>)
    requires e.Cond?
    ensures var p := PiecesOf(e, temps, labels); Ahead([Label(p.l1)] + YesPart(p, rest), p.l2) == Last(p, rest)
  {
    var p := PiecesOf(e, temps, labels);
    var skipped := [Label(p.l1)] + p.yes.code + [Copy(p.out, p.yes.arg)];
    FlattenLabels(e.yes, p.no.temps, p.no.labels);
    assert [Label(p.l1)] + YesPart(p, rest) == skipped + [Label(p.l2)] + Last(p, rest);
    AheadPast(skipped, Last(p, rest), p.l2);
  }

  /** The test and the jump behind it. */
  lemma TestRun(mn: Meaning, e: Expr, p: Pieces, m: Machine, no: seq<Instr>)
    requires e.Cond?
    ensures var t := Invoked(mn, e.op, p.fs.args, m);
            var m2 := Machine(m.temps[p.test := t.v], t.s, t.trace);
            Run(mn, [Do(p.test, e.op, p.fs.args), GotoIf(p.test, p.l1)] + no, m) ==
            if mn.truth(t.v) then Run(mn, Ahead(no, p.l1), m2) else Run(mn, no, m2)
  {
    hide Invoked, Ahead;
    var head := [Do(p.test, e.op, p.fs.args), GotoIf(p.test, p.l1)] + no;
    assert head[1..] == [GotoIf(p.test, p.l1)] + no;
    assert head[1..][1..] == no;
  }

  /** The common end copies the result to itself. */
  lemma LastRun(mn: Meaning, p: Pieces, m: Machine, rest: seq<Instr>)
    requires p.out in m.temps
    ensures Run(mn, Last(p, rest), m) == Run(mn, rest, m)
    ensures Run(mn, [Label(p.l2)] + Last(p, rest), m) == Run(mn, rest, m)
  {
    assert Last(p, rest)[1..] == rest && ([Label(p.l2)] + Last(p, rest))[1..] == Last(p, rest);
    assert m.temps[p.out := m.temps[p.out]] == m.temps;
  }

  lemma {:induction false} CondCorrect(
    mn: Meaning, e: Expr, temps: nat, labels: nat, m: Machine, rest: seq<Instr>) returns (m': Machine)
    requires Plain(e) && e.Cond?
    ensures var f := Flatten(e, temps, labels);
            && Run(mn, f.code + rest, m) == Run(mn, rest, m')
            && Computes(mn, f, temps, m, m', Late(mn, e, m.s, m.trace))
    decreases e, 0
  {
    hide Run, Flatten, FlattenAll, LateAll, NoPart, YesPart, Last, Ahead, Arm;
    var p := PiecesOf(e, temps, labels);
    CondShape(e, temps, labels, rest);
    var head := [Do(p.test, e.op, p.fs.args), GotoIf(p.test, p.l1)] + NoPart(p, rest);
    var m1 := AllCorrect(mn, e.args, temps, labels + 2, m, head);
    TestRun(mn, e, p, m1, NoPart(p, rest));
    var t := Called(mn, e.op, Settled(mn, LateAll(mn, e.args, m.s, m.trace)));
    var m2 := Machine(m1.temps[p.test := t.v], t.s, t.trace);
    if mn.truth(t.v) {
      JumpYes(e, temps, labels, rest);
      m' := YesRun(mn, e, temps, labels, m2, rest);
    } else {
      m' := NoRun(mn, e, temps, labels, m2, rest);
    }
  }

  lemma {:induction false} YesRun(
    mn: Meaning, e: Expr, temps: nat, labels: nat, m: Machine, rest: seq<Instr>) returns (m': Machine)
    requires Plain(e) && e.Cond?
    ensures var p, v := PiecesOf(e, temps, labels), Late(mn, e.yes, m.s, m.trace);
            && Run(mn, YesPart(p, rest), m) == Run(mn, rest, m')
            && m'.s == v.s && m'.trace == v.trace && p.out in m'.temps && m'.temps[p.out] == v.v
            && SameOutside(m, m', p.out, p.yes.temps)
    decreases e.yes, 3
  {
    hide Run, Flatten, FlattenAll, LateAll, Last;
    var p := PiecesOf(e, temps, labels);
    m' := ArmCorrect(mn, e.yes, p.no.temps, p.no.labels, p.out, m, [Label(p.l2)] + Last(p, rest));
    LastRun(mn, p, m', rest);
  }

  lemma {:induction false} NoRun(
    mn: Meaning, e: Expr, temps: nat, labels: nat, m: Machine, rest: seq<Instr>) returns (m': Machine)
    requires Plain(e) && e.Cond?
    ensures var p, v := PiecesOf(e, temps, labels), Late(mn, e.no, m.s, m.trace);
            && Run(mn, NoPart(p, rest), m) == Run(mn, rest, m')
            && m'.s == v.s && m'.trace == v.trace && p.out in m'.temps && m'.temps[p.out] == v.v
            && SameOutside(m, m', p.out, p.yes.temps)
    decreases e.no, 3
  {
    hide Flatten, FlattenAll, LateAll, Last, YesPart, Ahead;
    var p := PiecesOf(e, temps, labels);
    var tail := [Goto(p.l2), Label(p.l1)] + YesPart(p, rest);
    m' := ArmCorrect(mn, e.no, p.out + 1, p.fs.labels, p.out, m, tail);
    JumpEnd(e, temps, labels, rest);
    assert tail[1..] == [Label(p.l1)] + YesPart(p, rest);
    LastRun(mn, p, m', rest);
  }

  /** One arm: its value ends in the common result. */
  lemma {:induction false} ArmCorrect(
    mn: Meaning, e: Expr, temps: nat, labels: nat, out: nat, m: Machine, tail: seq<Instr>) returns (m': Machine)
    requires Plain(e) && out < temps
    ensures var f, v := Flatten(e, temps, labels), Late(mn, e, m.s, m.trace);
            && Run(mn, Arm(f, out, tail), m) == Run(mn, tail, m')
            && m'.s == v.s && m'.trace == v.trace && out in m'.temps && m'.temps[out] == v.v
            && forall k: nat :: k != out && !(temps <= k < f.temps) ==>
                 (k in m.temps <==> k in m'.temps) && (k in m.temps ==> m.temps[k] == m'.temps[k])
    decreases e, 2
  {
    var f := Flatten(e, temps, labels);
    var m1 := FlattenCorrect(mn, e, temps, labels, m, [Copy(out, f.arg)] + tail);
    m' := m1.(temps := m1.temps[out := ArgValue(mn, f.arg, m1)]);
    assert ([Copy(out, f.arg)] + tail)[1..] == tail;
  }

  // ------------------------------------------------------------ statements

  /** A whole statement: the code of its arguments, then the statement on what
      stands for them, is the statement on the values of the trees, variables read
      last. */
  lemma StatementCorrect(mn: Meaning, args: Exprs, temps: nat, labels: nat, m: Machine) returns (m': Machine)
    requires AllPlain(args)
    ensures var f, v := FlattenAll(args, temps, labels), Settled(mn, LateAll(mn, args, m.s, m.trace));
            && m' == Run(mn, f.code, m)
            && AllValued(ArgValues(mn, f.args, m'), m'.s, m'.trace) == v
            && SameOutside(m, m', temps, f.temps)
  {
    var f := FlattenAll(args, temps, labels);
    m' := AllCorrect(mn, args, temps, labels, m, []);
    assert f.code + [] == f.code;
  }
}
