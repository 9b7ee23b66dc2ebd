/**
 When reading variables late does not show.  The code of an expression reads a
 variable behind the calls to its right; the values are those of reading from left to
 right, for all calls that write no more than they may, exactly when no call may write
 a variable that stands to its left in the same argument list.
 */
module ExpressionOrder {
  import opened Basics
  import opened Resolved
  import opened ExpressionFlattening

  /** The variables that an operation may write. */
  type Effects = string -> set<string>

  function Writes(w: Effects, e: Expr): set<string>
    decreases e
  {
    match e
    case Leaf(_) => {}
    case Apply(op, args) => w(op) + WritesAll(w, args)
    case Cond(op, args, yes, no) => w(op) + WritesAll(w, args) + Writes(w, yes) + Writes(w, no)
  }

  function WritesAll(w: Effects, es: Exprs): set<string>
    decreases es
  {
    match es
    case NoExprs => {}
    case More(e, rest) => Writes(w, e) + WritesAll(w, rest)
  }

  /** No call may write a variable to the left of it in an argument list. */
  predicate Quiet(w: Effects, e: Expr)
    decreases e
  {
    match e
    case Leaf(_) => true
    case Apply(_, args) => QuietAll(w, args)
    case Cond(_, args, yes, no) => QuietAll(w, args) && Quiet(w, yes) && Quiet(w, no)
  }

  predicate QuietAll(w: Effects, es: Exprs)
    decreases es
  {
    match es
    case NoExprs => true
    case More(e, rest) => Quiet(w, e) && QuietAll(w, rest) && !Overwritten(w, e, rest)
  }

  predicate Overwritten(w: Effects, e: Expr, rest: Exprs) {
    e.Leaf? && e.arg.Variable? && e.arg.name in WritesAll(w, rest)
  }

  ghost predicate Respects(mn: Meaning, w: Effects) {
    forall op, vs, s, trace, x ::
      x !in w(op) ==> Get(mn.effect(op, vs, s, trace), x) == Get(s, x)
  }

  // --------------------------------------------------- it does not show then

  lemma {:induction false} Frame(mn: Meaning, w: Effects, e: Expr, s: Store, trace: Trace, x: string)
    requires Respects(mn, w) && x !in Writes(w, e)
    ensures Get(Late(mn, e, s, trace).s, x) == Get(s, x)
    decreases e
  {
    match e
    case Leaf(_) =>
    case Apply(_, args) => FrameAll(mn, w, args, s, trace, x);
    case Cond(op, args, yes, no) =>
      FrameAll(mn, w, args, s, trace, x);
      var t := Called(mn, op, Settled(mn, LateAll(mn, args, s, trace)));
      Frame(mn, w, yes, t.s, t.trace, x);
      Frame(mn, w, no, t.s, t.trace, x);
  }

  lemma {:induction false} FrameAll(mn: Meaning, w: Effects, es: Exprs, s: Store, trace: Trace, x: string)
    requires Respects(mn, w) && x !in WritesAll(w, es)
    ensures Get(LateAll(mn, es, s, trace).s, x) == Get(s, x)
    decreases es
  {
    match es
    case NoExprs =>
    case More(e, rest) =>
      Frame(mn, w, e, s, trace, x);
      var first := Late(mn, e, s, trace);
      FrameAll(mn, w, rest, first.s, first.trace, x);
  }

  lemma {:induction false} Agree(mn: Meaning, w: Effects, e: Expr, s: Store, trace: Trace)
    requires Respects(mn, w) && Quiet(w, e)
    ensures Late(mn, e, s, trace) == InOrder(mn, e, s, trace)
    decreases e
  {
    match e
    case Leaf(_) =>
    case Apply(_, args) => AgreeAll(mn, w, args, s, trace);
    case Cond(op, args, yes, no) =>
      AgreeAll(mn, w, args, s, trace);
      var t := Called(mn, op, InOrderAll(mn, args, s, trace));
      Agree(mn, w, yes, t.s, t.trace);
      Agree(mn, w, no, t.s, t.trace);
  }

  lemma {:induction false} AgreeAll(mn: Meaning, w: Effects, es: Exprs, s: Store, trace: Trace)
    requires Respects(mn, w) && QuietAll(w, es)
    ensures Settled(mn, LateAll(mn, es, s, trace)) == InOrderAll(mn, es, s, trace)
    decreases es
  {
    match es
    case NoExprs =>
    case More(e, rest) =>
      Agree(mn, w, e, s, trace);
      var first := InOrder(mn, e, s, trace);
      AgreeAll(mn, w, rest, first.s, first.trace);
      HeldTail(mn, e, rest, s, trace);
      if e.Leaf? && e.arg.Variable? {
        FrameAll(mn, w, rest, s, trace, e.arg.name);
      }
  }

  // ------------------------------------------------------ otherwise it does

  function Stamped(s: Store, xs: set<string>, n: nat): (r: Store)
    ensures forall x :: Get(r, x) == if x in xs then Val(n) else Get(s, x)
  {
    s + (map x | x in xs :: Val(n))
  }

  /** Each call writes its number to all it may write, and yields what a script says. */
  function Stamping(w: Effects, script: nat -> bool): Meaning {
    Meaning(
      text => ZERO, (op, vs, s, trace: Trace) => if script(|trace|) then Val(1) else ZERO,
      (op, vs, s, trace: Trace) => Stamped(s, w(op), |trace| + 1), v => v != ZERO)
  }

  lemma StampingRespects(w: Effects, script: nat -> bool)
    ensures Respects(Stamping(w, script), w)
  {}

  lemma StampCall(w: Effects, script: nat -> bool, op: string, args: AllValued)
    ensures var t := Called(Stamping(w, script), op, args);
            && t.trace == args.trace + [Call(op, args.vs)] && t.s == Stamped(args.s, w(op), |args.trace| + 1)
            && Stamping(w, script).truth(t.v) == script(|args.trace|)
  {}

  ghost predicate SameBelow(f: nat -> bool, g: nat -> bool, n: nat) {
    forall k: nat :: k < n ==> f(k) == g(k)
  }

  ghost predicate Bounded(s: Store, n: nat) {
    forall x :: Get(s, x).bits <= n
  }

  lemma {:induction false} Grows(mn: Meaning, e: Expr, s: Store, trace: Trace)
    ensures trace <= InOrder(mn, e, s, trace).trace && trace <= Late(mn, e, s, trace).trace
    decreases e
  {
    match e
    case Leaf(_) =>
    case Apply(_, args) => GrowsAll(mn, args, s, trace);
    case Cond(op, args, yes, no) =>
      GrowsAll(mn, args, s, trace);
      var t, l := Called(mn, op, InOrderAll(mn, args, s, trace)),
          Called(mn, op, Settled(mn, LateAll(mn, args, s, trace)));
      Grows(mn, yes, t.s, t.trace);
      Grows(mn, no, t.s, t.trace);
      Grows(mn, yes, l.s, l.trace);
      Grows(mn, no, l.s, l.trace);
  }

  lemma {:induction false} GrowsAll(mn: Meaning, es: Exprs, s: Store, trace: Trace)
    ensures trace <= InOrderAll(mn, es, s, trace).trace && trace <= LateAll(mn, es, s, trace).trace
    decreases es
  {
    match es
    case NoExprs =>
    case More(e, rest) =>
      Grows(mn, e, s, trace);
      var t, l := InOrder(mn, e, s, trace), Late(mn, e, s, trace);
      GrowsAll(mn, rest, t.s, t.trace);
      GrowsAll(mn, rest, l.s, l.trace);
  }

  /** The script alone decides which calls are made. */
  lemma {:induction false} SameSteps(
    w: Effects, f: nat -> bool, e: Expr, s: Store, trace: Trace, s': Store, trace': Trace)
    requires |trace| == |trace'|
    ensures |InOrder(Stamping(w, f), e, s, trace).trace| == |Late(Stamping(w, f), e, s', trace').trace|
    decreases e
  {
    hide Stamping, Called;
    var mn := Stamping(w, f);
    match e
    case Leaf(_) =>
    case Apply(op, args) =>
      SameStepsAll(w, f, args, s, trace, s', trace');
      StampCall(w, f, op, InOrderAll(mn, args, s, trace));
      StampCall(w, f, op, Settled(mn, LateAll(mn, args, s', trace')));
    case Cond(op, args, yes, no) =>
      SameStepsAll(w, f, args, s, trace, s', trace');
      StampCall(w, f, op, InOrderAll(mn, args, s, trace));
      StampCall(w, f, op, Settled(mn, LateAll(mn, args, s', trace')));
      var t := Called(mn, op, InOrderAll(mn, args, s, trace));
      var l := Called(mn, op, Settled(mn, LateAll(mn, args, s', trace')));
      SameSteps(w, f, yes, t.s, t.trace, l.s, l.trace);
      SameSteps(w, f, no, t.s, t.trace, l.s, l.trace);
  }

  lemma {:induction false} SameStepsAll(
    w: Effects, f: nat -> bool, es: Exprs, s: Store, trace: Trace, s': Store, trace': Trace)
    requires |trace| == |trace'|
    ensures |InOrderAll(Stamping(w, f), es, s, trace).trace| == |LateAll(Stamping(w, f), es, s', trace').trace|
    decreases es
  {
    hide Stamping;
    match es
    case NoExprs =>
    case More(e, rest) =>
      SameSteps(w, f, e, s, trace, s', trace');
      var t, l := InOrder(Stamping(w, f), e, s, trace), Late(Stamping(w, f), e, s', trace');
      SameStepsAll(w, f, rest, t.s, t.trace, l.s, l.trace);
  }

  /** A variable keeps what it holds or gets the number of a later call. */
  lemma {:induction false} Stays(w: Effects, f: nat -> bool, e: Expr, s: Store, trace: Trace, x: string)
    ensures var r := InOrder(Stamping(w, f), e, s, trace);
            Get(r.s, x) == Get(s, x) || |trace| < Get(r.s, x).bits <= |r.trace|
    decreases e
  {
    hide Stamping, Called;
    var mn := Stamping(w, f);
    Grows(mn, e, s, trace);
    match e
    case Leaf(_) =>
    case Apply(op, args) =>
      StaysAll(w, f, args, s, trace, x);
      GrowsAll(mn, args, s, trace);
      StampCall(w, f, op, InOrderAll(mn, args, s, trace));
    case Cond(op, args, yes, no) =>
      StaysAll(w, f, args, s, trace, x);
      GrowsAll(mn, args, s, trace);
      StampCall(w, f, op, InOrderAll(mn, args, s, trace));
      var t := Called(mn, op, InOrderAll(mn, args, s, trace));
      Stays(w, f, yes, t.s, t.trace, x);
      Stays(w, f, no, t.s, t.trace, x);
      Grows(mn, yes, t.s, t.trace);
      Grows(mn, no, t.s, t.trace);
  }

  lemma {:induction false} StaysAll(w: Effects, f: nat -> bool, es: Exprs, s: Store, trace: Trace, x: string)
    ensures var r := InOrderAll(Stamping(w, f), es, s, trace);
            Get(r.s, x) == Get(s, x) || |trace| < Get(r.s, x).bits <= |r.trace|
    decreases es
  {
    hide Stamping;
    match es
    case NoExprs =>
    case More(e, rest) =>
      var t := InOrder(Stamping(w, f), e, s, trace);
      Stays(w, f, e, s, trace, x);
      Grows(Stamping(w, f), e, s, trace);
      StaysAll(w, f, rest, t.s, t.trace, x);
      GrowsAll(Stamping(w, f), rest, t.s, t.trace);
  }

  lemma StaysBounded(w: Effects, f: nat -> bool, e: Expr, s: Store, trace: Trace)
    requires Bounded(s, |trace|)
    ensures var r := InOrder(Stamping(w, f), e, s, trace); Bounded(r.s, |r.trace|)
  {
    Grows(Stamping(w, f), e, s, trace);
    var r := InOrder(Stamping(w, f), e, s, trace);
    forall x ensures Get(r.s, x).bits <= |r.trace| {
      Stays(w, f, e, s, trace, x);
    }
  }

  lemma StaysBoundedAll(w: Effects, f: nat -> bool, es: Exprs, s: Store, trace: Trace)
    requires Bounded(s, |trace|)
    ensures var r := InOrderAll(Stamping(w, f), es, s, trace); Bounded(r.s, |r.trace|)
  {
    GrowsAll(Stamping(w, f), es, s, trace);
    var r := InOrderAll(Stamping(w, f), es, s, trace);
    forall x ensures Get(r.s, x).bits <= |r.trace| {
      StaysAll(w, f, es, s, trace, x);
    }
  }

  /** Only the part of the script that is used matters. */
  lemma {:induction false} SameScript(w: Effects, f: nat -> bool, g: nat -> bool, e: Expr, s: Store, trace: Trace)
    requires SameBelow(f, g, |InOrder(Stamping(w, f), e, s, trace).trace|)
    ensures InOrder(Stamping(w, f), e, s, trace) == InOrder(Stamping(w, g), e, s, trace)
    decreases e
  {
    var mn := Stamping(w, f);
    match e
    case Leaf(_) =>
    case Apply(op, args) =>
      SameScriptAll(w, f, g, args, s, trace);
    case Cond(op, args, yes, no) =>
      var t := Called(mn, op, InOrderAll(mn, args, s, trace));
      Grows(mn, yes, t.s, t.trace);
      Grows(mn, no, t.s, t.trace);
      SameScriptAll(w, f, g, args, s, trace);
      if mn.truth(t.v) {
        SameScript(w, f, g, yes, t.s, t.trace);
      } else {
        SameScript(w, f, g, no, t.s, t.trace);
      }
  }

  lemma {:induction false} SameScriptAll(w: Effects, f: nat -> bool, g: nat -> bool, es: Exprs, s: Store, trace: Trace)
    requires SameBelow(f, g, |InOrderAll(Stamping(w, f), es, s, trace).trace|)
    ensures InOrderAll(Stamping(w, f), es, s, trace) == InOrderAll(Stamping(w, g), es, s, trace)
    decreases es
  {
    hide Stamping;
    match es
    case NoExprs =>
    case More(e, rest) =>
      var t := InOrder(Stamping(w, f), e, s, trace);
      GrowsAll(Stamping(w, f), rest, t.s, t.trace);
      SameScript(w, f, g, e, s, trace);
      SameScriptAll(w, f, g, rest, t.s, t.trace);
  }

  function With(f: nat -> bool, n: nat, b: bool): nat -> bool {
    (k: nat) => if k == n then b else f(k)
  }

  /** The test of a conditional expression, made to come out this way. */
  lemma Steered(
    w: Effects, f: nat -> bool, e: Expr, s: Store, trace: Trace, b: bool) returns (f1: nat -> bool, t: Valued)
    requires e.Cond?
    ensures var mn := Stamping(w, f1);
            && SameBelow(f, f1, |InOrderAll(mn, e.args, s, trace).trace|) && |trace| < |t.trace|
            && t == Called(mn, e.op, InOrderAll(mn, e.args, s, trace)) && t.trace != []
            && |t.trace| == |InOrderAll(mn, e.args, s, trace).trace| + 1 && f1(|t.trace| - 1) == b
  {
    var n := |InOrderAll(Stamping(w, f), e.args, s, trace).trace|;
    f1 := With(f, n, b);
    SameScriptAll(w, f, f1, e.args, s, trace);
    GrowsAll(Stamping(w, f1), e.args, s, trace);
    t := Called(Stamping(w, f1), e.op, InOrderAll(Stamping(w, f1), e.args, s, trace));
    StampCall(w, f1, e.op, InOrderAll(Stamping(w, f1), e.args, s, trace));
  }

  /** The arm is evaluated from there under any script that agrees so far. */
  lemma ArmOf(w: Effects, f1: nat -> bool, g: nat -> bool, e: Expr, s: Store, trace: Trace, t: Valued)
    requires e.Cond? && t == Called(Stamping(w, f1), e.op, InOrderAll(Stamping(w, f1), e.args, s, trace))
    requires SameBelow(f1, g, |t.trace|)
    ensures InOrderAll(Stamping(w, g), e.args, s, trace) == InOrderAll(Stamping(w, f1), e.args, s, trace)
    ensures InOrder(Stamping(w, g), e, s, trace) ==
            InOrder(Stamping(w, g), if f1(|t.trace| - 1) then e.yes else e.no, t.s, t.trace)
  {
    var r := InOrderAll(Stamping(w, f1), e.args, s, trace);
    StampCall(w, f1, e.op, r);
    StampCall(w, g, e.op, r);
    SameScriptAll(w, f1, g, e.args, s, trace);
  }

  /** Some script has a call made that may write x. */
  lemma {:induction false} Reach(w: Effects, e: Expr, x: string, f: nat -> bool, s: Store, trace: Trace)
    returns (g: nat -> bool)
    requires x in Writes(w, e)
    ensures SameBelow(f, g, |trace|) && Get(InOrder(Stamping(w, g), e, s, trace).s, x).bits > |trace|
    decreases e, 0
  {
    hide Stamping, Called, Writes, WritesAll;
    g := f;
    match e
    case Leaf(_) => WritesOf(w, e);
    case Apply(op, args) =>
      WritesOf(w, e);
      if x !in w(op) {
        g := ReachAll(w, args, x, f, s, trace);
      }
      GrowsAll(Stamping(w, g), args, s, trace);
      StampCall(w, g, op, InOrderAll(Stamping(w, g), args, s, trace));
    case Cond(op, args, yes, no) =>
      WritesOf(w, e);
      if x in w(op) || x in WritesAll(w, args) {
        if x !in w(op) {
          g := ReachAll(w, args, x, f, s, trace);
        }
        WrittenByTest(w, g, e, x, s, trace);
      } else {
        g := ReachArm(w, e, if x in Writes(w, yes) then yes else no, x, f, s, trace, x in Writes(w, yes));
      }
  }

  lemma WritesOf(w: Effects, e: Expr)
    ensures match e {
              case Leaf(_) => Writes(w, e) == {}
              case Apply(op, args) => Writes(w, e) == w(op) + WritesAll(w, args)
              case Cond(op, args, yes, no) => Writes(w, e) ==
                  w(op) + WritesAll(w, args) + Writes(w, yes) + Writes(w, no)
            }
  {}

  lemma WrittenByTest(w: Effects, g: nat -> bool, e: Expr, x: string, s: Store, trace: Trace)
    requires e.Cond?
    requires x in w(e.op) || Get(InOrderAll(Stamping(w, g), e.args, s, trace).s, x).bits > |trace|
    ensures Get(InOrder(Stamping(w, g), e, s, trace).s, x).bits > |trace|
  {
    hide Stamping, Called, InOrderAll;
    var mn := Stamping(w, g);
    var r := InOrderAll(mn, e.args, s, trace);
    GrowsAll(mn, e.args, s, trace);
    StampCall(w, g, e.op, r);
    var t := Called(mn, e.op, r);
    Stays(w, g, e.yes, t.s, t.trace, x);
    Stays(w, g, e.no, t.s, t.trace, x);
  }

  lemma {:induction false} ReachArm(
    w: Effects, e: Expr, arm: Expr, x: string, f: nat -> bool, s: Store, trace: Trace, b: bool) returns (g: nat -> bool)
    requires e.Cond? && arm == (if b then e.yes else e.no) && x in Writes(w, arm)
    ensures SameBelow(f, g, |trace|) && Get(InOrder(Stamping(w, g), e, s, trace).s, x).bits > |trace|
    decreases arm, 1
  {
    hide Stamping, Called, InOrder, InOrderAll, Writes;
    var f1, t := Steered(w, f, e, s, trace, b);
    GrowsAll(Stamping(w, f1), e.args, s, trace);
    g := Reach(w, arm, x, f1, t.s, t.trace);
    ArmOf(w, f1, g, e, s, trace, t);
  }

  lemma {:induction false} ReachAll(w: Effects, es: Exprs, x: string, f: nat -> bool, s: Store, trace: Trace)
    returns (g: nat -> bool)
    requires x in WritesAll(w, es)
    ensures SameBelow(f, g, |trace|) && Get(InOrderAll(Stamping(w, g), es, s, trace).s, x).bits > |trace|
    decreases es, 0
  {
    hide Stamping, InOrder;
    match es
    case NoExprs => g := f;
    case More(e, rest) =>
      if x in Writes(w, e) {
        g := Reach(w, e, x, f, s, trace);
        var t := InOrder(Stamping(w, g), e, s, trace);
        Grows(Stamping(w, g), e, s, trace);
        StaysAll(w, g, rest, t.s, t.trace, x);
      } else {
        var t := InOrder(Stamping(w, f), e, s, trace);
        Grows(Stamping(w, f), e, s, trace);
        g := ReachAll(w, rest, x, f, t.s, t.trace);
        SameScript(w, f, g, e, s, trace);
      }
  }

  // -------------------------------------------------------- a clash shows

  /** The calls differ, in their number or in an argument. */
  ghost predicate TreeDiffers(w: Effects, g: nat -> bool, e: Expr, s: Store, trace: Trace) {
    Late(Stamping(w, g), e, s, trace).trace != InOrder(Stamping(w, g), e, s, trace).trace
  }

  ghost predicate ListDiffers(w: Effects, g: nat -> bool, es: Exprs, s: Store, trace: Trace) {
    var h, r := Settled(Stamping(w, g), LateAll(Stamping(w, g), es, s, trace)),
        InOrderAll(Stamping(w, g), es, s, trace);
    h.vs != r.vs || h.trace != r.trace
  }

  /** Equally many calls before, and different ones, leave different ones behind. */
  lemma DifferOn(w: Effects, g: nat -> bool, e: Expr, s: Store, trace: Trace, s': Store, trace': Trace)
    requires |trace| == |trace'| && trace != trace'
    ensures InOrder(Stamping(w, g), e, s, trace).trace != Late(Stamping(w, g), e, s', trace').trace
  {
    hide Stamping, InOrder, Late;
    Grows(Stamping(w, g), e, s, trace);
    Grows(Stamping(w, g), e, s', trace');
    var a, b := InOrder(Stamping(w, g), e, s, trace).trace, Late(Stamping(w, g), e, s', trace').trace;
    assert a[..|trace|] == trace && b[..|trace|] == trace';
  }

  lemma DifferOnAll(w: Effects, g: nat -> bool, es: Exprs, s: Store, trace: Trace, s': Store, trace': Trace)
    requires |trace| == |trace'| && trace != trace'
    ensures InOrderAll(Stamping(w, g), es, s, trace).trace != LateAll(Stamping(w, g), es, s', trace').trace
  {
    hide Stamping, InOrderAll, LateAll;
    GrowsAll(Stamping(w, g), es, s, trace);
    GrowsAll(Stamping(w, g), es, s', trace');
    var a, b := InOrderAll(Stamping(w, g), es, s, trace).trace, LateAll(Stamping(w, g), es, s', trace').trace;
    assert a[..|trace|] == trace && b[..|trace|] == trace';
  }

  /** A call on arguments that differ. */
  lemma CallDiffers(w: Effects, g: nat -> bool, op: string, a: AllValued, b: AllValued)
    requires |a.trace| == |b.trace| && (a.vs != b.vs || a.trace != b.trace)
    ensures var t, l := Called(Stamping(w, g), op, a), Called(Stamping(w, g), op, b);
            |t.trace| == |l.trace| && t.trace != l.trace
            && Stamping(w, g).truth(t.v) == Stamping(w, g).truth(l.v)
  {
    hide Stamping, Called;
    StampCall(w, g, op, a);
    StampCall(w, g, op, b);
    var x, y := a.trace + [Call(op, a.vs)], b.trace + [Call(op, b.vs)];
    assert x[..|a.trace|] == a.trace && y[..|a.trace|] == b.trace && x[|a.trace|] == Call(op, a.vs);
  }

  lemma {:induction false} Clash(w: Effects, e: Expr, f: nat -> bool, s: Store, trace: Trace) returns (g: nat -> bool)
    requires !Quiet(w, e) && Bounded(s, |trace|)
    ensures SameBelow(f, g, |trace|) && TreeDiffers(w, g, e, s, trace)
    decreases e, 0
  {
    hide Stamping, Called, ListDiffers, TreeDiffers, Bounded;
    g := f;
    match e
    case Leaf(_) =>
    case Apply(op, args) =>
      g := ClashAll(w, args, f, s, trace);
      ApplyDiffers(w, g, e, s, trace);
    case Cond(op, args, yes, no) =>
      if !QuietAll(w, args) {
        g := ClashAll(w, args, f, s, trace);
        TestDiffers(w, g, e, s, trace);
      } else {
        g := ClashArm(w, e, if Quiet(w, yes) then no else yes, f, s, trace, !Quiet(w, yes));
      }
  }

  lemma ApplyDiffers(w: Effects, g: nat -> bool, e: Expr, s: Store, trace: Trace)
    requires e.Apply? && ListDiffers(w, g, e.args, s, trace)
    ensures TreeDiffers(w, g, e, s, trace)
  {
    hide Stamping, Called, InOrderAll, LateAll;
    var mn := Stamping(w, g);
    SameStepsAll(w, g, e.args, s, trace, s, trace);
    CallDiffers(w, g, e.op, InOrderAll(mn, e.args, s, trace), Settled(mn, LateAll(mn, e.args, s, trace)));
  }

  lemma TestDiffers(w: Effects, g: nat -> bool, e: Expr, s: Store, trace: Trace)
    requires e.Cond? && ListDiffers(w, g, e.args, s, trace)
    ensures TreeDiffers(w, g, e, s, trace)
  {
    hide Stamping, Called, InOrderAll, LateAll;
    var mn := Stamping(w, g);
    SameStepsAll(w, g, e.args, s, trace, s, trace);
    var a, b := InOrderAll(mn, e.args, s, trace), Settled(mn, LateAll(mn, e.args, s, trace));
    CallDiffers(w, g, e.op, a, b);
    var t, l := Called(mn, e.op, a), Called(mn, e.op, b);
    DifferOn(w, g, e.yes, t.s, t.trace, l.s, l.trace);
    DifferOn(w, g, e.no, t.s, t.trace, l.s, l.trace);
  }

  lemma {:induction false} ClashArm(
    w: Effects, e: Expr, arm: Expr, f: nat -> bool, s: Store, trace: Trace, b: bool) returns (g: nat -> bool)
    requires e.Cond? && arm == (if b then e.yes else e.no) && !Quiet(w, arm) && QuietAll(w, e.args)
    requires Bounded(s, |trace|)
    ensures SameBelow(f, g, |trace|) && TreeDiffers(w, g, e, s, trace)
    decreases arm, 1
  {
    hide Stamping, Called, InOrder, InOrderAll, Late, LateAll, Quiet, QuietAll, TreeDiffers, Bounded;
    var f1, t := Steered(w, f, e, s, trace, b);
    GrowsAll(Stamping(w, f1), e.args, s, trace);
    AfterTest(w, f1, e, s, trace, t);
    g := Clash(w, arm, f1, t.s, t.trace);
    ArmOf(w, f1, g, e, s, trace, t);
    LateArm(w, f1, g, e, s, trace, t);
    ArmDiffers(w, g, e, arm, s, trace, t);
  }

  lemma ArmDiffers(w: Effects, g: nat -> bool, e: Expr, arm: Expr, s: Store, trace: Trace, t: Valued)
    requires TreeDiffers(w, g, arm, t.s, t.trace)
    requires InOrder(Stamping(w, g), e, s, trace) == InOrder(Stamping(w, g), arm, t.s, t.trace)
    requires Late(Stamping(w, g), e, s, trace) == Late(Stamping(w, g), arm, t.s, t.trace)
    ensures TreeDiffers(w, g, e, s, trace)
  {}

  lemma AfterTest(w: Effects, f: nat -> bool, e: Expr, s: Store, trace: Trace, t: Valued)
    requires e.Cond? && t == Called(Stamping(w, f), e.op, InOrderAll(Stamping(w, f), e.args, s, trace))
    requires Bounded(s, |trace|)
    ensures Bounded(t.s, |t.trace|)
  {
    hide Stamping, Called, InOrderAll;
    StaysBoundedAll(w, f, e.args, s, trace);
    StampCall(w, f, e.op, InOrderAll(Stamping(w, f), e.args, s, trace));
  }

  lemma LateArm(w: Effects, f1: nat -> bool, g: nat -> bool, e: Expr, s: Store, trace: Trace, t: Valued)
    requires e.Cond? && t == Called(Stamping(w, f1), e.op, InOrderAll(Stamping(w, f1), e.args, s, trace))
    requires SameBelow(f1, g, |t.trace|) && QuietAll(w, e.args)
    ensures Late(Stamping(w, g), e, s, trace) ==
            Late(Stamping(w, g), if f1(|t.trace| - 1) then e.yes else e.no, t.s, t.trace)
  {
    var r := InOrderAll(Stamping(w, f1), e.args, s, trace);
    StampCall(w, f1, e.op, r);
    StampCall(w, g, e.op, r);
    SameScriptAll(w, f1, g, e.args, s, trace);
    StampingRespects(w, g);
    AgreeAll(Stamping(w, g), w, e.args, s, trace);
  }

  lemma {:induction false} ClashAll(w: Effects, es: Exprs, f: nat -> bool, s: Store, trace: Trace)
    returns (g: nat -> bool)
    requires !QuietAll(w, es) && Bounded(s, |trace|)
    ensures SameBelow(f, g, |trace|) && ListDiffers(w, g, es, s, trace)
    decreases es, 0
  {
    hide Stamping, InOrder, InOrderAll, Late, LateAll, TreeDiffers, ListDiffers, Bounded, Quiet;
    g := f;
    match es
    case NoExprs =>
    case More(e, rest) =>
      if !Quiet(w, e) {
        g := Clash(w, e, f, s, trace);
        FirstDiffers(w, g, e, rest, s, trace);
      } else if !QuietAll(w, rest) {
        var t := InOrder(Stamping(w, f), e, s, trace);
        Grows(Stamping(w, f), e, s, trace);
        StaysBounded(w, f, e, s, trace);
        g := ClashAll(w, rest, f, t.s, t.trace);
        SameScript(w, f, g, e, s, trace);
        RestDiffers(w, g, e, rest, s, trace);
      } else {
        g := ReachAll(w, rest, e.arg.name, f, s, trace);
        LeafDiffers(w, g, e, rest, s, trace);
      }
  }

  lemma FirstDiffers(w: Effects, g: nat -> bool, e: Expr, rest: Exprs, s: Store, trace: Trace)
    requires TreeDiffers(w, g, e, s, trace)
    ensures ListDiffers(w, g, More(e, rest), s, trace)
  {
    hide Stamping, InOrder, Late;
    var t, l := InOrder(Stamping(w, g), e, s, trace), Late(Stamping(w, g), e, s, trace);
    SameSteps(w, g, e, s, trace, s, trace);
    DifferOnAll(w, g, rest, t.s, t.trace, l.s, l.trace);
  }

  lemma RestDiffers(w: Effects, g: nat -> bool, e: Expr, rest: Exprs, s: Store, trace: Trace)
    requires Quiet(w, e)
    requires var t := InOrder(Stamping(w, g), e, s, trace); ListDiffers(w, g, rest, t.s, t.trace)
    ensures ListDiffers(w, g, More(e, rest), s, trace)
  {
    hide Stamping, InOrder, Late;
    var mn := Stamping(w, g);
    StampingRespects(w, g);
    Agree(mn, w, e, s, trace);
    HeldTail(mn, e, rest, s, trace);
    var t := InOrder(mn, e, s, trace);
    var h, r := LateAll(mn, More(e, rest), s, trace), InOrderAll(mn, More(e, rest), s, trace);
    assert ReadNow(mn, h.held, h.s)[1..] == ReadNow(mn, h.held[1..], h.s);
    assert r.vs[1..] == InOrderAll(mn, rest, t.s, t.trace).vs;
  }

  /** The variable is read before it is written, and behind that. */
  lemma LeafDiffers(w: Effects, g: nat -> bool, e: Expr, rest: Exprs, s: Store, trace: Trace)
    requires e.Leaf? && e.arg.Variable? && QuietAll(w, rest) && Bounded(s, |trace|)
    requires Get(InOrderAll(Stamping(w, g), rest, s, trace).s, e.arg.name).bits > |trace|
    ensures ListDiffers(w, g, More(e, rest), s, trace)
  {
    hide Stamping, QuietAll;
    var mn := Stamping(w, g);
    StampingRespects(w, g);
    AgreeAll(mn, w, rest, s, trace);
    HeldTail(mn, e, rest, s, trace);
    assert InOrder(mn, e, s, trace) == Valued(Get(s, e.arg.name), s, trace);
    var h, r := LateAll(mn, More(e, rest), s, trace), InOrderAll(mn, More(e, rest), s, trace);
    assert ReadNow(mn, h.held, h.s)[0] == Get(h.s, e.arg.name) && r.vs[0] == Get(s, e.arg.name);
  }

  // ------------------------------------------------------------ statements

  /** The code ahead of a statement leaves it the values, variables and calls of reading
      its arguments from left to right. */
  ghost predicate LeftToRight(mn: Meaning, args: Exprs, temps: nat, labels: nat, m: Machine) {
    var f := FlattenAll(args, temps, labels);
    var m' := Run(mn, f.code, m);
    AllValued(ArgValues(mn, f.args, m'), m'.s, m'.trace) == InOrderAll(mn, args, m.s, m.trace)
  }

  /** That is so for all calls that write no more than they may, if and only if no call
      may write a variable to the left of it. */
  lemma LeftToRightExactly(w: Effects, args: Exprs, temps: nat, labels: nat)
    requires AllPlain(args)
    ensures QuietAll(w, args) <==> forall mn, m :: Respects(mn, w) ==> LeftToRight(mn, args, temps, labels, m)
  {
    hide Flatten, FlattenAll, Run, LateAll, InOrderAll, Stamping, Respects, Plain, AllPlain, QuietAll;
    if QuietAll(w, args) {
      forall mn, m | Respects(mn, w) ensures LeftToRight(mn, args, temps, labels, m) {
        var m' := StatementCorrect(mn, args, temps, labels, m);
        AgreeAll(mn, w, args, m.s, m.trace);
      }
    } else {
      var m := Machine(map[], map[], []);
      assert Bounded(m.s, |m.trace|);
      var g := ClashAll(w, args, k => false, m.s, m.trace);
      StampingRespects(w, g);
      var m' := StatementCorrect(Stamping(w, g), args, temps, labels, m);
      assert !LeftToRight(Stamping(w, g), args, temps, labels, m);
    }
  }

  /** gk + f() with f writing gk: the sum is taken of the new value of gk. */
  lemma GlobalReadLate(w: Effects, mn: Meaning, s: Store, trace: Trace)
    ensures var call := Apply("f", NoExprs);
            var e := Apply("+", More(Leaf(Variable("gk")), More(call, NoExprs)));
            var r := Called(mn, "f", AllValued([], s, trace));
            && Late(mn, e, s, trace) == Called(mn, "+", AllValued([Get(r.s, "gk"), r.v], r.s, r.trace))
            && InOrder(mn, e, s, trace) == Called(mn, "+", AllValued([Get(s, "gk"), r.v], r.s, r.trace))
            && (Quiet(w, e) <==> "gk" !in w("f"))
  {
    hide Called;
    var call, gk := Apply("f", NoExprs), Leaf(Variable("gk"));
    var r := Called(mn, "f", AllValued([], s, trace));
    assert Late(mn, call, s, trace) == InOrder(mn, call, s, trace) == r;
    assert Late(mn, gk, s, trace) == InOrder(mn, gk, s, trace) == Valued(Get(s, "gk"), s, trace);
    PairHeld(mn, gk, call, s, trace);
    assert WritesAll(w, More(call, NoExprs)) == w("f");
    assert Quiet(w, call) && Quiet(w, gk) && QuietAll(w, More(call, NoExprs));
  }

  lemma PairHeld(mn: Meaning, a: Expr, b: Expr, s: Store, trace: Trace)
    requires a.Leaf? && !b.Leaf?
    ensures var args, l := More(a, More(b, NoExprs)), Late(mn, b, s, trace);
            && Settled(mn, LateAll(mn, args, s, trace)) == AllValued([LeafValue(mn, a.arg, l.s), l.v], l.s, l.trace)
    ensures var args, r := More(a, More(b, NoExprs)), InOrder(mn, b, s, trace);
            && InOrderAll(mn, args, s, trace) == AllValued([LeafValue(mn, a.arg, s), r.v], r.s, r.trace)
  {
    var l := Late(mn, b, s, trace);
    assert Late(mn, a, s, trace) == Valued(LeafValue(mn, a.arg, s), s, trace);
    assert LateAll(mn, NoExprs, l.s, l.trace) == AllHeld([], l.s, l.trace);
    HeldTail(mn, b, NoExprs, s, trace);
    HeldTail(mn, a, More(b, NoExprs), s, trace);
    var held := LateAll(mn, More(a, More(b, NoExprs)), s, trace).held;
    assert held == [Later(a.arg), Ready(l.v)] && held[1..] == [Ready(l.v)] && [Ready(l.v)][1..] == [];
    assert ReadNow(mn, [Ready(l.v)], l.s) == [l.v];
    var r := InOrder(mn, b, s, trace);
    assert InOrderAll(mn, NoExprs, r.s, r.trace) == AllValued([], r.s, r.trace);
    assert InOrderAll(mn, More(b, NoExprs), s, trace) == AllValued([r.v], r.s, r.trace);
    assert InOrder(mn, a, s, trace) == Valued(LeafValue(mn, a.arg, s), s, trace);
  }
}
