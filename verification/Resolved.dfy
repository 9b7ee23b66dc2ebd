/**
 Resolved instrument code and its meaning.  A scope is a list of statements; an
 init pass runs the init work of each statement and every performance pass its
 performance work.  Statements the optimiser does not know may do anything to
 the names they mention and to names outside the scope, and may jump.

 Values are bit patterns and the operators are arbitrary functions on them, so
 nothing is reassociated and no algebraic identity is used.
 */
module Resolved {
  import opened Basics

  /** The bits of a number or of an audio block. */
  datatype Val = Val(bits: int)

  type Store = map<string, Val>

  const ZERO := Val(0)

  function Get(s: Store, n: string): Val {
    if n in s then s[n] else ZERO
  }

  datatype ArithOp = Add | Sub | Mul

  /** A literal token keeps its spelling; a name is a variable or a p-field. */
  datatype Operand = Literal(integer: bool, text: string) | Name(name: string)

  datatype Stmt =
    | Arith(op: ArithOp, init: bool, out: string, a: Operand, b: Operand)
    | Move(init: bool, assignment: bool, out: string, a: Operand)
    | AudioMul(line: nat, out: string, a: Operand, b: Operand)
    | AudioAdd(line: nat, out: string, a: Operand, b: Operand)
    | AudioMulAdd(line: nat, out: string, a: Operand, k: Operand, b: Operand)
    | Other(id: nat, outs: seq<string>, ins: seq<string>)

  /** What the operators and the unknown statements mean.  after tells at which
      unknown statement control goes on: 0 is the start of the scope, k is
      just behind the k-th unknown statement. */
  datatype Env = Env(
    add: (Val, Val) -> Val, sub: (Val, Val) -> Val, mul: (Val, Val) -> Val,
    audioMul: (Val, Val) -> Val, audioAdd: (Val, Val) -> Val,
    literal: string -> Val,
    other: (Stmt, bool, Store) -> Store, after: (Stmt, bool, Store) -> nat)

  // ----------------------------------------------------------- statements

  function Eval(env: Env, o: Operand, s: Store): Val {
    match o
    case Literal(_, text) => env.literal(text)
    case Name(n) => Get(s, n)
  }

  function Operate(env: Env, op: ArithOp, x: Val, y: Val): Val {
    match op
    case Add => env.add(x, y)
    case Sub => env.sub(x, y)
    case Mul => env.mul(x, y)
  }

  /** The effect of a known statement in a pass. */
  function Exec(env: Env, st: Stmt, initPass: bool, s: Store): Store {
    match st
    case Arith(op, init, out, a, b) =>
      if init == initPass then s[out := Operate(env, op, Eval(env, a, s), Eval(env, b, s))] else s
    case Move(init, _, out, a) => if init == initPass then s[out := Eval(env, a, s)] else s
    case AudioMul(_, out, a, b) => if initPass then s else s[out := env.audioMul(Eval(env, a, s), Eval(env, b, s))]
    case AudioAdd(_, out, a, b) => if initPass then s else s[out := env.audioAdd(Eval(env, a, s), Eval(env, b, s))]
    case AudioMulAdd(_, out, a, k, b) =>
      if initPass then s
      else s[out := env.audioAdd(env.audioMul(Eval(env, a, s), Eval(env, k, s)), Eval(env, b, s))]
    case Other(_, _, _) => s
  }

  /** Known statements one after the other. */
  function ExecAll(env: Env, sts: seq<Stmt>, initPass: bool, s: Store): Store {
    if sts == [] then s else ExecAll(env, sts[1..], initPass, Exec(env, sts[0], initPass, s))
  }

  lemma ExecOne(env: Env, a: Stmt, initPass: bool, s: Store)
    ensures ExecAll(env, [a], initPass, s) == Exec(env, a, initPass, s)
  {
    assert [a][1..] == [];
  }

  lemma ExecTwo(env: Env, a: Stmt, b: Stmt, initPass: bool, s: Store)
    ensures ExecAll(env, [a, b], initPass, s) == Exec(env, b, initPass, Exec(env, a, initPass, s))
  {
    assert [a, b][1..] == [b];
    ExecOne(env, b, initPass, Exec(env, a, initPass, s));
  }

  // --------------------------------------------------------------- passes

  /** A pass that came to its end, or that is about to run the unknown statement
      with this number once the allowed number of them has been run. */
  datatype Outcome = Done(s: Store) | Pending(at: nat, s: Store)

  function Others(p: seq<Stmt>): nat {
    if p == [] then 0 else Others(p[..|p| - 1]) + (if p[|p| - 1].Other? then 1 else 0)
  }

  /** The position behind the k-th unknown statement. */
  function Behind(p: seq<Stmt>, k: nat): (i: nat)
    ensures i <= |p|
  {
    if k == 0 then 0
    else if p == [] then 0
    else if Others(p) < k then |p|
    else if Others(p[..|p| - 1]) < k then |p|
    else Behind(p[..|p| - 1], k)
  }

  /** Runs a pass from position i with at most fuel unknown statements. */
  ghost function RunFrom(env: Env, p: seq<Stmt>, initPass: bool, i: nat, s: Store, fuel: nat): Outcome
    requires i <= |p|
    decreases fuel, |p| - i
  {
    if i == |p| then Done(s)
    else if !p[i].Other? then RunFrom(env, p, initPass, i + 1, Exec(env, p[i], initPass, s), fuel)
    else if fuel == 0 then Pending(Others(p[..i]), s)
    else
      RunFrom(env, p, initPass, Behind(p, env.after(p[i], initPass, s)),
              env.other(p[i], initPass, s), fuel - 1)
  }

  // ---------------------------------------------------------- equivalence

  predicate Generated(n: string) {
    n != "" && n[0] == '#'
  }

  ghost predicate AgreeOff(t: set<string>, s: Store, s': Store) {
    forall n :: n !in t ==> Get(s, n) == Get(s', n)
  }

  ghost predicate SameOutcome(t: set<string>, o: Outcome, o': Outcome) {
    match o
    case Done(s) => o'.Done? && AgreeOff(t, s, o'.s)
    case Pending(k, s) => o'.Pending? && o'.at == k && AgreeOff(t, s, o'.s)
  }

  function OperandNames(o: Operand): seq<string> {
    match o
    case Literal(_, _) => []
    case Name(n) => [n]
  }

  function Reads(st: Stmt): seq<string> {
    match st
    case Arith(_, _, _, a, b) => OperandNames(a) + OperandNames(b)
    case Move(_, _, _, a) => OperandNames(a)
    case AudioMul(_, _, a, b) => OperandNames(a) + OperandNames(b)
    case AudioAdd(_, _, a, b) => OperandNames(a) + OperandNames(b)
    case AudioMulAdd(_, _, a, k, b) => OperandNames(a) + OperandNames(k) + OperandNames(b)
    case Other(_, _, ins) => ins
  }

  function Writes(st: Stmt): seq<string> {
    match st
    case Other(_, outs, _) => outs
    case _ => [st.out]
  }

  predicate Mentions(st: Stmt, n: string) {
    n in Writes(st) || n in Reads(st)
  }

  /** None of the names occurs. */
  ghost predicate Free(p: seq<Stmt>, t: set<string>) {
    forall st, n :: st in p && n in t ==> !Mentions(st, n)
  }

  /** An unknown statement neither looks at nor changes a generated local name
      that it does not mention. */
  ghost predicate Fair(env: Env) {
    forall t: set<string>, st: Stmt, initPass: bool, s: Store, s': Store ::
      st.Other? && Free([st], t) && (forall n <- t :: Generated(n)) && AgreeOff(t, s, s') ==>
        && AgreeOff(t, env.other(st, initPass, s), env.other(st, initPass, s'))
        && env.after(st, initPass, s) == env.after(st, initPass, s')
  }

  function Values(names: seq<string>, s: Store): seq<Val> {
    if names == [] then [] else [Get(s, names[0])] + Values(names[1..], s)
  }

  /** What the store holds under names that are not generated. */
  function Named(s: Store): Store {
    map n | n in s && !Generated(n) && s[n] != ZERO :: s[n]
  }

  /** An unknown statement as an opcode: what it writes to its outputs and to names that
      are not generated, and where it goes on, are any functions of the values of its
      inputs and of all names that are not generated. */
  function Opcodes(
    env: Env, out: (nat, bool, string, seq<Val>, Store) -> Val, global: (nat, bool, seq<Val>, Store) -> Store,
    next: (nat, bool, seq<Val>, Store) -> nat): Env
  {
    env.(other := (st: Stmt, initPass, s) =>
           if st.Other? then
             var ins, named := Values(st.ins, s), Named(s);
             s + Named(global(st.id, initPass, ins, named))
               + map n | n in st.outs :: out(st.id, initPass, n, ins, named)
           else s,
         after := (st: Stmt, initPass, s) =>
           var k: nat := if st.Other? then next(st.id, initPass, Values(st.ins, s), Named(s)) else 0; k)
  }

  lemma {:induction false} ValuesAgree(names: seq<string>, s: Store, s': Store, t: set<string>)
    requires AgreeOff(t, s, s') && forall n <- names :: n !in t
    ensures Values(names, s) == Values(names, s')
  {
    if names != [] {
      assert names[0] in names;
      ValuesAgree(names[1..], s, s', t);
    }
  }

  lemma NamedAgree(s: Store, s': Store, t: set<string>)
    requires AgreeOff(t, s, s') && forall n <- t :: Generated(n)
    ensures Named(s) == Named(s')
  {
    forall n | !Generated(n) ensures Get(s, n) == Get(s', n) {
    }
    assert Named(s).Keys == Named(s').Keys;
  }

  /** All opcodes are fair, also those that read or write generated names they mention. */
  lemma OpcodesAreFair(
    env: Env, out: (nat, bool, string, seq<Val>, Store) -> Val, global: (nat, bool, seq<Val>, Store) -> Store,
    next: (nat, bool, seq<Val>, Store) -> nat)
    ensures Fair(Opcodes(env, out, global, next))
  {
    var e := Opcodes(env, out, global, next);
    forall t: set<string>, st: Stmt, initPass: bool, s: Store, s': Store
      | st.Other? && Free([st], t) && (forall n <- t :: Generated(n)) && AgreeOff(t, s, s')
      ensures AgreeOff(t, e.other(st, initPass, s), e.other(st, initPass, s'))
      ensures e.after(st, initPass, s) == e.after(st, initPass, s')
    {
      assert forall n <- st.ins :: n !in t by {
        assert st in [st] && Reads(st) == st.ins;
      }
      ValuesAgree(st.ins, s, s', t);
      NamedAgree(s, s', t);
    }
  }

  /** An opcode that copies a generated name to an output, as one of them. */
  lemma ReadersAreFair(env: Env, id: nat, from: string, to: string)
    ensures var e := Opcodes(env, (id, initPass, n, ins: seq<Val>, named) => if ins == [] then ZERO else ins[0],
                             (id, initPass, ins, named) => map[], (id, initPass, ins, named) => 0);
            && Fair(e)
            && forall s: Store, initPass: bool ::
                 Get(e.other(Other(id, [to], [from]), initPass, s), to) == Get(s, from)
  {
    OpcodesAreFair(env, (id, initPass, n, ins: seq<Val>, named) => if ins == [] then ZERO else ins[0],
                   (id, initPass, ins, named) => map[], (id, initPass, ins, named) => 0);
    forall s: Store ensures Values([from], s) == [Get(s, from)] {
      assert [from][1..] == [];
    }
  }

  /** Both programs do the same to every name outside t, in every pass, from any
      two stores that agree there; one stops if and only if the other does. */
  ghost predicate Equivalent(env: Env, p: seq<Stmt>, p': seq<Stmt>, t: set<string>) {
    forall initPass: bool, s: Store, s': Store, fuel: nat
      {:trigger RunFrom(env, p, initPass, 0, s, fuel), RunFrom(env, p', initPass, 0, s', fuel)} ::
      AgreeOff(t, s, s') ==>
        SameOutcome(t, RunFrom(env, p, initPass, 0, s, fuel), RunFrom(env, p', initPass, 0, s', fuel))
  }

  /** The store that is s outside t and s' inside. */
  function Mixed(s: Store, s': Store, t: set<string>): Store {
    map n | n in s.Keys + s'.Keys :: if n in t then Get(s', n) else Get(s, n)
  }

  lemma EquivalentTrans(env: Env, p: seq<Stmt>, q: seq<Stmt>, r: seq<Stmt>, t: set<string>, u: set<string>)
    requires Equivalent(env, p, q, t) && Equivalent(env, q, r, u)
    ensures Equivalent(env, p, r, t + u)
  {
    forall initPass: bool, s: Store, s': Store, fuel: nat | AgreeOff(t + u, s, s')
      ensures SameOutcome(t + u, RunFrom(env, p, initPass, 0, s, fuel), RunFrom(env, r, initPass, 0, s', fuel))
    {
      var m := Mixed(s, s', t);
      assert AgreeOff(t, s, m) && AgreeOff(u, m, s');
      var o := RunFrom(env, q, initPass, 0, m, fuel);
      assert SameOutcome(t, RunFrom(env, p, initPass, 0, s, fuel), o);
      assert SameOutcome(u, o, RunFrom(env, r, initPass, 0, s', fuel));
    }
  }

  lemma EquivalentSelf(env: Env, p: seq<Stmt>)
    requires Fair(env)
    ensures Equivalent(env, p, p, {})
  {
    forall initPass: bool, s: Store, s': Store, fuel: nat | AgreeOff({}, s, s')
      ensures SameOutcome({}, RunFrom(env, p, initPass, 0, s, fuel), RunFrom(env, p, initPass, 0, s', fuel))
    {
      SameRun(env, p, initPass, 0, s, s', {}, fuel);
    }
  }

  lemma ExecAgrees(env: Env, st: Stmt, initPass: bool, s: Store, s': Store, t: set<string>)
    requires !st.Other? && AgreeOff(t, s, s') && forall n <- t :: !Mentions(st, n)
    ensures AgreeOff(t, Exec(env, st, initPass, s), Exec(env, st, initPass, s'))
  {
    forall o: Operand | forall n <- OperandNames(o) :: n in Reads(st) ensures Eval(env, o, s) == Eval(env, o, s') {
      if o.Name? {
        assert o.name in OperandNames(o);
      }
    }
  }

  /** A program that does not mention t runs alike from stores that agree off t. */
  lemma {:induction false} SameRun(
    env: Env, p: seq<Stmt>, initPass: bool, i: nat, s: Store, s': Store, t: set<string>, fuel: nat)
    requires Fair(env) && i <= |p| && Free(p, t) && AgreeOff(t, s, s') && forall n <- t :: Generated(n)
    ensures SameOutcome(t, RunFrom(env, p, initPass, i, s, fuel), RunFrom(env, p, initPass, i, s', fuel))
    decreases fuel, |p| - i
  {
    if i < |p| {
      var st := p[i];
      assert Free([st], t);
      if !st.Other? {
        ExecAgrees(env, st, initPass, s, s', t);
        SameRun(env, p, initPass, i + 1, Exec(env, st, initPass, s), Exec(env, st, initPass, s'), t, fuel);
      } else if fuel != 0 {
        SameRun(env, p, initPass, Behind(p, env.after(st, initPass, s)), env.other(st, initPass, s),
                env.other(st, initPass, s'), t, fuel - 1);
      }
    }
  }

  // ------------------------------------------------- replacing a stretch

  ghost predicate Known(p: seq<Stmt>) {
    forall st :: st in p ==> !st.Other?
  }

  /** From stores that agree off t the stretches lead to stores that do. */
  ghost predicate SameEffect(env: Env, x: seq<Stmt>, x': seq<Stmt>, t: set<string>) {
    forall initPass: bool, s: Store, s': Store
      {:trigger ExecAll(env, x, initPass, s), ExecAll(env, x', initPass, s')} ::
      AgreeOff(t, s, s') ==> AgreeOff(t, ExecAll(env, x, initPass, s), ExecAll(env, x', initPass, s'))
  }

  lemma {:induction false} OthersAppend(a: seq<Stmt>, b: seq<Stmt>)
    ensures Others(a + b) == Others(a) + Others(b)
  {
    if b == [] {
      assert a + b == a;
    } else {
      assert (a + b)[..|a + b| - 1] == a + b[..|b| - 1];
      OthersAppend(a, b[..|b| - 1]);
    }
  }

  lemma {:induction false} NoOthers(x: seq<Stmt>)
    requires Known(x)
    ensures Others(x) == 0
  {
    if x != [] {
      NoOthers(x[..|x| - 1]);
    }
  }

  lemma {:induction false} BehindAppend(a: seq<Stmt>, b: seq<Stmt>, k: nat)
    ensures Behind(a + b, k) == if k <= Others(a) then Behind(a, k) else |a| + Behind(b, k - Others(a))
  {
    OthersAppend(a, b);
    if b == [] {
      assert a + b == a;
    } else {
      assert (a + b)[..|a + b| - 1] == a + b[..|b| - 1];
      OthersAppend(a, b[..|b| - 1]);
      BehindAppend(a, b[..|b| - 1], k);
    }
  }

  /** Where a jump leads in a program with a stretch of known statements. */
  lemma BehindAround(pre: seq<Stmt>, x: seq<Stmt>, post: seq<Stmt>, k: nat)
    requires Known(x)
    ensures Behind(pre + x + post, k) ==
            if k <= Others(pre) then Behind(pre, k) else |pre| + |x| + Behind(post, k - Others(pre))
  {
    BehindAppend(pre + x, post, k);
    BehindAppend(pre, x, k);
    OthersAppend(pre, x);
    NoOthers(x);
  }

  lemma {:induction false} RunKnown(env: Env, p: seq<Stmt>, initPass: bool, i: nat, j: nat, s: Store, fuel: nat)
    requires i <= j <= |p| && Known(p[i..j])
    ensures RunFrom(env, p, initPass, i, s, fuel) ==
            RunFrom(env, p, initPass, j, ExecAll(env, p[i..j], initPass, s), fuel)
    decreases j - i
  {
    if i < j {
      assert p[i] == p[i..j][0] && p[i..j][1..] == p[i + 1..j];
      RunKnown(env, p, initPass, i + 1, j, Exec(env, p[i], initPass, s), fuel);
    } else {
      assert p[i..j] == [];
    }
  }

  /** One statement of a run. */
  lemma RunStep(env: Env, p: seq<Stmt>, initPass: bool, i: nat, s: Store, fuel: nat)
    requires i < |p|
    ensures RunFrom(env, p, initPass, i, s, fuel) ==
            if !p[i].Other? then RunFrom(env, p, initPass, i + 1, Exec(env, p[i], initPass, s), fuel)
            else if fuel == 0 then Pending(Others(p[..i]), s)
            else
              RunFrom(env, p, initPass, Behind(p, env.after(p[i], initPass, s)), env.other(p[i], initPass, s), fuel - 1)
  {}

  lemma {:induction false} SimPre(
    env: Env, pre: seq<Stmt>, x: seq<Stmt>, x': seq<Stmt>, post: seq<Stmt>, t: set<string>,
    initPass: bool, i: nat, s: Store, s': Store, fuel: nat)
    requires Fair(env) && Known(x) && Known(x') && Free(pre, t) && Free(post, t) && SameEffect(env, x, x', t)
    requires (forall n <- t :: Generated(n)) && AgreeOff(t, s, s') && i <= |pre|
    ensures SameOutcome(t, RunFrom(env, pre + x + post, initPass, i, s, fuel),
                           RunFrom(env, pre + x' + post, initPass, i, s', fuel))
    decreases fuel, 1, |pre| - i
  {
    hide RunFrom, Others, Behind, Exec, ExecAll, SameEffect, Known;
    var p, p' := pre + x + post, pre + x' + post;
    if i == |pre| {
      assert p[i..i + |x|] == x && p'[i..i + |x'|] == x';
      StretchEnds(env, x, x', t, initPass, s, s');
      RunKnown(env, p, initPass, i, i + |x|, s, fuel);
      RunKnown(env, p', initPass, i, i + |x'|, s', fuel);
      SimPost(env, pre, x, x', post, t, initPass, 0, ExecAll(env, x, initPass, s), ExecAll(env, x', initPass, s'),
        fuel);
    } else {
      var st := pre[i];
      assert p[i] == st && p'[i] == st && p[..i] == p'[..i];
      RunStep(env, p, initPass, i, s, fuel);
      RunStep(env, p', initPass, i, s', fuel);
      assert Free([st], t);
      if !st.Other? {
        ExecAgrees(env, st, initPass, s, s', t);
        SimPre(env, pre, x, x', post, t, initPass, i + 1, Exec(env, st, initPass, s), Exec(env, st, initPass, s'),
          fuel);
      } else if fuel != 0 {
        SimJump(env, pre, x, x', post, t, initPass, env.after(st, initPass, s), env.other(st, initPass, s),
                env.other(st, initPass, s'), fuel - 1);
      }
    }
  }

  lemma StretchEnds(env: Env, x: seq<Stmt>, x': seq<Stmt>, t: set<string>, initPass: bool, s: Store, s': Store)
    requires SameEffect(env, x, x', t) && AgreeOff(t, s, s')
    ensures AgreeOff(t, ExecAll(env, x, initPass, s), ExecAll(env, x', initPass, s'))
  {}

  lemma {:induction false} SimPost(
    env: Env, pre: seq<Stmt>, x: seq<Stmt>, x': seq<Stmt>, post: seq<Stmt>, t: set<string>,
    initPass: bool, i: nat, s: Store, s': Store, fuel: nat)
    requires Fair(env) && Known(x) && Known(x') && Free(pre, t) && Free(post, t) && SameEffect(env, x, x', t)
    requires (forall n <- t :: Generated(n)) && AgreeOff(t, s, s') && i <= |post|
    ensures SameOutcome(t, RunFrom(env, pre + x + post, initPass, |pre| + |x| + i, s, fuel),
                           RunFrom(env, pre + x' + post, initPass, |pre| + |x'| + i, s', fuel))
    decreases fuel, 0, |post| - i
  {
    hide Others, Behind, Exec, SameEffect, Known;
    var p, p' := pre + x + post, pre + x' + post;
    if i < |post| {
      var st := post[i];
      assert p[|pre| + |x| + i] == st && p'[|pre| + |x'| + i] == st;
      assert Free([st], t);
      if !st.Other? {
        ExecAgrees(env, st, initPass, s, s', t);
        SimPost(env, pre, x, x', post, t, initPass, i + 1, Exec(env, st, initPass, s), Exec(env, st, initPass, s'),
          fuel);
      } else if fuel != 0 {
        SimJump(env, pre, x, x', post, t, initPass, env.after(st, initPass, s), env.other(st, initPass, s),
                env.other(st, initPass, s'), fuel - 1);
      } else {
        SameNumber(pre, x, x', post, i);
      }
    }
  }

  lemma SameNumber(pre: seq<Stmt>, x: seq<Stmt>, x': seq<Stmt>, post: seq<Stmt>, i: nat)
    requires Known(x) && Known(x') && i <= |post|
    ensures Others((pre + x + post)[..|pre| + |x| + i]) == Others((pre + x' + post)[..|pre| + |x'| + i])
  {
    assert (pre + x + post)[..|pre| + |x| + i] == pre + x + post[..i];
    assert (pre + x' + post)[..|pre| + |x'| + i] == pre + x' + post[..i];
    OthersAppend(pre + x, post[..i]);
    OthersAppend(pre + x', post[..i]);
    OthersAppend(pre, x);
    OthersAppend(pre, x');
    NoOthers(x);
    NoOthers(x');
  }

  lemma {:induction false} SimJump(
    env: Env, pre: seq<Stmt>, x: seq<Stmt>, x': seq<Stmt>, post: seq<Stmt>, t: set<string>,
    initPass: bool, k: nat, s: Store, s': Store, fuel: nat)
    requires Fair(env) && Known(x) && Known(x') && Free(pre, t) && Free(post, t) && SameEffect(env, x, x', t)
    requires (forall n <- t :: Generated(n)) && AgreeOff(t, s, s')
    ensures SameOutcome(t, RunFrom(env, pre + x + post, initPass, Behind(pre + x + post, k), s, fuel),
                           RunFrom(env, pre + x' + post, initPass, Behind(pre + x' + post, k), s', fuel))
    decreases fuel, 2, 0
  {
    hide RunFrom, Others, Behind, SameEffect;
    BehindAround(pre, x, post, k);
    BehindAround(pre, x', post, k);
    if k <= Others(pre) {
      SimPre(env, pre, x, x', post, t, initPass, Behind(pre, k), s, s', fuel);
    } else {
      SimPost(env, pre, x, x', post, t, initPass, Behind(post, k - Others(pre)), s, s', fuel);
    }
  }

  /** Exchanging a stretch of known statements for one of the same effect. */
  lemma Replace(env: Env, pre: seq<Stmt>, x: seq<Stmt>, x': seq<Stmt>, post: seq<Stmt>, t: set<string>)
    requires Fair(env) && Known(x) && Known(x') && Free(pre, t) && Free(post, t) && SameEffect(env, x, x', t)
    requires forall n <- t :: Generated(n)
    ensures Equivalent(env, pre + x + post, pre + x' + post, t)
  {
    forall initPass: bool, s: Store, s': Store, fuel: nat | AgreeOff(t, s, s')
      ensures SameOutcome(t, RunFrom(env, pre + x + post, initPass, 0, s, fuel),
                             RunFrom(env, pre + x' + post, initPass, 0, s', fuel))
    {
      SimPre(env, pre, x, x', post, t, initPass, 0, s, s', fuel);
    }
  }

  // ------------------------------------------------------------- sessions

  /** An init pass and then so many performance passes, each allowed the same
      number of unknown statements. */
  ghost function Session(env: Env, p: seq<Stmt>, s: Store, passes: nat, fuel: nat): Outcome {
    if passes == 0 then RunFrom(env, p, true, 0, s, fuel)
    else
      match Session(env, p, s, passes - 1, fuel)
      case Done(s1) => RunFrom(env, p, false, 0, s1, fuel)
      case Pending(k, s1) => Pending(k, s1)
  }

  /** Equivalent programs show the same values after every pass. */
  lemma {:induction false} SameSession(
    env: Env, p: seq<Stmt>, p': seq<Stmt>, t: set<string>, s: Store, s': Store, passes: nat, fuel: nat)
    requires Equivalent(env, p, p', t) && AgreeOff(t, s, s')
    ensures SameOutcome(t, Session(env, p, s, passes, fuel), Session(env, p', s', passes, fuel))
  {
    if passes == 0 {
      assert SameOutcome(t, RunFrom(env, p, true, 0, s, fuel), RunFrom(env, p', true, 0, s', fuel));
    } else {
      SameSession(env, p, p', t, s, s', passes - 1, fuel);
      var o, o' := Session(env, p, s, passes - 1, fuel), Session(env, p', s', passes - 1, fuel);
      if o.Done? {
        assert SameOutcome(t, RunFrom(env, p, false, 0, o.s, fuel), RunFrom(env, p', false, 0, o'.s, fuel));
      }
    }
  }
}
