/**
 reuse_scalar_expressions: in a straight stretch of known scalar statements of one
 phase, an operation that was computed before is not computed again when its
 generated result is only used by the next statement.
 */
module ScalarCse {
  import opened Basics
  import opened Resolved
  import opened UseCounts
  import opened CopyRemoval
  import opened LiteralFolding

  const SLOTS: nat := 64

  predicate ScalarLocal(pool: Pool, n: string) {
    n in pool && (pool[n] == InitRate || pool[n] == ControlRate)
  }

  predicate Scalar(pool: Pool, o: Operand) {
    o.Literal? || ScalarLocal(pool, o.name)
  }

  /** 1 for init work, 2 for performance work, 0 for a statement the pass does
      not know. */
  function Phase(pool: Pool, st: Stmt): nat {
    match st
    case Arith(_, init, out, a, b) =>
      if ScalarLocal(pool, out) && Scalar(pool, a) && Scalar(pool, b) then (if init then 1 else 2) else 0
    case Move(init, _, out, a) =>
      if ScalarLocal(pool, out) && Scalar(pool, a) then (if init then 1 else 2) else 0
    case _ => 0
  }

  /** A write to out makes the entry useless. */
  predicate Kills(out: string, e: Stmt)
    requires e.Arith?
  {
    out == e.out || Name(out) == e.a || Name(out) == e.b
  }

  predicate SameOperation(node: Stmt, e: Stmt) {
    node.Arith? && e.Arith? && node.op == e.op && node.init == e.init && node.a == e.a && node.b == e.b
  }

  // -------------------------------------------------------- the stretch

  /** Entry e stands at position q and nothing behind it changes its result or
      its operands or is unknown. */
  ghost predicate HoldsSince(p: seq<Stmt>, q: nat, e: Stmt) {
    && q < |p| && p[q] == e && e.Arith?
    && forall i :: q < i < |p| ==> !p[i].Other? && !Kills(p[i].out, e)
  }

  ghost predicate Holds(p: seq<Stmt>, e: Stmt) {
    e.Arith? && exists q :: HoldsSince(p, q, e)
  }

  /** The result of e is its operation on what its operands hold now. */
  ghost predicate Current(env: Env, e: Stmt, s: Store)
    requires e.Arith?
  {
    Get(s, e.out) == Operate(env, e.op, Eval(env, e.a, s), Eval(env, e.b, s))
  }

  lemma StaysCurrent(env: Env, e: Stmt, st: Stmt, initPass: bool, s: Store)
    requires e.Arith? && !st.Other? && !Kills(st.out, e) && Current(env, e, s)
    ensures Current(env, e, Exec(env, st, initPass, s))
  {}

  lemma {:induction false} StillCurrent(env: Env, e: Stmt, mid: seq<Stmt>, initPass: bool, s: Store)
    requires e.Arith? && Current(env, e, s)
    requires forall st :: st in mid ==> !st.Other? && !Kills(st.out, e)
    ensures Current(env, e, ExecAll(env, mid, initPass, s))
  {
    if mid != [] {
      assert mid[0] in mid;
      StaysCurrent(env, e, mid[0], initPass, s);
      StillCurrent(env, e, mid[1..], initPass, Exec(env, mid[0], initPass, s));
    }
  }

  lemma {:induction false} ExecAppend(env: Env, a: seq<Stmt>, b: seq<Stmt>, initPass: bool, s: Store)
    ensures ExecAll(env, a + b, initPass, s) == ExecAll(env, b, initPass, ExecAll(env, a, initPass, s))
  {
    if a == [] {
      assert a + b == b;
    } else {
      assert (a + b)[1..] == a[1..] + b;
      ExecAppend(env, a[1..], b, initPass, Exec(env, a[0], initPass, s));
    }
  }

  lemma {:induction false} AllAgree(env: Env, p: seq<Stmt>, initPass: bool, s: Store, s': Store, t: set<string>)
    requires AgreeOff(t, s, s') && Free(p, t) && Known(p)
    ensures AgreeOff(t, ExecAll(env, p, initPass, s), ExecAll(env, p, initPass, s'))
  {
    if p != [] {
      assert p[0] in p;
      ExecAgrees(env, p[0], initPass, s, s', t);
      AllAgree(env, p[1..], initPass, Exec(env, p[0], initPass, s), Exec(env, p[0], initPass, s'), t);
    }
  }

  /** The last two steps: computing the value again and using it, or using the
      earlier result. */
  lemma ReuseEnd(env: Env, e: Stmt, node: Stmt, use: Stmt, initPass: bool, s: Store, s': Store)
    requires SameOperation(node, e) && node.out != e.out && node.out !in Reads(node) && AgreeOff({node.out}, s, s')
    requires (use.Arith? || use.Move?) && use.init == node.init && use.out != node.out
    requires initPass == e.init ==> Current(env, e, s')
    ensures AgreeOff({node.out}, ExecAll(env, [node, use], initPass, s),
                                 ExecAll(env, [Put(use, node.out, Name(e.out))], initPass, s'))
  {
    var n, v := node.out, Name(e.out);
    ExecTwo(env, node, use, initPass, s);
    ExecOne(env, Put(use, n, v), initPass, s');
    var s1 := Exec(env, node, initPass, s);
    assert AgreeOff({n}, s1, s');
    if initPass == e.init {
      SameOperand(env, node.a, s, s', n);
      SameOperand(env, node.b, s, s', n);
    }
    PutEffect(env, use, n, v, initPass, s1, s');
  }

  lemma ReuseEffect(env: Env, e: Stmt, mid: seq<Stmt>, node: Stmt, use: Stmt)
    requires SameOperation(node, e) && node.out != e.out && node.out !in Reads(node)
    requires (use.Arith? || use.Move?) && use.init == node.init && use.out != node.out
    requires e.out !in Reads(e) && !Mentions(e, node.out) && Free(mid, {node.out})
    requires forall st :: st in mid ==> !st.Other? && !Kills(st.out, e)
    ensures SameEffect(env, ([e] + mid) + [node, use], ([e] + mid) + [Put(use, node.out, Name(e.out))], {node.out})
  {
    var n, x := node.out, [e] + mid;
    var y, y' := [node, use], [Put(use, node.out, Name(e.out))];
    forall initPass: bool, s: Store, s': Store | AgreeOff({n}, s, s')
      ensures AgreeOff({n}, ExecAll(env, x + y, initPass, s), ExecAll(env, x + y', initPass, s'))
    {
      ExecAppend(env, x, y, initPass, s);
      ExecAppend(env, x, y', initPass, s');
      StretchFree(e, mid, n);
      AllAgree(env, x, initPass, s, s', {n});
      if initPass == e.init {
        EntryCurrent(env, e, mid, initPass, s');
      }
      ReuseEnd(env, e, node, use, initPass, ExecAll(env, x, initPass, s), ExecAll(env, x, initPass, s'));
    }
  }

  lemma StretchFree(e: Stmt, mid: seq<Stmt>, n: string)
    requires e.Arith? && !Mentions(e, n) && Free(mid, {n}) && forall st :: st in mid ==> !st.Other?
    ensures Free([e] + mid, {n}) && Known([e] + mid)
  {}

  lemma EntryCurrent(env: Env, e: Stmt, mid: seq<Stmt>, initPass: bool, s: Store)
    requires e.Arith? && e.init == initPass && e.out !in Reads(e)
    requires forall st :: st in mid ==> !st.Other? && !Kills(st.out, e)
    ensures Current(env, e, ExecAll(env, [e] + mid, initPass, s))
  {
    assert ([e] + mid)[1..] == mid;
    var s1 := Exec(env, e, initPass, s);
    OwnOperand(env, e.a, s, e.out, s1);
    OwnOperand(env, e.b, s, e.out, s1);
    StillCurrent(env, e, mid, initPass, s1);
  }

  /** The operator that counts its arguments up. */
  function Counting(): Env {
    var f := (x: Val, y: Val) => Val(x.bits + y.bits + 1);
    Env(f, f, f, f, f, text => ZERO, (st, initPass, s) => s, (st, initPass, s) => 0)
  }

  /** The result of an operation is its value on its operands from then on, whatever
      the operators are, exactly when it does not overwrite an operand. */
  lemma CurrentExactly(e: Stmt)
    requires e.Arith?
    ensures (forall env: Env, s: Store :: Current(env, e, Exec(env, e, e.init, s))) <==> e.out !in Reads(e)
  {
    if e.out in Reads(e) {
      assert !Current(Counting(), e, Exec(Counting(), e, e.init, map[]));
    } else {
      forall env: Env, s: Store ensures Current(env, e, Exec(env, e, e.init, s)) {
        EntryCurrent(env, e, [], e.init, s);
        ExecOne(env, e, e.init, s);
        assert [e] + [] == [e];
      }
    }
  }

  /** Taking the earlier result in place of a repetition that passes the tests has the same
      effect, whatever the operators are, exactly when the earlier operation does not
      overwrite an operand of its own. */
  lemma ReuseExactly(e: Stmt, mid: seq<Stmt>, node: Stmt, use: Stmt)
    requires SameOperation(node, e) && node.out != e.out && node.out !in Reads(node)
    requires (use.Arith? || use.Move?) && use.init == node.init && use.out != node.out && node.out in Reads(use)
    requires !Mentions(e, node.out) && Free(mid, {node.out})
    requires forall st :: st in mid ==> !st.Other? && !Kills(st.out, e)
    ensures (forall env: Env ::
               SameEffect(env, ([e] + mid) + [node, use], ([e] + mid) + [Put(use, node.out, Name(e.out))], {node.out}))
            <==> e.out !in Reads(e)
  {
    var x, x' := ([e] + mid) + [node, use], ([e] + mid) + [Put(use, node.out, Name(e.out))];
    if e.out !in Reads(e) {
      forall env: Env ensures SameEffect(env, x, x', {node.out}) {
        ReuseEffect(env, e, mid, node, use);
      }
    } else {
      var s0: Store := map[];
      ReuseMisses(e, mid, node, use, s0);
      assert AgreeOff({node.out}, s0, s0);
      assert !SameEffect(Counting(), x, x', {node.out});
    }
  }

  /** A name that a stretch does not write keeps what it holds. */
  lemma {:induction false} Unwritten(env: Env, p: seq<Stmt>, initPass: bool, s: Store, n: string)
    requires forall st :: st in p ==> !st.Other? && st.out != n
    ensures Get(ExecAll(env, p, initPass, s), n) == Get(s, n)
  {
    if p != [] {
      assert p[0] in p;
      Unwritten(env, p[1..], initPass, Exec(env, p[0], initPass, s), n);
    }
  }

  /** With operators that count up, the repetition gives one more than the first time. */
  lemma ReuseMisses(e: Stmt, mid: seq<Stmt>, node: Stmt, use: Stmt, s0: Store)
    requires SameOperation(node, e) && node.out != e.out && e.out in Reads(e) && s0 == map[]
    requires (use.Arith? || use.Move?) && use.init == node.init && use.out != node.out && node.out in Reads(use)
    requires forall st :: st in mid ==> !st.Other? && !Kills(st.out, e)
    ensures Get(ExecAll(Counting(), ([e] + mid) + [node, use], e.init, s0), use.out)
            != Get(ExecAll(Counting(), ([e] + mid) + [Put(use, node.out, Name(e.out))], e.init, s0), use.out)
  {
    var env := Counting();
    var last := Put(use, node.out, Name(e.out));
    ExecAppend(env, [e] + mid, [node, use], e.init, s0);
    ExecAppend(env, [e] + mid, [last], e.init, s0);
    var s := ExecAll(env, [e] + mid, e.init, s0);
    AfterFirst(e, mid, s0);
    ExecTwo(env, node, use, e.init, s);
    ExecOne(env, last, e.init, s);
    var s1 := Exec(env, node, e.init, s);
    assert Get(s, e.out) == Val(1) && Get(s1, node.out).bits > 1;
    assert forall n :: n != node.out ==> Get(s1, n) == Get(s, n);
    UseDiffers(use, node.out, e.out, s1, s);
  }

  lemma AfterFirst(e: Stmt, mid: seq<Stmt>, s0: Store)
    requires e.Arith? && e.out in Reads(e) && s0 == map[]
    requires forall st :: st in mid ==> !st.Other? && !Kills(st.out, e)
    ensures var s := ExecAll(Counting(), [e] + mid, e.init, s0);
            && Get(s, e.out) == Val(1)
            && Operate(Counting(), e.op, Eval(Counting(), e.a, s), Eval(Counting(), e.b, s)).bits > 1
  {
    var env := Counting();
    assert ([e] + mid)[1..] == mid;
    var s1 := Exec(env, e, e.init, s0);
    Unwritten(env, mid, e.init, s1, e.out);
    forall o | o == e.a || o == e.b
      ensures Eval(env, o, ExecAll(env, mid, e.init, s1)) == Eval(env, o, s1)
    {
      if o.Name? {
        Unwritten(env, mid, e.init, s1, o.name);
      }
    }
  }

  /** The consumer of a larger value yields a larger one. */
  lemma UseDiffers(use: Stmt, n: string, m: string, s1: Store, s: Store)
    requires (use.Arith? || use.Move?) && n in Reads(use) && Get(s1, n).bits > Get(s, m).bits
    requires forall x :: x != n ==> Get(s1, x) == Get(s, x)
    ensures Get(Exec(Counting(), use, use.init, s1), use.out) !=
            Get(Exec(Counting(), Put(use, n, Name(m)), use.init, s), use.out)
  {
    var env := Counting();
    forall o: Operand
      ensures Eval(env, o, s1).bits >= Eval(env, PutOperand(o, n, Name(m)), s).bits
      ensures o == Name(n) ==> Eval(env, o, s1).bits > Eval(env, PutOperand(o, n, Name(m)), s).bits
    {
    }
    if use.Arith? {
      assert use.a == Name(n) || use.b == Name(n) by {
        InReads(use, n);
      }
    } else {
      InReads(use, n);
    }
  }

  lemma InReads(use: Stmt, n: string)
    requires (use.Arith? || use.Move?) && n in Reads(use)
    ensures use.a == Name(n) || (use.Arith? && use.b == Name(n))
  {}

  lemma OwnOperand(env: Env, o: Operand, s: Store, n: string, s1: Store)
    requires n !in OperandNames(o) && AgreeOff({n}, s, s1)
    ensures Eval(env, o, s1) == Eval(env, o, s)
  {
    SameOperand(env, o, s, s1, n);
  }

  // ------------------------------------------------------------- the pass

  /** What keeps the counts of the whole scope good for the program as it is now:
      only names already defined may be read more often than before. */
  ghost predicate Counted(scope: seq<Stmt>, done: seq<Stmt>, rest: seq<Stmt>) {
    && (forall n :: WriteCount(done + rest, n) <= WriteCount(scope, n))
    && (forall n :: WriteCount(done, n) == 0 ==> ReadCount(done + rest, n) <= ReadCount(scope, n))
  }

  /** A table entry may stand for any later operation like it. */
  ghost predicate EntryOk(scope: seq<Stmt>, done: seq<Stmt>, e: Stmt) {
    Holds(done, e) && Generated(e.out) && WriteCount(scope, e.out) == 1 && e.out !in Reads(e)
  }

  /** The next statement is the only reader of the result of this one. */
  predicate OnlyNextReads(pool: Pool, scope: seq<Stmt>, rest: seq<Stmt>) {
    && |rest| >= 2 && Phase(pool, rest[0]) != 0 && Generated(rest[0].out)
    && WriteCount(scope, rest[0].out) == 1 && ReadCount(scope, rest[0].out) > 0
    && Phase(pool, rest[1]) == Phase(pool, rest[0])
    && Count(Reads(rest[1]), rest[0].out) == ReadCount(scope, rest[0].out)
  }

  /** Where the result occurs: written here, read by the next, nowhere else. */
  lemma ReuseOccurrences(pool: Pool, scope: seq<Stmt>, done: seq<Stmt>, rest: seq<Stmt>)
    requires Counted(scope, done, rest) && OnlyNextReads(pool, scope, rest)
    ensures var n := rest[0].out;
            && Uses(done, n) == Uses(rest[2..], n) == 0
            && n !in Reads(rest[0]) && n !in Writes(rest[1])
  {
    var n := rest[0].out;
    SplitTwo(done, rest, n);
    CountOne(n, n);
    CountZero(Reads(rest[0]), n);
    CountZero(Writes(rest[1]), n);
  }

  lemma SplitTwo(done: seq<Stmt>, rest: seq<Stmt>, n: string)
    requires |rest| >= 2
    ensures ReadCount(done + rest, n) ==
            ReadCount(done, n) + Count(Reads(rest[0]), n) + Count(Reads(rest[1]), n) + ReadCount(rest[2..], n)
    ensures WriteCount(done + rest, n) ==
            WriteCount(done, n) + Count(Writes(rest[0]), n) + Count(Writes(rest[1]), n) + WriteCount(rest[2..], n)
  {
    UsesAppend(done, rest, n);
    assert rest[1..][1..] == rest[2..];
  }

  /** The rest of the scope with the repeated operation gone. */
  function AfterReuse(rest: seq<Stmt>, m: string): seq<Stmt>
    requires |rest| >= 2 && !rest[0].Other?
  {
    [Put(rest[1], rest[0].out, Name(m))] + rest[2..]
  }

  /** The counts after dropping the operation. */
  lemma AfterCounts(done: seq<Stmt>, rest: seq<Stmt>, m: string, n: string)
    requires |rest| >= 2 && !rest[0].Other? && (rest[1].Arith? || rest[1].Move?) && m != rest[0].out
    ensures var r := AfterReuse(rest, m);
            && WriteCount(done + r, n) == WriteCount(done, n) + Count(Writes(rest[1]), n) + WriteCount(rest[2..], n)
            && (n == rest[0].out ==> ReadCount(done + r, n) == ReadCount(done, n) + ReadCount(rest[2..], n))
            && (n != rest[0].out && n != m ==>
                  ReadCount(done + r, n) == ReadCount(done, n) + Count(Reads(rest[1]), n) + ReadCount(rest[2..], n))
  {
    var r, t := AfterReuse(rest, m), rest[0].out;
    UsesAppend(done, r, n);
    assert r[0] == Put(rest[1], t, Name(m)) && r[1..] == rest[2..];
    if n != m {
      PutCounts(rest[1], t, Name(m), n);
    }
  }

  lemma ReuseCounts(pool: Pool, scope: seq<Stmt>, done: seq<Stmt>, rest: seq<Stmt>, e: Stmt, n: string)
    requires Counted(scope, done, rest) && OnlyNextReads(pool, scope, rest) && e.Arith? && e in done
    requires e.out != rest[0].out
    ensures var r := AfterReuse(rest, e.out);
            && WriteCount(done + r, n) <= WriteCount(scope, n)
            && (WriteCount(done, n) == 0 ==> ReadCount(done + r, n) <= ReadCount(scope, n))
            && (n == rest[0].out ==> Uses(done + r, n) == 0)
            && (Uses(done + rest, n) == 0 ==> Uses(done + r, n) == 0)
  {
    hide ReadCount, WriteCount, Count, Reads, Writes;
    SplitTwo(done, rest, n);
    AfterCounts(done, rest, e.out, n);
    WrittenIn(done, e);
    ReuseOccurrences(pool, scope, done, rest);
    CountZero(Writes(rest[1]), n);
    UsesAppend(done, rest, n);
  }

  lemma {:induction false} WrittenIn(p: seq<Stmt>, e: Stmt)
    requires e.Arith? && e in p
    ensures WriteCount(p, e.out) > 0
  {
    if e == p[0] {
      CountOne(e.out, e.out);
    } else {
      WrittenIn(p[1..], e);
    }
  }

  /** Node repeats entry e and may go. */
  ghost predicate MayReuse(pool: Pool, scope: seq<Stmt>, done: seq<Stmt>, rest: seq<Stmt>, e: Stmt) {
    && OnlyNextReads(pool, scope, rest) && EntryOk(scope, done, e) && SameOperation(rest[0], e)
    && !Kills(rest[0].out, e)
  }

  lemma ReuseStep(
    env: Env, pool: Pool, scope: seq<Stmt>, done: seq<Stmt>, rest: seq<Stmt>, gone: set<string>, e: Stmt)
    requires Fair(env) && Equivalent(env, scope, done + rest, gone) && Free(done + rest, gone)
    requires Counted(scope, done, rest) && MayReuse(pool, scope, done, rest, e)
    ensures var n, r := rest[0].out, AfterReuse(rest, e.out);
            && Generated(n) && Equivalent(env, scope, done + r, gone + {n}) && Free(done + r, gone + {n})
            && Counted(scope, done, r)
  {
    hide Equivalent, Uses, Free, SameEffect, Fair, Known, Counted, Mentions, Reads, Phase;
    var q :| HoldsSince(done, q, e);
    var n, r := rest[0].out, AfterReuse(rest, e.out);
    ReuseOccurrences(pool, scope, done, rest);
    CountsAfterReuse(pool, scope, done, rest, gone, e);
    UnusedParts(done, q, n);
    UnusedIsFree(rest[2..], n);
    PhaseShape(pool, rest[1]);
    PhaseShape(pool, rest[0]);
    ReuseAt(env, done, rest, e, q);
    EquivalentTrans(env, scope, done + rest, done + r, gone, {n});
  }

  lemma PhaseShape(pool: Pool, st: Stmt)
    requires Phase(pool, st) != 0
    ensures (st.Arith? || st.Move?) && Writes(st) == [st.out] && (Phase(pool, st) == if st.init then 1 else 2)
  {}

  lemma ReuseAt(env: Env, done: seq<Stmt>, rest: seq<Stmt>, e: Stmt, q: nat)
    requires Fair(env) && HoldsSince(done, q, e) && |rest| >= 2 && SameOperation(rest[0], e) && !Kills(rest[0].out, e)
    requires (rest[1].Arith? || rest[1].Move?) && rest[1].init == rest[0].init
    requires var n := rest[0].out;
             && Generated(n) && n !in Reads(rest[0]) && rest[1].out != n && e.out !in Reads(e)
             && Free(done[..q], {n}) && Free(done[q + 1..], {n}) && !Mentions(e, n) && Free(rest[2..], {n})
    ensures Equivalent(env, done + rest, done + AfterReuse(rest, e.out), {rest[0].out})
  {
    hide Equivalent, Free, SameEffect, Fair, Known, Mentions, Reads;
    var n, node, use, r := rest[0].out, rest[0], rest[1], AfterReuse(rest, e.out);
    var pre, mid, post := done[..q], done[q + 1..], rest[2..];
    MidOk(done, q, e);
    ReuseEffect(env, e, mid, node, use);
    var x, x' := ([e] + mid) + [node, use], ([e] + mid) + [Put(use, n, Name(e.out))];
    PairsKnown(e, mid, node, use, Put(use, n, Name(e.out)));
    Replace(env, pre, x, x', post, {n});
    assert done == pre + ([e] + mid);
    assert rest == [node, use] + post;
    assert done + rest == pre + x + post && done + r == pre + x' + post;
  }

  lemma CountsAfterReuse(pool: Pool, scope: seq<Stmt>, done: seq<Stmt>, rest: seq<Stmt>, gone: set<string>, e: Stmt)
    requires Counted(scope, done, rest) && MayReuse(pool, scope, done, rest, e) && Free(done + rest, gone)
    ensures var r := AfterReuse(rest, e.out);
            Counted(scope, done, r) && Free(done + r, gone + {rest[0].out})
  {
    hide Uses, ReadCount, WriteCount, Free, Reads, Writes, Mentions, Phase;
    var r := AfterReuse(rest, e.out);
    var q :| HoldsSince(done, q, e);
    assert e in done;
    forall n
      ensures WriteCount(done + r, n) <= WriteCount(scope, n)
      ensures WriteCount(done, n) == 0 ==> ReadCount(done + r, n) <= ReadCount(scope, n)
      ensures n == rest[0].out || Uses(done + rest, n) == 0 ==> Uses(done + r, n) == 0
    {
      ReuseCounts(pool, scope, done, rest, e, n);
    }
    UnusedStayFree(done + rest, done + r, gone, rest[0].out);
  }

  lemma UnusedStayFree(p: seq<Stmt>, p': seq<Stmt>, gone: set<string>, n: string)
    requires Free(p, gone) && forall m :: m == n || Uses(p, m) == 0 ==> Uses(p', m) == 0
    ensures Free(p', gone + {n})
  {
    forall st, m | st in p' && m in gone + {n} ensures !Mentions(st, m) {
      if m in gone {
        assert Free(p, {m});
        FreeIsUnused(p, m);
      }
      UnusedIsFree(p', m);
    }
  }

  lemma UnusedParts(done: seq<Stmt>, q: nat, n: string)
    requires q < |done| && Uses(done, n) == 0
    ensures Free(done[..q], {n}) && Free(done[q + 1..], {n}) && !Mentions(done[q], n)
  {
    UnusedIsFree(done, n);
    assert done[q] in done;
  }

  lemma MidOk(done: seq<Stmt>, q: nat, e: Stmt)
    requires HoldsSince(done, q, e)
    ensures forall st :: st in done[q + 1..] ==> !st.Other? && !Kills(st.out, e)
  {}

  lemma PairsKnown(e: Stmt, mid: seq<Stmt>, a: Stmt, b: Stmt, c: Stmt)
    requires !e.Other? && !a.Other? && !b.Other? && !c.Other? && forall st :: st in mid ==> !st.Other?
    ensures Known(([e] + mid) + [a, b]) && Known(([e] + mid) + [c])
  {}

  /** An entry past a known statement that does not kill it. */
  lemma EntryPast(scope: seq<Stmt>, done: seq<Stmt>, node: Stmt, e: Stmt)
    requires EntryOk(scope, done, e) && !node.Other? && !Kills(node.out, e)
    ensures EntryOk(scope, done + [node], e)
  {
    var q :| HoldsSince(done, q, e);
    assert HoldsSince(done + [node], q, e);
  }

  lemma NewEntry(scope: seq<Stmt>, done: seq<Stmt>, node: Stmt)
    requires node.Arith? && Generated(node.out) && WriteCount(scope, node.out) == 1 && node.out !in Reads(node)
    ensures EntryOk(scope, done + [node], node)
  {
    assert HoldsSince(done + [node], |done|, node);
  }

  ghost predicate TableOk(scope: seq<Stmt>, done: seq<Stmt>, table: seq<Option<Stmt>>) {
    forall i :: 0 <= i < |table| && table[i].Some? ==> EntryOk(scope, done, table[i].value)
  }

  /** The walk over the table: entries the statement overwrites go, and the last
      one that fits is the match. */
  method LookUp(available: array<Option<Stmt>>, node: Stmt) returns (found: Option<Stmt>)
    requires forall i :: 0 <= i < available.Length && available[i].Some? ==> available[i].value.Arith?
    requires !node.Other?
    modifies available
    ensures forall i :: 0 <= i < available.Length ==>
              available[i] == if old(available[i]).Some? && Kills(node.out, old(available[i]).value) then None
                              else old(available[i])
    ensures found.Some? ==> found in available[..] && SameOperation(node, found.value)
    ensures found.None? ==> forall e :: Some(e) in available[..] ==> !SameOperation(node, e)
  {
    found := None;
    var i := 0;
    while i < available.Length
      invariant 0 <= i <= available.Length
      invariant forall k :: i <= k < available.Length ==> available[k] == old(available[k])
      invariant forall k :: 0 <= k < i ==>
                  available[k] == if old(available[k]).Some? && Kills(node.out, old(available[k]).value) then None
                                  else old(available[k])
      invariant found.Some? ==> found in available[..i] && SameOperation(node, found.value)
      invariant found.None? ==> forall k :: 0 <= k < i && available[k].Some? ==>
                !SameOperation(node, available[k].value)
    {
      ghost var before := available[..i];
      var prior := available[i];
      if prior.Some? {
        if Kills(node.out, prior.value) {
          available[i] := None;
        } else if SameOperation(node, prior.value) {
          found := prior;
        }
      }
      assert available[..i] == before && available[..i + 1] == before + [available[i]];
      i := i + 1;
    }
    assert available[..i] == available[..];
  }

  // ------------------------------------------------- nothing is passed over

  /** The statement goes into the table. */
  predicate Enters(scope: seq<Stmt>, st: Stmt) {
    st.Arith? && Generated(st.out) && WriteCount(scope, st.out) == 1
  }

  /** How many statements of a stretch go into the table. */
  function Entered(scope: seq<Stmt>, p: seq<Stmt>, k: nat, n: nat): (c: nat)
    requires k <= n <= |p|
    ensures c <= n - k
    decreases n
  {
    if k == n then 0 else Entered(scope, p, k, n - 1) + if Enters(scope, p[n - 1]) then 1 else 0
  }

  /** From k up to n all statements are of one phase that the pass knows. */
  ghost predicate OnePhase(pool: Pool, p: seq<Stmt>, k: nat, n: nat) {
    k < n <= |p| && forall j :: k <= j < n ==> Phase(pool, p[j]) == Phase(pool, p[k]) != 0
  }

  /** The operation at k is generated and still good before n. */
  ghost predicate StillGood(pool: Pool, scope: seq<Stmt>, p: seq<Stmt>, k: nat, n: nat) {
    && OnePhase(pool, p, k, n) && Enters(scope, p[k])
    && forall j :: k < j < n ==> !p[j].Other? && !Kills(p[j].out, p[k])
  }

  /** Statement m does one of the last operations again, the one at k, and only for
      the next statement. */
  ghost predicate Repeats(pool: Pool, scope: seq<Stmt>, p: seq<Stmt>, k: nat, m: nat) {
    && k < m < |p| && Entered(scope, p, k, m) <= SLOTS && StillGood(pool, scope, p, k, m + 1)
    && SameOperation(p[m], p[k]) && OnlyNextReads(pool, scope, p[m..])
  }

  function SlotOf(nextSlot: nat, c: nat): (i: nat)
    requires nextSlot < SLOTS && c <= SLOTS
    ensures i < SLOTS
  {
    (nextSlot + SLOTS - c) % SLOTS
  }

  /** The operation at k is still good before n and among the last that went into the
      table. */
  ghost predicate Reach(pool: Pool, scope: seq<Stmt>, p: seq<Stmt>, k: nat, n: nat) {
    k < n <= |p| && Entered(scope, p, k, n) <= SLOTS && StillGood(pool, scope, p, k, n)
  }

  /** The operations in reach are in their slots, and there is nothing else in the table. */
  ghost predicate InSlots(pool: Pool, scope: seq<Stmt>, p: seq<Stmt>, n: nat, table: seq<Option<Stmt>>, nextSlot: nat)
    requires n <= |p| && |table| == SLOTS && nextSlot < SLOTS
  {
    && (forall k: nat :: Reach(pool, scope, p, k, n) ==>
          table[SlotOf(nextSlot, Entered(scope, p, k, n))] == Some(p[k]))
    && forall i :: 0 <= i < SLOTS && table[i].Some? ==> FromReach(pool, scope, p, n, i, table[i].value, nextSlot)
  }

  ghost predicate FromReach(pool: Pool, scope: seq<Stmt>, p: seq<Stmt>, n: nat, i: nat, e: Stmt, nextSlot: nat)
    requires n <= |p| && nextSlot < SLOTS
  {
    exists k: nat :: Reach(pool, scope, p, k, n) && e == p[k] && i == SlotOf(nextSlot, Entered(scope, p, k, n))
  }

  /** At a new phase nothing older is good any more. */
  lemma NewPhase(pool: Pool, scope: seq<Stmt>, p: seq<Stmt>, n: nat, k: nat)
    requires k < n < |p| && (Phase(pool, p[n]) == 0 || Phase(pool, p[n]) != Phase(pool, p[n - 1]))
    ensures !StillGood(pool, scope, p, k, n + 1)
  {
    hide Phase, Enters, Kills;
    var _ := Phase(pool, p[n - 1]);
  }

  lemma Shorter(pool: Pool, scope: seq<Stmt>, p: seq<Stmt>, k: nat, n: nat)
    requires k < n < |p| && StillGood(pool, scope, p, k, n + 1)
    ensures StillGood(pool, scope, p, k, n) && !p[n].Other? && !Kills(p[n].out, p[k])
  {
    hide Phase, Enters, Kills;
  }

  lemma EnteredOne(scope: seq<Stmt>, p: seq<Stmt>, k: nat, n: nat)
    requires k <= n < |p|
    ensures Entered(scope, p, k, n + 1) == Entered(scope, p, k, n) + if Enters(scope, p[n]) then 1 else 0
  {}

  lemma EnteredFirst(scope: seq<Stmt>, p: seq<Stmt>, k: nat)
    requires k < |p| && Enters(scope, p[k])
    ensures Entered(scope, p, k, k + 1) == 1
  {
    assert Entered(scope, p, k, k) == 0;
  }

  lemma SlotsMove(nextSlot: nat, c: nat)
    requires nextSlot < SLOTS && c < SLOTS
    ensures SlotOf((nextSlot + 1) % SLOTS, c + 1) == SlotOf(nextSlot, c)
    ensures 0 < c ==> SlotOf(nextSlot, c) != nextSlot
    ensures SlotOf((nextSlot + 1) % SLOTS, 1) == nextSlot
  {
    if nextSlot + 1 == SLOTS {
      assert (nextSlot + 1) % SLOTS == 0;
    } else {
      assert (nextSlot + 1) % SLOTS == nextSlot + 1;
    }
  }

  /** The table after the walk: the statement has taken out what it overwrites. */
  ghost predicate WalkedOver(table: seq<Option<Stmt>>, node: Stmt, looked: seq<Option<Stmt>>)
    requires !node.Other?
  {
    && |looked| == |table|
    && forall i :: 0 <= i < |table| ==>
         && (table[i].Some? ==> table[i].value.Arith?)
         && looked[i] == if table[i].Some? && Kills(node.out, table[i].value) then None else table[i]
  }

  /** The table with the statement in it, if it goes there. */
  ghost predicate Inserted(
    scope: seq<Stmt>, node: Stmt, looked: seq<Option<Stmt>>, nextSlot: nat, table': seq<Option<Stmt>>, nextSlot': nat)
    requires |looked| == SLOTS && nextSlot < SLOTS
  {
    if Enters(scope, node) then table' == looked[nextSlot := Some(node)] && nextSlot' == (nextSlot + 1) % SLOTS
    else table' == looked && nextSlot' == nextSlot
  }

  /** One more statement of the same stretch leaves in reach what it does not overwrite or
      push out. */
  lemma ReachOn(pool: Pool, scope: seq<Stmt>, p: seq<Stmt>, k: nat, n: nat)
    requires 0 < n < |p| && k < n && Phase(pool, p[n]) == Phase(pool, p[n - 1]) != 0 && !p[n].Other?
    ensures Reach(pool, scope, p, k, n + 1) <==>
              && Reach(pool, scope, p, k, n) && p[k].Arith? && !Kills(p[n].out, p[k])
              && (Enters(scope, p[n]) ==> Entered(scope, p, k, n) < SLOTS)
  {
    hide Phase, Enters, Kills, Entered;
    EnteredOne(scope, p, k, n);
    if Reach(pool, scope, p, k, n + 1) {
      Shorter(pool, scope, p, k, n);
      EntersArith(pool, scope, p, k, n);
    } else if Reach(pool, scope, p, k, n) && p[k].Arith? && !Kills(p[n].out, p[k]) {
      GoodOn(pool, scope, p, k, n);
    }
  }

  lemma EntersArith(pool: Pool, scope: seq<Stmt>, p: seq<Stmt>, k: nat, n: nat)
    requires StillGood(pool, scope, p, k, n)
    ensures p[k].Arith?
  {
    hide Phase, Kills;
  }

  /** One statement further, with nothing removed. */
  lemma SlotsKept(
    pool: Pool, scope: seq<Stmt>, p: seq<Stmt>, n: nat, table: seq<Option<Stmt>>, nextSlot: nat,
    looked: seq<Option<Stmt>>, table': seq<Option<Stmt>>, nextSlot': nat)
    requires 0 < n < |p| && |table| == SLOTS && nextSlot < SLOTS && nextSlot' < SLOTS && |table'| == SLOTS
    requires InSlots(pool, scope, p, n, table, nextSlot)
    requires Phase(pool, p[n]) == Phase(pool, p[n - 1]) != 0 && !p[n].Other?
    requires WalkedOver(table, p[n], looked) && Inserted(scope, p[n], looked, nextSlot, table', nextSlot')
    ensures InSlots(pool, scope, p, n + 1, table', nextSlot')
  {
    hide Phase, Enters, Kills, SlotOf, Entered, StillGood;
    forall k: nat | Reach(pool, scope, p, k, n + 1)
      ensures table'[SlotOf(nextSlot', Entered(scope, p, k, n + 1))] == Some(p[k])
    {
      if k == n {
        ReachItself(pool, scope, p, n);
        SlotsMove(nextSlot, 0);
      } else {
        SlotKept(pool, scope, p, k, n, nextSlot, nextSlot');
        assert table[SlotOf(nextSlot, Entered(scope, p, k, n))] == Some(p[k]);
      }
    }
    forall i | 0 <= i < SLOTS && table'[i].Some?
      ensures FromReach(pool, scope, p, n + 1, i, table'[i].value, nextSlot')
    {
      if Enters(scope, p[n]) && i == nextSlot {
        NewInReach(pool, scope, p, n);
        SlotsMove(nextSlot, 0);
        assert Reach(pool, scope, p, n, n + 1);
      } else {
        assert table[i] == table'[i] && FromReach(pool, scope, p, n, i, table[i].value, nextSlot);
        StaysInReach(pool, scope, p, n, i, table[i].value, nextSlot, nextSlot');
      }
    }
  }

  lemma SlotKept(pool: Pool, scope: seq<Stmt>, p: seq<Stmt>, k: nat, n: nat, nextSlot: nat, nextSlot': nat)
    requires 0 < n < |p| && k < n && nextSlot < SLOTS && Reach(pool, scope, p, k, n + 1)
    requires Phase(pool, p[n]) == Phase(pool, p[n - 1]) != 0 && !p[n].Other?
    requires nextSlot' == if Enters(scope, p[n]) then (nextSlot + 1) % SLOTS else nextSlot
    ensures Reach(pool, scope, p, k, n) && p[k].Arith? && !Kills(p[n].out, p[k])
    ensures SlotOf(nextSlot', Entered(scope, p, k, n + 1)) == SlotOf(nextSlot, Entered(scope, p, k, n))
    ensures Enters(scope, p[n]) ==> SlotOf(nextSlot, Entered(scope, p, k, n)) != nextSlot
  {
    hide Phase, Enters, Kills, SlotOf, Entered, StillGood;
    ReachOn(pool, scope, p, k, n);
    EnteredOne(scope, p, k, n);
    GoodEnters(pool, scope, p, k, n);
    SomeEntered(scope, p, k, n);
    if Enters(scope, p[n]) {
      SlotsMove(nextSlot, Entered(scope, p, k, n));
    }
  }

  lemma StaysInReach(
    pool: Pool, scope: seq<Stmt>, p: seq<Stmt>, n: nat, i: nat, e: Stmt, nextSlot: nat, nextSlot': nat)
    requires 0 < n < |p| && nextSlot < SLOTS && i < SLOTS && FromReach(pool, scope, p, n, i, e, nextSlot)
    requires Phase(pool, p[n]) == Phase(pool, p[n - 1]) != 0 && !p[n].Other?
    requires e.Arith? && !Kills(p[n].out, e) && (Enters(scope, p[n]) ==> i != nextSlot)
    requires nextSlot' == if Enters(scope, p[n]) then (nextSlot + 1) % SLOTS else nextSlot
    ensures FromReach(pool, scope, p, n + 1, i, e, nextSlot')
  {
    hide Phase, Enters, Kills, SlotOf, Entered, StillGood;
    var k: nat :| Reach(pool, scope, p, k, n) && e == p[k] && i == SlotOf(nextSlot, Entered(scope, p, k, n));
    if Enters(scope, p[n]) && Entered(scope, p, k, n) == SLOTS {
      FullTurn(nextSlot);
    }
    ReachOn(pool, scope, p, k, n);
    SlotKept(pool, scope, p, k, n, nextSlot, nextSlot');
  }

  lemma FullTurn(nextSlot: nat)
    requires nextSlot < SLOTS
    ensures SlotOf(nextSlot, SLOTS) == nextSlot
  {}

  lemma NewInReach(pool: Pool, scope: seq<Stmt>, p: seq<Stmt>, n: nat)
    requires n < |p| && Enters(scope, p[n]) && Phase(pool, p[n]) != 0
    ensures Reach(pool, scope, p, n, n + 1) && Entered(scope, p, n, n + 1) == 1
  {
    hide Phase, Enters, Kills;
    EnteredFirst(scope, p, n);
  }

  lemma ReachItself(pool: Pool, scope: seq<Stmt>, p: seq<Stmt>, n: nat)
    requires n < |p| && Reach(pool, scope, p, n, n + 1)
    ensures Enters(scope, p[n]) && Entered(scope, p, n, n + 1) == 1
  {
    hide Phase, Enters, Kills;
    EnteredFirst(scope, p, n);
  }

  lemma GoodEnters(pool: Pool, scope: seq<Stmt>, p: seq<Stmt>, k: nat, n: nat)
    requires StillGood(pool, scope, p, k, n)
    ensures Enters(scope, p[k])
  {
    hide Phase, Kills;
  }

  lemma {:induction false} SomeEntered(scope: seq<Stmt>, p: seq<Stmt>, k: nat, n: nat)
    requires k < n <= |p| && Enters(scope, p[k])
    ensures Entered(scope, p, k, n) > 0
    decreases n
  {
    if n == k + 1 {
      EnteredFirst(scope, p, k);
    } else {
      SomeEntered(scope, p, k, n - 1);
    }
  }

  lemma FoundIs(
    pool: Pool, scope: seq<Stmt>, p: seq<Stmt>, n: nat, table: seq<Option<Stmt>>, nextSlot: nat,
    looked: seq<Option<Stmt>>, e: Stmt)
    returns (k: nat)
    requires 0 < n < |p| && |table| == SLOTS && nextSlot < SLOTS
    requires InSlots(pool, scope, p, n, table, nextSlot)
    requires Phase(pool, p[n]) == Phase(pool, p[n - 1]) != 0 && !p[n].Other?
    requires WalkedOver(table, p[n], looked)
    requires Some(e) in looked && SameOperation(p[n], e) && OnlyNextReads(pool, scope, p[n..])
    ensures Repeats(pool, scope, p, k, n) && e == p[k]
  {
    hide Phase, Enters, Kills, SlotOf, Entered, StillGood, OnlyNextReads, SameOperation;
    var i :| 0 <= i < SLOTS && looked[i] == Some(e);
    assert FromReach(pool, scope, p, n, i, e, nextSlot);
    k :| Reach(pool, scope, p, k, n) && e == p[k] && i == SlotOf(nextSlot, Entered(scope, p, k, n));
    GoodOn(pool, scope, p, k, n);
  }

  /** A statement finds an operation like its own exactly if there is one in reach. */
  lemma FoundExactly(
    pool: Pool, scope: seq<Stmt>, p: seq<Stmt>, n: nat, table: seq<Option<Stmt>>, nextSlot: nat,
    looked: seq<Option<Stmt>>)
    requires 0 < n < |p| && |table| == SLOTS && nextSlot < SLOTS
    requires InSlots(pool, scope, p, n, table, nextSlot)
    requires Phase(pool, p[n]) == Phase(pool, p[n - 1]) != 0 && !p[n].Other?
    requires WalkedOver(table, p[n], looked)
    ensures (exists e :: Some(e) in looked && SameOperation(p[n], e)) && OnlyNextReads(pool, scope, p[n..]) <==>
            exists k: nat :: Repeats(pool, scope, p, k, n)
  {
    hide Phase, Enters, Kills, SlotOf, Entered, StillGood, OnlyNextReads, SameOperation;
    if e :| Some(e) in looked && SameOperation(p[n], e) {
      if OnlyNextReads(pool, scope, p[n..]) {
        var _ := FoundIs(pool, scope, p, n, table, nextSlot, looked, e);
      }
    }
    if k: nat :| Repeats(pool, scope, p, k, n) {
      Shorter(pool, scope, p, k, n);
      var i := SlotOf(nextSlot, Entered(scope, p, k, n));
      assert Reach(pool, scope, p, k, n) && table[i] == Some(p[k]) && looked[i] == Some(p[k]);
    }
  }

  lemma GoodOn(pool: Pool, scope: seq<Stmt>, p: seq<Stmt>, k: nat, n: nat)
    requires 0 < n < |p| && k < n && StillGood(pool, scope, p, k, n)
    requires Phase(pool, p[n]) == Phase(pool, p[n - 1]) != 0 && !p[n].Other?
    requires p[k].Arith? && !Kills(p[n].out, p[k])
    ensures StillGood(pool, scope, p, k, n + 1)
  {
    hide Phase, Enters, Kills;
  }

  lemma EmptySlots(pool: Pool, scope: seq<Stmt>, p: seq<Stmt>, table: seq<Option<Stmt>>)
    requires |table| == SLOTS && forall i :: 0 <= i < SLOTS ==> table[i] == None
    ensures InSlots(pool, scope, p, 0, table, 0)
  {}

  /** The walk has come to place n of the program: the table is right for what is before. */
  ghost predicate Seen(
    pool: Pool, scope: seq<Stmt>, p: seq<Stmt>, n: nat, table: seq<Option<Stmt>>, nextSlot: nat, phase: nat)
  {
    && n <= |p| && |table| == SLOTS && nextSlot < SLOTS && InSlots(pool, scope, p, n, table, nextSlot)
    && phase == if n == 0 then 0 else Phase(pool, p[n - 1])
  }

  /** The walk of the pass over one statement: a table from another phase is empty. */
  ghost predicate LookedAt(
    pool: Pool, node: Stmt, table: seq<Option<Stmt>>, phase: nat, looked: seq<Option<Stmt>>)
    requires !node.Other?
  {
    if Phase(pool, node) == phase then WalkedOver(table, node, looked)
    else |looked| == |table| && forall i :: 0 <= i < |looked| ==> looked[i] == None
  }

  ghost predicate NoneOlder(pool: Pool, scope: seq<Stmt>, p: seq<Stmt>, n: nat) {
    forall k, m :: 0 <= k < n && m == n + 1 ==> !StillGood(pool, scope, p, k, m)
  }

  /** At the first statement of a phase, and at one the pass does not know, nothing
      older is good. */
  lemma NothingOlder(pool: Pool, scope: seq<Stmt>, p: seq<Stmt>, n: nat)
    requires n < |p| && (Phase(pool, p[n]) == 0 ||
             (0 < n && Phase(pool, p[n]) != Phase(pool, p[n - 1])))
    ensures NoneOlder(pool, scope, p, n)
    ensures forall k: nat :: !Repeats(pool, scope, p, k, n)
    ensures Phase(pool, p[n]) == 0 ==> !StillGood(pool, scope, p, n, n + 1)
  {
    hide Phase, Enters, Kills, StillGood;
    forall k, m | 0 <= k < n && m == n + 1 ensures !StillGood(pool, scope, p, k, m) {
      NewPhase(pool, scope, p, n, k);
    }
    if Phase(pool, p[n]) == 0 {
      NoPhase(pool, scope, p, n);
    }
  }

  lemma NoPhase(pool: Pool, scope: seq<Stmt>, p: seq<Stmt>, n: nat)
    requires n < |p| && Phase(pool, p[n]) == 0
    ensures !StillGood(pool, scope, p, n, n + 1)
  {
    hide Phase, Enters, Kills;
  }

  /** The slots after a statement with nothing older that is good. */
  lemma SlotsAfresh(
    pool: Pool, scope: seq<Stmt>, p: seq<Stmt>, n: nat, table': seq<Option<Stmt>>, nextSlot: nat, nextSlot': nat)
    requires n < |p| && |table'| == SLOTS && nextSlot < SLOTS && nextSlot' < SLOTS
    requires NoneOlder(pool, scope, p, n)
    requires if Reach(pool, scope, p, n, n + 1)
             then table'[nextSlot] == Some(p[n]) && nextSlot' == (nextSlot + 1) % SLOTS
             else table'[nextSlot] == None
    requires forall i :: 0 <= i < SLOTS && i != nextSlot ==> table'[i] == None
    ensures InSlots(pool, scope, p, n + 1, table', nextSlot')
  {
    hide SlotOf, Entered, Phase, Kills, Enters, StillGood;
    if Reach(pool, scope, p, n, n + 1) {
      ReachItself(pool, scope, p, n);
      SlotsMove(nextSlot, 0);
      assert FromReach(pool, scope, p, n + 1, nextSlot, p[n], nextSlot');
    }
  }

  /** The statement has been looked at and kept. */
  lemma SeenOne(
    pool: Pool, scope: seq<Stmt>, p: seq<Stmt>, n: nat, table: seq<Option<Stmt>>, nextSlot: nat, phase: nat,
    looked: seq<Option<Stmt>>, table': seq<Option<Stmt>>, nextSlot': nat)
    requires Seen(pool, scope, p, n, table, nextSlot, phase) && n < |p| && !p[n].Other?
    requires |looked| == |table'| == SLOTS && nextSlot' < SLOTS && Phase(pool, p[n]) != 0
    requires LookedAt(pool, p[n], table, phase, looked)
    requires Inserted(scope, p[n], looked, nextSlot, table', nextSlot')
    ensures Seen(pool, scope, p, n + 1, table', nextSlot', Phase(pool, p[n]))
  {
    hide Phase, Enters, Kills, StillGood, InSlots, Repeats, Reach;
    if Phase(pool, p[n]) == phase {
      SlotsKept(pool, scope, p, n, table, nextSlot, looked, table', nextSlot');
    } else {
      OldPhases(pool, scope, p, n, phase);
      InReachExactly(pool, scope, p, n);
      SlotsAfresh(pool, scope, p, n, table', nextSlot, nextSlot');
    }
  }

  /** The statement finds its like exactly if it repeats an operation in reach, and what it
      finds is that operation. */
  lemma FoundAgain(
    pool: Pool, scope: seq<Stmt>, p: seq<Stmt>, n: nat, table: seq<Option<Stmt>>, nextSlot: nat, phase: nat,
    looked: seq<Option<Stmt>>, found: Option<Stmt>)
    requires Seen(pool, scope, p, n, table, nextSlot, phase) && n < |p| && !p[n].Other? && Phase(pool, p[n]) != 0
    requires LookedAt(pool, p[n], table, phase, looked)
    requires found.Some? ==> found in looked && found.value.Arith? && SameOperation(p[n], found.value)
    requires found.None? ==> forall e :: Some(e) in looked ==> !SameOperation(p[n], e)
    ensures found.Some? && OnlyNextReads(pool, scope, p[n..]) ==>
              Phase(pool, p[n]) == phase && exists k: nat :: Repeats(pool, scope, p, k, n) && found.value == p[k]
    ensures !(found.Some? && OnlyNextReads(pool, scope, p[n..])) ==>
              forall k: nat :: !Repeats(pool, scope, p, k, n)
  {
    hide Phase, Kills, SameOperation, InSlots, OnlyNextReads, Repeats, StillGood, Reach;
    if Phase(pool, p[n]) == phase {
      FoundExactly(pool, scope, p, n, table, nextSlot, looked);
      if found.Some? && OnlyNextReads(pool, scope, p[n..]) {
        var _ := FoundIs(pool, scope, p, n, table, nextSlot, looked, found.value);
      }
    } else {
      OldPhases(pool, scope, p, n, phase);
    }
  }

  lemma InReachExactly(pool: Pool, scope: seq<Stmt>, p: seq<Stmt>, n: nat)
    requires n < |p| && Phase(pool, p[n]) != 0
    ensures Reach(pool, scope, p, n, n + 1) <==> Enters(scope, p[n])
  {
    hide Phase, Kills;
    if Enters(scope, p[n]) {
      NewInReach(pool, scope, p, n);
    } else if Reach(pool, scope, p, n, n + 1) {
      ReachItself(pool, scope, p, n);
    }
  }

  lemma OldPhases(pool: Pool, scope: seq<Stmt>, p: seq<Stmt>, n: nat, phase: nat)
    requires n < |p| && phase == (if n == 0 then 0 else Phase(pool, p[n - 1])) && Phase(pool, p[n]) != phase
    ensures NoneOlder(pool, scope, p, n)
    ensures forall k: nat :: !Repeats(pool, scope, p, k, n)
  {
    hide Phase, StillGood;
    if n > 0 {
      NothingOlder(pool, scope, p, n);
    }
  }

  /** A statement the pass does not know has been passed. */
  lemma SeenUnknown(
    pool: Pool, scope: seq<Stmt>, p: seq<Stmt>, n: nat, table: seq<Option<Stmt>>, nextSlot: nat, phase: nat,
    table': seq<Option<Stmt>>)
    requires Seen(pool, scope, p, n, table, nextSlot, phase) && n < |p| && |table'| == SLOTS
    requires Phase(pool, p[n]) == 0 && forall i :: 0 <= i < SLOTS ==> table'[i] == None
    ensures Seen(pool, scope, p, n + 1, table', nextSlot, 0) && forall k: nat :: !Repeats(pool, scope, p, k, n)
  {
    hide Phase, Enters, Kills, StillGood, InSlots, Repeats;
    NothingOlder(pool, scope, p, n);
    assert !Reach(pool, scope, p, n, n + 1);
    SlotsAfresh(pool, scope, p, n, table', nextSlot, nextSlot);
  }

  /** What is behind does not matter to the table. */
  lemma {:induction false} EnteredPrefix(scope: seq<Stmt>, p: seq<Stmt>, p': seq<Stmt>, k: nat, n: nat)
    requires k <= n <= |p| && n <= |p'| && p[..n] == p'[..n]
    ensures Entered(scope, p, k, n) == Entered(scope, p', k, n)
    decreases n
  {
    if k < n {
      assert p[n - 1] == p[..n][n - 1] == p'[n - 1];
      assert p[..n][..n - 1] == p[..n - 1] && p'[..n][..n - 1] == p'[..n - 1];
      EnteredPrefix(scope, p, p', k, n - 1);
    }
  }

  lemma ReachPrefix(pool: Pool, scope: seq<Stmt>, p: seq<Stmt>, p': seq<Stmt>, k: nat, n: nat)
    requires n <= |p| && n <= |p'| && p[..n] == p'[..n] && Reach(pool, scope, p, k, n)
    ensures Reach(pool, scope, p', k, n) && p'[k] == p[k] && Entered(scope, p', k, n) == Entered(scope, p, k, n)
  {
    hide Phase, Enters, Kills, Entered;
    EnteredPrefix(scope, p, p', k, n);
    assert forall j :: k <= j < n ==> p[j] == p[..n][j] == p'[j];
  }

  lemma SeenPrefix(
    pool: Pool, scope: seq<Stmt>, p: seq<Stmt>, p': seq<Stmt>, n: nat, table: seq<Option<Stmt>>, nextSlot: nat,
    phase: nat)
    requires Seen(pool, scope, p, n, table, nextSlot, phase) && n <= |p'| && p[..n] == p'[..n]
    ensures Seen(pool, scope, p', n, table, nextSlot, phase)
  {
    hide Phase, StillGood, Entered, SlotOf;
    if n > 0 {
      assert p[n - 1] == p[..n][n - 1] == p'[n - 1];
    }
    forall k: nat | Reach(pool, scope, p', k, n)
      ensures table[SlotOf(nextSlot, Entered(scope, p', k, n))] == Some(p'[k])
    {
      ReachPrefix(pool, scope, p', p, k, n);
    }
    forall i | 0 <= i < SLOTS && table[i].Some? ensures FromReach(pool, scope, p', n, i, table[i].value, nextSlot) {
      assert FromReach(pool, scope, p, n, i, table[i].value, nextSlot);
      var k: nat :| Reach(pool, scope, p, k, n) && table[i].value == p[k]
                    && i == SlotOf(nextSlot, Entered(scope, p, k, n));
      ReachPrefix(pool, scope, p, p', k, n);
    }
  }

  // ------------------------------------------------- what is done again

  /** The name of a variable of the instrument that holds a number. */
  ghost predicate Number(pool: Pool, n: string) {
    n in pool && pool[n] in {InitRate, ControlRate}
  }

  ghost predicate NumberOrLiteral(pool: Pool, o: Operand) {
    o.Name? ==> Number(pool, o.name)
  }

  /** A statement for the init pass, or for the performance pass, that only moves numbers
      or computes with them. */
  ghost predicate InPass(pool: Pool, st: Stmt, init: bool) {
    match st
    case Arith(_, i, out, a, b) =>
      i == init && Number(pool, out) && NumberOrLiteral(pool, a) && NumberOrLiteral(pool, b)
    case Move(i, _, out, a) => i == init && Number(pool, out) && NumberOrLiteral(pool, a)
    case _ => false
  }

  lemma PhaseExactly(pool: Pool, st: Stmt)
    ensures Phase(pool, st) == if InPass(pool, st, true) then 1 else if InPass(pool, st, false) then 2 else 0
  {}

  ghost predicate AllInPass(pool: Pool, p: seq<Stmt>, k: nat, l: nat, init: bool) {
    forall j :: k <= j <= l && j < |p| ==> InPass(pool, p[j], init)
  }

  /** A generated name with one definition in the scope. */
  ghost predicate DefinedOnce(scope: seq<Stmt>, n: string) {
    n != "" && n[0] == '#' && WriteCount(scope, n) == 1
  }

  /** The operation at k is done again at m: from k to the statement behind m there are only
      number statements for one pass; neither the operands nor the result of k are written up
      to m; both results are generated, and the second is read by the statement behind m and
      nowhere else; no more than 64 results that may be kept were defined from k to m. */
  ghost predicate DoneAgain(pool: Pool, scope: seq<Stmt>, p: seq<Stmt>, k: nat, m: nat) {
    && k < m && m + 1 < |p|
    && (AllInPass(pool, p, k, m + 1, true) || AllInPass(pool, p, k, m + 1, false))
    && p[k].Arith? && !p[m].Other?
    && p[m] == Arith(p[k].op, p[k].init, p[m].out, p[k].a, p[k].b)
    && (forall j :: k < j <= m && !p[j].Other? ==>
          p[j].out != p[k].out && Name(p[j].out) !in {p[k].a, p[k].b})
    && DefinedOnce(scope, p[k].out) && DefinedOnce(scope, p[m].out)
    && 0 < ReadCount(scope, p[m].out) == Count(Reads(p[m + 1]), p[m].out)
    && Entered(scope, p, k, m) <= 64
  }

  lemma RepeatsExactly(pool: Pool, scope: seq<Stmt>, p: seq<Stmt>, k: nat, m: nat)
    ensures Repeats(pool, scope, p, k, m) <==> DoneAgain(pool, scope, p, k, m)
  {
    hide Reads, Count, ReadCount, WriteCount, Entered;
    if Repeats(pool, scope, p, k, m) {
      RepeatIsDone(pool, scope, p, k, m);
    } else if DoneAgain(pool, scope, p, k, m) {
      DoneIsRepeat(pool, scope, p, k, m);
    }
  }

  lemma RepeatIsDone(pool: Pool, scope: seq<Stmt>, p: seq<Stmt>, k: nat, m: nat)
    requires Repeats(pool, scope, p, k, m)
    ensures DoneAgain(pool, scope, p, k, m)
  {
    hide Reads, Count, ReadCount, WriteCount, Entered, Phase, InPass;
    var init := Phase(pool, p[k]) == 1;
    assert p[m..][0] == p[m] && p[m..][1] == p[m + 1];
    assert Phase(pool, p[m]) == Phase(pool, p[k]);
    forall j | k <= j <= m + 1 ensures InPass(pool, p[j], init) {
      PhaseExactly(pool, p[j]);
      assert j <= m ==> Phase(pool, p[j]) == Phase(pool, p[k]);
    }
    assert AllInPass(pool, p, k, m + 1, init);
  }

  lemma DoneIsRepeat(pool: Pool, scope: seq<Stmt>, p: seq<Stmt>, k: nat, m: nat)
    requires DoneAgain(pool, scope, p, k, m)
    ensures Repeats(pool, scope, p, k, m)
  {
    hide Reads, Count, ReadCount, WriteCount, Entered, Phase, InPass;
    var init := AllInPass(pool, p, k, m + 1, true);
    forall j | k <= j <= m + 1
      ensures Phase(pool, p[j]) == (if init then 1 else 2) && !p[j].Other?
    {
      PhaseExactly(pool, p[j]);
      OnePassOnly(pool, p[j], init);
    }
    assert p[m..][0] == p[m] && p[m..][1] == p[m + 1];
    assert OnePhase(pool, p, k, m + 1);
  }

  lemma OnePassOnly(pool: Pool, st: Stmt, init: bool)
    requires InPass(pool, st, init)
    ensures !InPass(pool, st, !init) && !st.Other?
  {}

  // ------------------------------------------------------------- the turns

  /** The pass stands at place i of the program as it is by then. */
  datatype Visit = Visit(p: seq<Stmt>, i: nat)

  /** Statement i is dropped, and the next one reads m in place of its result. */
  function Dropped(p: seq<Stmt>, i: nat, m: string): seq<Stmt>
    requires i + 1 < |p| && !p[i].Other?
  {
    p[..i] + [Put(p[i + 1], p[i].out, Name(m))] + p[i + 2..]
  }

  /** A statement that does an operation again is dropped in favour of the result of the
      earlier one; any other is kept.  The counts are those of the scope as it was first. */
  ghost predicate Turn(pool: Pool, scope: seq<Stmt>, v: Visit, v': Visit) {
    && v.i < |v.p|
    && if forall k: nat :: !DoneAgain(pool, scope, v.p, k, v.i) then v' == Visit(v.p, v.i + 1)
       else exists k: nat :: DoneAgain(pool, scope, v.p, k, v.i) && v' == Visit(Dropped(v.p, v.i, v.p[k].out), v.i)
  }

  /** The pass from the scope to its result, turn by turn. */
  ghost predicate Turns(pool: Pool, scope: seq<Stmt>, visits: seq<Visit>, cur: seq<Stmt>) {
    && visits != [] && visits[0] == Visit(scope, 0) && visits[|visits| - 1] == Visit(cur, |cur|)
    && forall n :: 0 < n < |visits| ==> Turn(pool, scope, visits[n - 1], visits[n])
  }

  /** Nothing in the scope is done again. */
  ghost predicate NothingAgain(pool: Pool, scope: seq<Stmt>) {
    forall k, m :: !DoneAgain(pool, scope, scope, k, m)
  }

  lemma {:induction false} UpTo(pool: Pool, scope: seq<Stmt>, visits: seq<Visit>, cur: seq<Stmt>, n: nat)
    requires Turns(pool, scope, visits, cur) && n < |visits|
    ensures || (visits[n] == Visit(scope, n) && forall k, m :: 0 <= m < n ==> !DoneAgain(pool, scope, scope, k, m))
            || (|visits[n].p| < |scope| && !NothingAgain(pool, scope))
  {
    hide DoneAgain;
    if n > 0 {
      UpTo(pool, scope, visits, cur, n - 1);
      var v, v' := visits[n - 1], visits[n];
      assert Turn(pool, scope, v, v');
      if k :| DoneAgain(pool, scope, v.p, k, v.i) {
        NextThere(pool, scope, v.p, k, v.i);
      }
    }
  }

  lemma NextThere(pool: Pool, scope: seq<Stmt>, p: seq<Stmt>, k: nat, m: nat)
    requires DoneAgain(pool, scope, p, k, m)
    ensures k < m && m + 1 < |p| && !p[m].Other? && p[k].Arith?
  {}

  /** A scope comes back as it was exactly if nothing in it is done again. */
  lemma ChangedExactly(pool: Pool, scope: seq<Stmt>, visits: seq<Visit>, cur: seq<Stmt>)
    requires Turns(pool, scope, visits, cur)
    ensures cur == scope <==> NothingAgain(pool, scope)
  {
    hide DoneAgain;
    var n := |visits| - 1;
    UpTo(pool, scope, visits, cur, n);
    if visits[n] == Visit(scope, n) && NothingAgain(pool, scope) {
    } else if visits[n] == Visit(scope, n) {
      var k, m :| DoneAgain(pool, scope, scope, k, m);
      NextThere(pool, scope, scope, k, m);
    }
  }

  lemma KeptTurn(pool: Pool, scope: seq<Stmt>, p: seq<Stmt>, n: nat)
    requires n < |p| && forall k: nat :: !Repeats(pool, scope, p, k, n)
    ensures Turn(pool, scope, Visit(p, n), Visit(p, n + 1))
  {
    hide Repeats, DoneAgain;
    forall k: nat ensures !DoneAgain(pool, scope, p, k, n) {
      RepeatsExactly(pool, scope, p, k, n);
    }
  }

  lemma DroppedTurn(pool: Pool, scope: seq<Stmt>, done: seq<Stmt>, rest: seq<Stmt>, e: Stmt)
    requires |rest| >= 2 && !rest[0].Other? && e.Arith?
    requires exists k: nat :: Repeats(pool, scope, done + rest, k, |done|) && e == (done + rest)[k]
    ensures Turn(pool, scope, Visit(done + rest, |done|), Visit(done + AfterReuse(rest, e.out), |done|))
  {
    hide StillGood, DoneAgain, OnlyNextReads, SameOperation;
    var p, n := done + rest, |done|;
    var k: nat :| Repeats(pool, scope, p, k, n) && e == p[k];
    RepeatsExactly(pool, scope, p, k, n);
    NextThere(pool, scope, p, k, n);
    assert p[..n] == done && p[n] == rest[0] && p[n + 1] == rest[1] && p[n + 2..] == rest[2..];
    assert done + AfterReuse(rest, e.out) == Dropped(p, n, p[k].out);
  }

  /** A statement that is dropped overwrites nothing in the table. */
  lemma NothingKilled(
    pool: Pool, scope: seq<Stmt>, done: seq<Stmt>, rest: seq<Stmt>, table: seq<Option<Stmt>>, nextSlot: nat,
    phase: nat, looked: seq<Option<Stmt>>)
    requires Counted(scope, done, rest) && OnlyNextReads(pool, scope, rest) && !rest[0].Other?
    requires Seen(pool, scope, done + rest, |done|, table, nextSlot, phase) && WalkedOver(table, rest[0], looked)
    ensures looked == table
  {
    hide Phase, OnlyNextReads, Counted, Uses, Kills, StillGood, SlotOf, Entered;
    TwoThere(pool, scope, rest);
    ReuseOccurrences(pool, scope, done, rest);
    forall i | 0 <= i < SLOTS ensures looked[i] == table[i] {
      if table[i].Some? {
        assert FromReach(pool, scope, done + rest, |done|, i, table[i].value, nextSlot);
        var k: nat :| Reach(pool, scope, done + rest, k, |done|) && table[i].value == (done + rest)[k];
        NotKilled(done, k, rest[0].out);
      }
    }
  }

  lemma NotKilled(done: seq<Stmt>, k: nat, n: string)
    requires k < |done| && done[k].Arith? && Uses(done, n) == 0
    ensures !Kills(n, done[k])
  {
    hide Uses;
    UnusedIsFree(done, n);
    assert !Mentions(done[k], n);
  }

  /** The walk over the table for a statement the pass knows. */
  method LookBack(
    available: array<Option<Stmt>>, pool: Pool, node: Stmt, ghost scope: seq<Stmt>, ghost done: seq<Stmt>)
    returns (found: Option<Stmt>)
    requires TableOk(scope, done, available[..]) && Phase(pool, node) != 0
    modifies available
    ensures !node.Other? && WalkedOver(old(available[..]), node, available[..])
    ensures TableOk(scope, done, available[..]) && TableOk(scope, done + [node], available[..])
    ensures found.Some? ==>
              && Some(found.value) in available[..] && found.value.Arith? && SameOperation(node, found.value)
              && EntryOk(scope, done, found.value) && !Kills(node.out, found.value)
    ensures found.None? ==> forall e :: Some(e) in available[..] ==> !SameOperation(node, e)
  {
    hide TableOk, EntryOk, Phase, Kills;
    PhaseShape(pool, node);
    TableArith(scope, done, available[..]);
    ghost var table := available[..];
    found := LookUp(available, node);
    TableKept(scope, done, node, table, available[..]);
    if found.Some? {
      FoundOk(scope, done, node, available[..], found.value);
      var i :| 0 <= i < available.Length && available[i] == found;
    }
  }

  /** A table from another phase has been cleared before the walk. */
  lemma LookedBack(
    pool: Pool, scope: seq<Stmt>, done: seq<Stmt>, node: Stmt, table: seq<Option<Stmt>>, phase: nat,
    cleared: seq<Option<Stmt>>, looked: seq<Option<Stmt>>)
    requires Phase(pool, node) != 0 && !node.Other? && WalkedOver(cleared, node, looked) && |cleared| == |table|
    requires if Phase(pool, node) == phase then cleared == table
             else forall i :: 0 <= i < |cleared| ==> cleared[i] == None
    ensures LookedAt(pool, node, table, phase, looked)
  {
    hide Phase, Kills;
  }

  /** An operation with a generated result that is defined once goes into the next slot. */
  method Keep(
    available: array<Option<Stmt>>, node: Stmt, nextSlot: nat, scope: seq<Stmt>, ghost done: seq<Stmt>)
    returns (next: nat)
    requires nextSlot < SLOTS == available.Length && TableOk(scope, done + [node], available[..]) && !node.Other?
    requires node.Arith? && Generated(node.out) ==> node.out !in Reads(node)
    modifies available
    ensures next < SLOTS && Inserted(scope, node, old(available[..]), nextSlot, available[..], next)
    ensures TableOk(scope, done + [node], available[..])
  {
    hide EntryOk, WriteCount, Reads;
    next := nextSlot;
    if Generated(node.out) && WriteCount(scope, node.out) == 1 && node.Arith? {
      NewEntry(scope, done, node);
      available[nextSlot] := Some(node);
      next := (nextSlot + 1) % SLOTS;
    }
  }

  /** The meaning stays; the pass drops, turn by turn, what does an operation again in the
      program as it is by then, and one statement goes for each temporary removed. */
  method ReuseScalarExpressions(pool: Pool, scope: seq<Stmt>, ghost env: Env)
    returns (cur: seq<Stmt>, ghost gone: set<string>, ghost visits: seq<Visit>)
    requires Fair(env) && NoSelfReads(scope)
    ensures Turns(pool, scope, visits, cur)
    ensures cur == scope <==> NothingAgain(pool, scope)
    ensures |cur| == |scope| - |gone|
    ensures Equivalent(env, scope, cur, gone)
    ensures Free(cur, gone) && forall n <- gone :: Generated(n)
  {
    hide Equivalent, Free, Uses, Fair, Counted, EntryOk, Reads, ReadCount, WriteCount, Seen, Turn;
    hide NothingAgain, Phase, LookedAt, WalkedOver, Inserted, SameOperation, Kills, Repeats, OnlyNextReads, TableOk;
    var available := new Option<Stmt>[SLOTS](_ => None);
    var phase, nextSlot := 0, 0;
    var done, rest := [], scope;
    gone := {};
    EquivalentSelf(env, scope);
    StartCounted(scope);
    StartSeen(pool, scope, available[..]);
    EmptyTable(scope, done, available[..]);
    assert done + rest == scope;
    visits := [Visit(scope, 0)];
    while rest != []
      invariant 0 <= nextSlot < SLOTS == available.Length
      invariant Equivalent(env, scope, done + rest, gone) && Counted(scope, done, rest)
      invariant Free(done + rest, gone) && forall n <- gone :: Generated(n)
      invariant TableOk(scope, done, available[..]) && NoSelfReads(rest)
      invariant Seen(pool, scope, done + rest, |done|, available[..], nextSlot, phase)
      invariant |done| + |rest| == |scope| - |gone|
      invariant visits != [] && visits[0] == Visit(scope, 0) && visits[|visits| - 1] == Visit(done + rest, |done|)
      invariant forall n :: 0 < n < |visits| ==> Turn(pool, scope, visits[n - 1], visits[n])
      decreases |rest|
    {
      var node := rest[0];
      var current := Phase(pool, node);
      ghost var earlier, before, p := available[..], phase, done + rest;
      assert p[|done|] == node && p[|done|..] == rest && (done + [node]) + rest[1..] == p;
      if current == 0 || current != phase {
        forall i | 0 <= i < SLOTS {
          available[i] := None;
        }
        EmptyTable(scope, done, available[..]);
        phase := current;
      }
      if current == 0 {
        EmptyTable(scope, done + [node], available[..]);
        Advance(scope, done, rest);
        SeenUnknown(pool, scope, p, |done|, earlier, nextSlot, before, available[..]);
        KeptTurn(pool, scope, p, |done|);
        done, rest := done + [node], rest[1..];
        visits := visits + [Visit(p, |done|)];
        continue;
      }
      ghost var cleared := available[..];
      var found := LookBack(available, pool, node, scope, done);
      LookedBack(pool, scope, done, node, earlier, before, cleared, available[..]);
      FoundAgain(pool, scope, p, |done|, earlier, nextSlot, before, available[..], found);
      if found.Some? && OnlyNextReads(pool, scope, rest) {
        DropStep(env, pool, scope, done, rest, gone, earlier, nextSlot, before, available[..], found.value);
        gone := gone + {node.out};
        rest := AfterReuse(rest, found.value.out);
        visits := visits + [Visit(done + rest, |done|)];
        continue;
      }
      ghost var looked, slot := available[..], nextSlot;
      assert node in rest;
      nextSlot := Keep(available, node, nextSlot, scope, done);
      KeepStep(pool, scope, done, rest, earlier, slot, before, looked, available[..], nextSlot);
      done, rest := done + [node], rest[1..];
      visits := visits + [Visit(p, |done|)];
    }
    cur := done;
    assert done + rest == done;
    ChangedExactly(pool, scope, visits, cur);
  }

  /** What holds when a statement has been dropped. */
  lemma DropStep(
    env: Env, pool: Pool, scope: seq<Stmt>, done: seq<Stmt>, rest: seq<Stmt>, gone: set<string>,
    table: seq<Option<Stmt>>, nextSlot: nat, phase: nat, looked: seq<Option<Stmt>>, e: Stmt)
    requires Fair(env) && Equivalent(env, scope, done + rest, gone) && Free(done + rest, gone)
    requires Counted(scope, done, rest) && NoSelfReads(rest) && rest != [] && !rest[0].Other?
    requires Seen(pool, scope, done + rest, |done|, table, nextSlot, phase) && Phase(pool, rest[0]) == phase
    requires LookedAt(pool, rest[0], table, phase, looked) && OnlyNextReads(pool, scope, rest)
    requires EntryOk(scope, done, e) && SameOperation(rest[0], e) && e.Arith? && !Kills(rest[0].out, e)
    requires exists k: nat :: Repeats(pool, scope, done + rest, k, |done|) && e == (done + rest)[k]
    ensures |rest| >= 2 && rest[0].out !in gone && Generated(rest[0].out)
    ensures var r, gone' := AfterReuse(rest, e.out), gone + {rest[0].out};
            && Seen(pool, scope, done + r, |done|, looked, nextSlot, phase)
            && Turn(pool, scope, Visit(done + rest, |done|), Visit(done + r, |done|))
            && Equivalent(env, scope, done + r, gone') && Free(done + r, gone')
            && Counted(scope, done, r) && NoSelfReads(r)
  {
    hide Equivalent, Free, Fair, Counted, EntryOk, Reads, Seen, Turn, Phase, LookedAt, SameOperation, Kills;
    hide NoSelfReads;
    TwoThere(pool, scope, rest);
    hide OnlyNextReads;
    SeenAfterDrop(pool, scope, done, rest, table, nextSlot, phase, looked, e);
    DroppedTurn(pool, scope, done, rest, e);
    ReuseStep(env, pool, scope, done, rest, gone, e);
    StillNoSelfReads(pool, scope, done, rest, e);
    StillThere(done, rest, gone);
  }

  /** What holds when one has been kept. */
  lemma KeepStep(
    pool: Pool, scope: seq<Stmt>, done: seq<Stmt>, rest: seq<Stmt>, table: seq<Option<Stmt>>, nextSlot: nat, phase: nat,
    looked: seq<Option<Stmt>>, table': seq<Option<Stmt>>, nextSlot': nat)
    requires rest != [] && Counted(scope, done, rest) && !rest[0].Other? && Phase(pool, rest[0]) != 0
    requires Seen(pool, scope, done + rest, |done|, table, nextSlot, phase)
    requires |looked| == |table'| == SLOTS && nextSlot' < SLOTS && nextSlot < SLOTS
    requires LookedAt(pool, rest[0], table, phase, looked)
    requires Inserted(scope, rest[0], looked, nextSlot, table', nextSlot')
    requires forall k: nat :: !Repeats(pool, scope, done + rest, k, |done|)
    ensures var p, done' := done + rest, done + [rest[0]];
            && done' + rest[1..] == p && Counted(scope, done', rest[1..])
            && Seen(pool, scope, p, |done'|, table', nextSlot', Phase(pool, rest[0]))
            && Turn(pool, scope, Visit(p, |done|), Visit(p, |done'|))
  {
    hide Counted, Seen, Turn, Phase, LookedAt, Inserted, Repeats;
    var p := done + rest;
    assert p[|done|] == rest[0];
    Advance(scope, done, rest);
    SeenOne(pool, scope, p, |done|, table, nextSlot, phase, looked, table', nextSlot');
    KeptTurn(pool, scope, p, |done|);
  }

  lemma EmptyTable(scope: seq<Stmt>, done: seq<Stmt>, table: seq<Option<Stmt>>)
    ensures (forall i :: 0 <= i < |table| ==> table[i] == None) ==> TableOk(scope, done, table)
  {
    hide EntryOk;
  }

  lemma StartSeen(pool: Pool, scope: seq<Stmt>, table: seq<Option<Stmt>>)
    requires |table| == SLOTS && forall i :: 0 <= i < SLOTS ==> table[i] == None
    ensures Seen(pool, scope, scope, 0, table, 0, 0)
  {
    EmptySlots(pool, scope, scope, table);
  }

  lemma SeenAfterDrop(
    pool: Pool, scope: seq<Stmt>, done: seq<Stmt>, rest: seq<Stmt>, table: seq<Option<Stmt>>, nextSlot: nat,
    phase: nat, looked: seq<Option<Stmt>>, e: Stmt)
    requires Counted(scope, done, rest) && OnlyNextReads(pool, scope, rest) && !rest[0].Other? && e.Arith?
    requires Seen(pool, scope, done + rest, |done|, table, nextSlot, phase) && Phase(pool, rest[0]) == phase
    requires LookedAt(pool, rest[0], table, phase, looked)
    ensures Seen(pool, scope, done + AfterReuse(rest, e.out), |done|, looked, nextSlot, phase)
  {
    hide Phase, OnlyNextReads, Counted, Seen, WalkedOver;
    assert |rest| >= 2 by {
      TwoThere(pool, scope, rest);
    }
    NothingKilled(pool, scope, done, rest, table, nextSlot, phase, looked);
    var p, p' := done + rest, done + AfterReuse(rest, e.out);
    assert p[..|done|] == done == p'[..|done|];
    SeenPrefix(pool, scope, p, p', |done|, table, nextSlot, phase);
  }

  lemma TwoThere(pool: Pool, scope: seq<Stmt>, rest: seq<Stmt>)
    requires OnlyNextReads(pool, scope, rest)
    ensures |rest| >= 2
  {}

  lemma StillThere(done: seq<Stmt>, rest: seq<Stmt>, gone: set<string>)
    requires rest != [] && !rest[0].Other? && Free(done + rest, gone)
    ensures rest[0].out !in gone
  {
    assert rest[0] in done + rest && Mentions(rest[0], rest[0].out);
  }

  lemma StartCounted(scope: seq<Stmt>)
    ensures Counted(scope, [], scope) && Free(scope, {})
  {
    assert [] + scope == scope;
  }

  lemma Advance(scope: seq<Stmt>, done: seq<Stmt>, rest: seq<Stmt>)
    requires rest != [] && Counted(scope, done, rest)
    ensures Counted(scope, done + [rest[0]], rest[1..]) && (done + [rest[0]]) + rest[1..] == done + rest
  {
    assert (done + [rest[0]]) + rest[1..] == done + rest;
    forall n | WriteCount(done + [rest[0]], n) == 0 ensures WriteCount(done, n) == 0 {
      UsesAppend(done, [rest[0]], n);
    }
  }

  lemma TableArith(scope: seq<Stmt>, done: seq<Stmt>, table: seq<Option<Stmt>>)
    requires TableOk(scope, done, table)
    ensures forall i :: 0 <= i < |table| && table[i].Some? ==> table[i].value.Arith?
  {
    forall i | 0 <= i < |table| && table[i].Some? ensures table[i].value.Arith? {
      assert EntryOk(scope, done, table[i].value);
    }
  }

  /** The entries a statement leaves are good before it and behind it. */
  lemma TableKept(scope: seq<Stmt>, done: seq<Stmt>, node: Stmt, table: seq<Option<Stmt>>, table': seq<Option<Stmt>>)
    requires TableOk(scope, done, table) && |table'| == |table| && !node.Other?
    requires forall i :: 0 <= i < |table| && table[i].Some? ==> table[i].value.Arith?
    requires forall i :: 0 <= i < |table| ==>
               table'[i] == if table[i].Some? && Kills(node.out, table[i].value) then None else table[i]
    ensures TableOk(scope, done, table') && TableOk(scope, done + [node], table')
  {
    hide EntryOk;
    forall i | 0 <= i < |table'| && table'[i].Some?
      ensures EntryOk(scope, done, table'[i].value) && EntryOk(scope, done + [node], table'[i].value)
    {
      assert EntryOk(scope, done, table[i].value);
      EntryPast(scope, done, node, table[i].value);
    }
  }

  lemma FoundOk(scope: seq<Stmt>, done: seq<Stmt>, node: Stmt, table: seq<Option<Stmt>>, e: Stmt)
    requires TableOk(scope, done, table) && Some(e) in table
    ensures EntryOk(scope, done, e)
  {
    hide EntryOk;
    var i :| 0 <= i < |table| && table[i] == Some(e);
  }

  /** The renamed statement does not read its own result: the earlier one has a
      single definition. */
  lemma StillNoSelfReads(pool: Pool, scope: seq<Stmt>, done: seq<Stmt>, rest: seq<Stmt>, e: Stmt)
    requires NoSelfReads(rest) && MayReuse(pool, scope, done, rest, e) && Counted(scope, done, rest)
    ensures NoSelfReads(AfterReuse(rest, e.out))
  {
    hide Uses, Phase, Generated, Reads, Count, ReadCount, WriteCount;
    var n, use := rest[0].out, rest[1];
    PhaseShape(pool, use);
    EarlierOnce(scope, done, rest, e);
    forall x | x in AfterReuse(rest, e.out) && x.Arith? && Generated(x.out) ensures x.out !in Reads(x) {
      if x == Put(use, n, Name(e.out)) {
        assert use in rest;
        PutReads(use, n, e.out);
      } else {
        assert x in rest;
      }
    }
  }

  lemma EarlierOnce(scope: seq<Stmt>, done: seq<Stmt>, rest: seq<Stmt>, e: Stmt)
    requires Counted(scope, done, rest) && EntryOk(scope, done, e) && |rest| >= 2
    ensures e.Arith? && e.out !in Writes(rest[1])
  {
    hide Uses, Reads, Count, ReadCount, WriteCount;
    var q :| HoldsSince(done, q, e);
    assert e in done;
    WrittenIn(done, e);
    SplitTwo(done, rest, e.out);
    CountZero(Writes(rest[1]), e.out);
  }

  lemma PutReads(st: Stmt, n: string, m: string)
    ensures forall x :: x in Reads(Put(st, n, Name(m))) ==> x in Reads(st) || x == m
  {}

  /** Why generated temporaries must not be computed from themselves: the program
      #k1 = #k1 + kb; #k2 = #k1 + kb; kout = #k2 meets every test of the pass, but
      after the reuse kout has missed one addition. */
  lemma SelfReadBreaksReuse(env: Env)
    requires env.add == ((x: Val, y: Val) => Val(x.bits + y.bits))
    ensures var b, e, node := Name("kb"), Arith(Add, false, "#k1", Name("#k1"), Name("kb")),
                              Arith(Add, false, "#k2", Name("#k1"), Name("kb"));
            var use, pool := Move(false, true, "kout", Name("#k2")),
                             map["#k1" := ControlRate, "#k2" := ControlRate, "kb" := ControlRate,
                                 "kout" := ControlRate];
            var p := [e, node, use];
            && HoldsSince([e], 0, e) && SameOperation(node, e) && !Kills(node.out, e)
            && WriteCount(p, e.out) == 1 && OnlyNextReads(pool, p, [node, use])
            && !Equivalent(env, p, [e] + AfterReuse([node, use], e.out), {"#k2"})
  {
    var e, node := Arith(Add, false, "#k1", Name("#k1"), Name("kb")), Arith(Add, false, "#k2", Name("#k1"), Name("kb"));
    var use := Move(false, true, "kout", Name("#k2"));
    var p, p' := [e, node, use], [e] + AfterReuse([node, use], e.out);
    assert "#k2" != "#k1" && "kb" != "#k1" && "kb" != "#k2" && "kout" != "#k2" && "kout" != "#k1" by {
      assert "#k2"[2] != "#k1"[2] && "kb"[0] != "#k1"[0] && "kout"[0] != "#k1"[0];
    }
    SelfReadCounts(e, node, use);
    assert p' == [e, Move(false, true, "kout", Name("#k1"))];
    SelfReadRuns(env, p, p');
  }

  lemma SelfReadCounts(e: Stmt, node: Stmt, use: Stmt)
    requires e == Arith(Add, false, "#k1", Name("#k1"), Name("kb"))
    requires node == Arith(Add, false, "#k2", Name("#k1"), Name("kb"))
    requires use == Move(false, true, "kout", Name("#k2"))
    requires "#k2" != "#k1" && "kb" != "#k1" && "kb" != "#k2" && "kout" != "#k2" && "kout" != "#k1"
    ensures WriteCount([e, node, use], "#k1") == 1 && WriteCount([e, node, use], "#k2") == 1
    ensures ReadCount([e, node, use], "#k2") == 1 && Count(Reads(use), "#k2") == 1
  {
    forall n ensures WriteCount([e, node, use], n) ==
        Count(Writes(e), n) + Count(Writes(node), n) + Count(Writes(use), n)
             ensures ReadCount([e, node, use], n) == Count(Reads(e), n) + Count(Reads(node), n) + Count(Reads(use), n) {
      assert [e, node, use] == [e] + ([node] + [use]);
      UsesAppend([e], [node] + [use], n);
      UsesAppend([node], [use], n);
      UsesOne(e, n);
      UsesOne(node, n);
      UsesOne(use, n);
    }
    CountAppend(["#k1"], ["kb"], "#k2");
    CountOne("#k1", "#k2");
    CountOne("kb", "#k2");
    CountOne("#k1", "#k1");
    CountOne("#k2", "#k1");
    CountOne("#k2", "#k2");
    CountOne("kout", "#k1");
    CountOne("kout", "#k2");
  }

  lemma SelfReadRuns(env: Env, p: seq<Stmt>, p': seq<Stmt>)
    requires env.add == ((x: Val, y: Val) => Val(x.bits + y.bits))
    requires p == [Arith(Add, false, "#k1", Name("#k1"), Name("kb")), Arith(Add, false, "#k2", Name("#k1"), Name("kb")),
                   Move(false, true, "kout", Name("#k2"))]
    requires p' == [Arith(Add, false, "#k1", Name("#k1"), Name("kb")), Move(false, true, "kout", Name("#k1"))]
    requires "#k2" != "#k1" && "kb" != "#k1" && "kb" != "#k2" && "kout" != "#k2" && "kout" != "#k1"
    ensures !Equivalent(env, p, p', {"#k2"})
  {
    var s: Store := map["#k1" := Val(0), "kb" := Val(1)];
    RunKnown(env, p, false, 0, 3, s, 0);
    RunKnown(env, p', false, 0, 2, s, 0);
    assert p[0..3] == p && p'[0..2] == p';
    assert p[1..][1..] == [p[2]] && p'[1..] == [p'[1]];
    ExecTwo(env, p'[0], p'[1], false, s);
    ExecTwo(env, p[1], p[2], false, Exec(env, p[0], false, s));
    assert p[1..] == [p[1], p[2]];
    var o, o' := RunFrom(env, p, false, 0, s, 0), RunFrom(env, p', false, 0, s, 0);
    assert Get(o.s, "kout") == Val(2) && Get(o'.s, "kout") == Val(1);
    assert AgreeOff({"#k2"}, s, s) && !SameOutcome({"#k2"}, o, o');
  }
}
