/**
 fold_scalar_literals: an init-time operation on two literals whose result is
 used once, further on in the same straight stretch of init-only built-ins, is
 computed at compile time and put in place of that use.
 */
module LiteralFolding {
  import opened Basics
  import opened Resolved
  import opened UseCounts
  import opened CopyRemoval

  /** The literal for the result of an operation on two literals, if the compiler
      can compute it: all three numbers are finite and normal or zero, and the
      spelling reads back as the very same bits. */
  type Folder = (ArithOp, string, string) -> Option<string>

  ghost predicate GoodFolder(env: Env, folder: Folder) {
    forall op, x, y :: folder(op, x, y).Some? ==>
      env.literal(folder(op, x, y).value) == Operate(env, op, env.literal(x), env.literal(y))
  }

  /** A built-in that runs at init time only and only reads its inputs. */
  predicate Safe(st: Stmt) {
    (st.Arith? || st.Move?) && st.init
  }

  // -------------------------------------------------------------- tallies

  /** How a generated init temporary is used: how often, where first and last,
      and in which blocks. */
  datatype LiteralUse = LiteralUse(
    count: nat, first: nat, firstOut: bool, last: nat, firstBlock: nat, lastBlock: nat, input: bool)

  type Tally = map<string, LiteralUse>

  function Tallied(uses: Tally, name: string, at: nat, block: nat, out: bool, input: bool): Tally {
    if !HasPrefix(name, "#i") then uses
    else if name !in uses then uses[name := LiteralUse(1, at, out, at, block, block, input)]
    else uses[name := uses[name].(count := uses[name].count + 1, last := at, lastBlock := block, input := input)]
  }

  function TallyAll(uses: Tally, names: seq<string>, at: nat, block: nat, out: bool, input: bool): Tally
    decreases |names|
  {
    if names == [] then uses
    else
      Tallied(TallyAll(uses, names[..|names| - 1], at, block, out, input), names[|names| - 1], at, block, out, input)
  }

  /** The block a statement is in: an unsafe one is a block of its own. */
  function BlockAt(p: seq<Stmt>, i: nat): nat
    requires i < |p|
  {
    Blocks(p[..i]) + (if Safe(p[i]) then 0 else 1)
  }

  function Blocks(p: seq<Stmt>): nat {
    if p == [] then 0 else Blocks(p[..|p| - 1]) + (if Safe(p[|p| - 1]) then 0 else 2)
  }

  function TallyOf(p: seq<Stmt>): Tally {
    if p == [] then map[]
    else
      var i, st := |p| - 1, p[|p| - 1];
      var outs := TallyAll(TallyOf(p[..i]), Writes(st), i, BlockAt(p, i), true, false);
      TallyAll(outs, Reads(st), i, BlockAt(p, i), false, Safe(st))
  }

  /** An entry tells the truth about the first |p| statements and the first k
      names written and l names read by one more statement. */
  ghost predicate Right(p: seq<Stmt>, u: LiteralUse, n: string) {
    && u.count == Uses(p, n)
    && u.first <= u.last < |p|
    && Uses(p[..u.first], n) == 0 && Uses(p[u.last + 1..], n) == 0
    && Mentions(p[u.first], n) && Mentions(p[u.last], n)
    && (u.firstOut <==> n in Writes(p[u.first]))
    && u.firstBlock == BlockAt(p, u.first) && u.lastBlock == BlockAt(p, u.last)
    && (u.input <==> Safe(p[u.last]) && n in Reads(p[u.last]))
  }

  /** What counting the names of one list does to one entry. */
  lemma {:induction false} TallyAllEntry(
    uses: Tally, names: seq<string>, at: nat, block: nat, out: bool, input: bool, n: string)
    requires HasPrefix(n, "#i")
    ensures var r := TallyAll(uses, names, at, block, out, input);
            if n !in names then (n in r <==> n in uses) && (n in r ==> r[n] == uses[n])
            else
              && n in r && r[n].last == at && r[n].lastBlock == block && r[n].input == input
              && r[n].count == Count(names, n) + (if n in uses then uses[n].count else 0)
              && (if n in uses
                  then r[n].first == uses[n].first && r[n].firstOut == uses[n].firstOut &&
                      r[n].firstBlock == uses[n].firstBlock
                  else r[n].first == at && r[n].firstOut == out && r[n].firstBlock == block)
    decreases |names|
  {
    if names != [] {
      var front, m := names[..|names| - 1], names[|names| - 1];
      TallyAllEntry(uses, front, at, block, out, input, n);
      assert names == front + [m];
      CountAppend(front, [m], n);
      CountOne(m, n);
      CountZero(front, n);
    }
  }

  lemma UsesEnd(front: seq<Stmt>, st: Stmt, n: string)
    ensures Uses(front + [st], n) == Uses(front, n) + Count(Writes(st), n) + Count(Reads(st), n)
  {
    UsesAppend(front, [st], n);
    UsesOne(st, n);
  }

  lemma BlockSame(front: seq<Stmt>, st: Stmt, i: nat)
    requires i < |front|
    ensures BlockAt(front + [st], i) == BlockAt(front, i)
  {
    assert (front + [st])[..i] == front[..i];
  }

  /** The entry stays right past a statement that does not mention the name. */
  lemma NoneMore(p: seq<Stmt>, st: Stmt, n: string)
    requires !Mentions(st, n)
    ensures Uses(p + [st], n) == Uses(p, n)
  {
    CountZero(Writes(st), n);
    CountZero(Reads(st), n);
    UsesEnd(p, st, n);
  }

  lemma RightPast(front: seq<Stmt>, st: Stmt, u: LiteralUse, n: string)
    requires Right(front, u, n) && !Mentions(st, n)
    ensures Right(front + [st], u, n)
  {
    hide Uses, BlockAt, Reads, Writes, Mentions, Count;
    NoneMore(front, st, n);
    NoneMore(front[u.last + 1..], st, n);
    BlockSame(front, st, u.first);
    BlockSame(front, st, u.last);
    assert (front + [st])[..u.first] == front[..u.first];
    assert (front + [st])[u.last + 1..] == front[u.last + 1..] + [st];
  }

  /** The entry after a statement that mentions the name. */
  lemma RightAt(front: seq<Stmt>, st: Stmt, before: Option<LiteralUse>, u: LiteralUse, n: string)
    requires Mentions(st, n)
    requires match before case None => Uses(front, n) == 0 case Some(v) => Right(front, v, n)
    requires u.count == (if before.Some? then before.value.count else 0) + Count(Writes(st), n) + Count(Reads(st), n)
    requires u.last == |front| && u.lastBlock == BlockAt(front + [st], |front|)
    requires u.input <==> n in Reads(st) && Safe(st)
    requires match before
             case Some(v) => u.first == v.first && u.firstOut == v.firstOut && u.firstBlock == v.firstBlock
             case None =>
               u.first == |front| && u.firstBlock == BlockAt(front + [st], |front|) && (u.firstOut <==> n in Writes(st))
    ensures Right(front + [st], u, n)
  {
    var p := front + [st];
    UsesEnd(front, st, n);
    assert p[|front| + 1..] == [];
    if before.Some? {
      BlockSame(front, st, u.first);
      assert p[..u.first] == front[..u.first];
    } else {
      assert p[..|front|] == front;
    }
  }

  /** What the tally makes of one more statement. */
  lemma TallyStep(p: seq<Stmt>, n: string)
    requires p != [] && HasPrefix(n, "#i")
    ensures var front, st := p[..|p| - 1], p[|p| - 1];
            var t, t' := TallyOf(front), TallyOf(p);
            if !Mentions(st, n) then (n in t' <==> n in t) && (n in t ==> t'[n] == t[n])
            else
              && n in t'
              && t'[n].count == (if n in t then t[n].count else 0) + Count(Writes(st), n) + Count(Reads(st), n)
              && t'[n].last == |front| && t'[n].lastBlock == BlockAt(p, |front|)
              && (t'[n].input <==> n in Reads(st) && Safe(st))
              && (n in t ==>
                    && t'[n].first == t[n].first && t'[n].firstOut == t[n].firstOut
                    && t'[n].firstBlock == t[n].firstBlock)
              && (n !in t ==>
                    && t'[n].first == |front| && t'[n].firstBlock == BlockAt(p, |front|)
                    && (t'[n].firstOut <==> n in Writes(st)))
  {
    var i, st := |p| - 1, p[|p| - 1];
    var outs := TallyAll(TallyOf(p[..i]), Writes(st), i, BlockAt(p, i), true, false);
    TallyAllEntry(TallyOf(p[..i]), Writes(st), i, BlockAt(p, i), true, false, n);
    TallyAllEntry(outs, Reads(st), i, BlockAt(p, i), false, Safe(st), n);
    CountZero(Writes(st), n);
    CountZero(Reads(st), n);
  }

  lemma {:induction false} TallyRight(p: seq<Stmt>, n: string)
    requires HasPrefix(n, "#i")
    ensures n in TallyOf(p) <==> Uses(p, n) != 0
    ensures n in TallyOf(p) ==> Right(p, TallyOf(p)[n], n)
    decreases |p|
  {
    if p != [] {
      hide Right, Uses, TallyOf, BlockAt, Mentions;
      var front, st := p[..|p| - 1], p[|p| - 1];
      assert p == front + [st];
      TallyRight(front, n);
      TallyStep(p, n);
      TallyEnds(front, st, n);
      var before := if n in TallyOf(front) then Some(TallyOf(front)[n]) else None;
      if Mentions(st, n) {
        RightAt(front, st, before, TallyOf(p)[n], n);
      } else if n in TallyOf(front) {
        RightPast(front, st, TallyOf(front)[n], n);
      }
    } else {
      assert TallyOf(p) == map[] && Uses(p, n) == 0;
    }
  }

  lemma TallyEnds(front: seq<Stmt>, st: Stmt, n: string)
    ensures Uses(front + [st], n) == Uses(front, n) + Count(Writes(st), n) + Count(Reads(st), n)
    ensures Mentions(st, n) <==> Count(Writes(st), n) + Count(Reads(st), n) != 0
  {
    UsesEnd(front, st, n);
    CountZero(Writes(st), n);
    CountZero(Reads(st), n);
  }

  lemma {:induction false} BlocksGrow(p: seq<Stmt>, q: nat, l: nat)
    requires q <= l <= |p|
    ensures Blocks(p[..q]) <= Blocks(p[..l])
    ensures forall i :: q <= i < l && !Safe(p[i]) ==> Blocks(p[..q]) + 2 <= Blocks(p[..l])
    decreases l
  {
    if q < l {
      assert p[..l][..l - 1] == p[..l - 1];
      BlocksGrow(p, q, l - 1);
    }
  }

  /** An operation or an assignment of the init pass. */
  ghost predicate InitWork(st: Stmt) {
    match st
    case Arith(_, init, _, _, _) => init
    case Move(init, _, _, _) => init
    case _ => false
  }

  /** One definition and one later read, with only such statements from the one to the
      other. */
  ghost predicate OneUse(p: seq<Stmt>, q: nat, l: nat, n: string) {
    && q < l < |p|
    && (forall i :: q <= i <= l ==> InitWork(p[i]))
    && Count(Writes(p[q]), n) == 1 && Count(Reads(p[l]), n) == 1 && Uses(p, n) == 2
  }

  /** The tests of the pass on the record of a temporary. */
  predicate Passes(uses: Tally, q: nat, n: string) {
    && n in uses && uses[n].count == 2 && uses[n].first == q && uses[n].firstOut && uses[n].input
    && uses[n].firstBlock == uses[n].lastBlock
  }

  /** They are passed exactly when there is one later use in the same straight stretch. */
  lemma FoldableExactly(p: seq<Stmt>, q: nat, n: string)
    requires q < |p| && HasPrefix(n, "#i") && n !in Reads(p[q])
    ensures Passes(TallyOf(p), q, n) <==> exists l :: OneUse(p, q, l, n)
    ensures Passes(TallyOf(p), q, n) ==> OneUse(p, q, TallyOf(p)[n].last, n)
  {
    hide TallyOf, Uses, HasPrefix, OneUse, Right;
    TallyRight(p, n);
    if Passes(TallyOf(p), q, n) {
      OneUseRead(p, q, n, TallyOf(p)[n]);
    }
    if l :| OneUse(p, q, l, n) {
      UsedTwice(p, q, l, n);
      UseRecorded(p, q, l, n, TallyOf(p)[n]);
    }
  }

  lemma UsedTwice(p: seq<Stmt>, q: nat, l: nat, n: string)
    requires OneUse(p, q, l, n)
    ensures Uses(p, n) == 2 && forall i :: q <= i <= l ==> Safe(p[i])
  {
    hide Uses;
    forall i | q <= i <= l ensures Safe(p[i]) {
      assert InitWork(p[i]);
    }
  }

  lemma OneUseRead(p: seq<Stmt>, q: nat, n: string, u: LiteralUse)
    requires Right(p, u, n) && q < |p| && n !in Reads(p[q])
    requires u.count == 2 && u.first == q && u.firstOut && u.input && u.firstBlock == u.lastBlock
    ensures OneUse(p, q, u.last, n)
  {
    hide Uses, BlockAt, Count, Reads, Writes;
    CountsOfTwo(p, q, u.last, n);
    SafeBetween(p, q, u.last);
  }

  /** The record of a temporary with one use. */
  lemma UseRecorded(p: seq<Stmt>, q: nat, l: nat, n: string, u: LiteralUse)
    requires OneUse(p, q, l, n) && Right(p, u, n) && n !in Reads(p[q])
    ensures u.count == 2 && u.first == q && u.firstOut && u.last == l && u.input && u.firstBlock == u.lastBlock
  {
    hide BlockAt, Uses, Count, Reads, Writes, Safe;
    OnlyThere(p, q, l, n, u.first);
    OnlyThere(p, q, l, n, u.last);
    CountZero(Writes(p[q]), n);
    CountZero(Reads(p[l]), n);
    UsedWithin(p, u.first, n, q);
    UsedAfter(p, u.last, n, l);
    UsedTwice(p, q, l, n);
    SameBlock(p, q, l);
  }

  lemma UsesAround(p: seq<Stmt>, q: nat, l: nat, n: string)
    requires OneUse(p, q, l, n)
    ensures Uses(p[..q], n) == Uses(p[q + 1..l], n) == Uses(p[l + 1..], n) == 0
  {
    hide ReadCount, WriteCount, Count, Reads, Writes, Safe;
    UsesAt(p, l, n);
    UsesAt(p[..l], q, n);
    assert p[..l][..q] == p[..q] && p[..l][q + 1..] == p[q + 1..l];
  }

  /** A temporary that occurs once at q and once at l occurs nowhere else. */
  lemma OnlyThere(p: seq<Stmt>, q: nat, l: nat, n: string, k: nat)
    requires OneUse(p, q, l, n) && k < |p| && Mentions(p[k], n)
    ensures k == q || k == l
  {
    UsesAround(p, q, l, n);
    hide Uses, Mentions, OneUse, BlockAt;
    if k < q {
      assert p[..q][k] == p[k];
      MentionCounts(p[..q], k, n);
    } else if q < k < l {
      assert p[q + 1..l][k - q - 1] == p[k];
      MentionCounts(p[q + 1..l], k - q - 1, n);
    } else if l < k {
      assert p[l + 1..][k - l - 1] == p[k];
      MentionCounts(p[l + 1..], k - l - 1, n);
    }
  }

  lemma MentionCounts(p: seq<Stmt>, k: nat, n: string)
    requires k < |p| && Mentions(p[k], n)
    ensures Uses(p, n) > 0
  {
    UsesAt(p, k, n);
    CountZero(Reads(p[k]), n);
    CountZero(Writes(p[k]), n);
  }

  lemma UsedWithin(p: seq<Stmt>, first: nat, n: string, q: nat)
    requires first <= |p| && Uses(p[..first], n) == 0 && q < |p| && Mentions(p[q], n)
    ensures first <= q
  {
    if q < first {
      assert p[..first][q] == p[q];
      MentionCounts(p[..first], q, n);
    }
  }

  lemma UsedAfter(p: seq<Stmt>, last: nat, n: string, l: nat)
    requires last < |p| && Uses(p[last + 1..], n) == 0 && l < |p| && Mentions(p[l], n)
    ensures l <= last
  {
    if last < l {
      assert p[last + 1..][l - last - 1] == p[l];
      MentionCounts(p[last + 1..], l - last - 1, n);
    }
  }

  /** Safe statements one after the other are of one block. */
  lemma {:induction false} SameBlock(p: seq<Stmt>, q: nat, l: nat)
    requires q <= l < |p| && forall i :: q <= i <= l ==> Safe(p[i])
    ensures BlockAt(p, q) == BlockAt(p, l)
    decreases l
  {
    if q < l {
      SameBlock(p, q, l - 1);
      assert p[..l][..l - 1] == p[..l - 1];
    }
  }

  lemma CountsOfTwo(p: seq<Stmt>, q: nat, l: nat, n: string)
    requires q < |p| && l < |p| && Uses(p, n) == 2 && n in Writes(p[q]) && n in Reads(p[l])
    ensures Count(Writes(p[q]), n) == 1 && Count(Reads(p[l]), n) == 1
  {
    UsesAt(p, q, n);
    UsesAt(p, l, n);
    CountZero(Writes(p[q]), n);
    CountZero(Reads(p[l]), n);
  }

  /** Two statements of one block have only safe statements between them. */
  lemma SafeBetween(p: seq<Stmt>, q: nat, l: nat)
    requires q < l < |p| && BlockAt(p, q) == BlockAt(p, l)
    ensures forall i :: q <= i <= l ==> Safe(p[i])
  {
    BlocksGrow(p, q, l);
  }

  // ------------------------------------------------------------ rewriting

  function PutOperand(o: Operand, n: string, v: Operand): Operand {
    if o == Name(n) then v else o
  }

  /** The statement with v read in place of n. */
  function Put(st: Stmt, n: string, v: Operand): Stmt {
    match st
    case Arith(op, init, out, a, b) => Arith(op, init, out, PutOperand(a, n, v), PutOperand(b, n, v))
    case Move(init, assignment, out, a) => Move(init, assignment, out, PutOperand(a, n, v))
    case _ => st
  }

  lemma PutEffect(env: Env, st: Stmt, n: string, v: Operand, initPass: bool, s: Store, s': Store)
    requires (st.Arith? || st.Move?) && st.out != n && AgreeOff({n}, s, s')
    requires initPass == st.init ==> Get(s, n) == Eval(env, v, s') && n !in OperandNames(v)
    ensures AgreeOff({n}, Exec(env, st, initPass, s), Exec(env, Put(st, n, v), initPass, s'))
  {
    forall o: Operand | initPass == st.init ensures Eval(env, o, s) == Eval(env, PutOperand(o, n, v), s') {
      if o != Name(n) {
        SameOperand(env, o, s, s', n);
      }
    }
  }

  lemma OperandCount(o: Operand, n: string)
    ensures Count(OperandNames(o), n) == One(o == Name(n))
  {
    if o.Name? {
      CountOne(o.name, n);
    }
  }

  lemma PutOperandCount(o: Operand, n: string, v: Operand, m: string)
    requires v != Name(m)
    ensures Count(OperandNames(PutOperand(o, n, v)), m) == if m == n then 0 else Count(OperandNames(o), m)
  {
    OperandCount(o, m);
    OperandCount(PutOperand(o, n, v), m);
  }

  /** Reads after the exchange, of any name but the one put in. */
  lemma PutCounts(st: Stmt, n: string, v: Operand, m: string)
    requires (st.Arith? || st.Move?) && v != Name(m)
    ensures Writes(Put(st, n, v)) == Writes(st)
    ensures Count(Reads(Put(st, n, v)), m) == if m == n then 0 else Count(Reads(st), m)
  {
    PutOperandCount(st.a, n, v, m);
    if st.Arith? {
      PutOperandCount(st.b, n, v, m);
      CountAppend(OperandNames(st.a), OperandNames(st.b), m);
      CountAppend(OperandNames(PutOperand(st.a, n, v)), OperandNames(PutOperand(st.b, n, v)), m);
    }
  }

  /** Past the definition, with the temporary holding the value of the literal. */
  lemma {:induction false} MidEffect(
    env: Env, mid: seq<Stmt>, use: Stmt, n: string, v: Operand, initPass: bool, s: Store, s': Store)
    requires v.Literal? && AgreeOff({n}, s, s') && (initPass ==> Get(s, n) == env.literal(v.text))
    requires (forall st :: st in mid ==> Safe(st)) && Safe(use) && use.out != n && Free(mid, {n})
    ensures AgreeOff({n}, ExecAll(env, mid + [use], initPass, s), ExecAll(env, mid + [Put(use, n, v)], initPass, s'))
  {
    if mid == [] {
      assert mid + [use] == [use] && mid + [Put(use, n, v)] == [Put(use, n, v)];
      ExecOne(env, use, initPass, s);
      ExecOne(env, Put(use, n, v), initPass, s');
      PutEffect(env, use, n, v, initPass, s, s');
    } else {
      var st := mid[0];
      assert (mid + [use])[1..] == mid[1..] + [use] && (mid + [Put(use, n, v)])[1..] == mid[1..] + [Put(use, n, v)];
      assert st in mid && Safe(st) && !Mentions(st, n);
      ExecAgrees(env, st, initPass, s, s', {n});
      MidEffect(env, mid[1..], use, n, v, initPass, Exec(env, st, initPass, s), Exec(env, st, initPass, s'));
    }
  }

  lemma FoldEffect(env: Env, node: Stmt, mid: seq<Stmt>, use: Stmt, v: Operand)
    requires node.Arith? && node.init && node.a.Literal? && node.b.Literal? && v.Literal?
    requires env.literal(v.text) == Operate(env, node.op, env.literal(node.a.text), env.literal(node.b.text))
    requires (forall st :: st in mid ==> Safe(st)) && Safe(use) && use.out != node.out && Free(mid, {node.out})
    ensures SameEffect(env, [node] + mid + [use], mid + [Put(use, node.out, v)], {node.out})
  {
    var n := node.out;
    var x, x' := [node] + mid + [use], mid + [Put(use, n, v)];
    assert x[1..] == mid + [use];
    forall initPass: bool, s: Store, s': Store | AgreeOff({n}, s, s')
      ensures AgreeOff({n}, ExecAll(env, x, initPass, s), ExecAll(env, x', initPass, s'))
    {
      MidEffect(env, mid, use, n, v, initPass, Exec(env, node, initPass, s), s');
    }
  }

  // ------------------------------------------------------------- the pass

  ghost predicate LikeOperand(o: Operand, o0: Operand, gone: set<string>) {
    o == o0 || (o0.Name? && o0.name in gone && o.Literal?)
  }

  /** The statement with some removed temporaries replaced by literals. */
  ghost predicate Like(st: Stmt, st0: Stmt, gone: set<string>) {
    match st0
    case Arith(op, init, out, a, b) =>
      st.Arith? && st.op == op && st.init == init && st.out == out && LikeOperand(st.a, a, gone) &&
          LikeOperand(st.b, b, gone)
    case Move(init, assignment, out, a) =>
      st.Move? && st.init == init && st.assignment == assignment && st.out == out && LikeOperand(st.a, a, gone)
    case _ => st == st0
  }

  /** What has not been looked at yet is still there, statement by statement. */
  ghost predicate Aligned(rest: seq<Stmt>, scope: seq<Stmt>, gone: set<string>) {
    |rest| <= |scope| && forall d :: 0 <= d < |rest| ==> Like(rest[d], scope[|scope| - |rest| + d], gone)
  }

  lemma LikeCounts(st: Stmt, st0: Stmt, gone: set<string>, n: string)
    requires Like(st, st0, gone) && n !in gone
    ensures Count(Reads(st), n) == Count(Reads(st0), n) && Writes(st) == Writes(st0)
    ensures Safe(st) == Safe(st0)
  {
    forall o: Operand ensures Count(OperandNames(o), n) == One(o == Name(n)) {
      if o.Name? {
        CountOne(o.name, n);
      }
    }
    if st0.Arith? {
      CountAppend(OperandNames(st.a), OperandNames(st.b), n);
      CountAppend(OperandNames(st0.a), OperandNames(st0.b), n);
    }
  }

  /** The statement may be folded away into the read at distance d. */
  ghost predicate Folds(scope: seq<Stmt>, rest: seq<Stmt>, d: nat, v: Operand, env: Env) {
    && 0 < d < |rest| <= |scope| && rest[0].Arith? && rest[0].init && rest[0].a.Literal? && rest[0].b.Literal?
    && v.Literal? && HasPrefix(rest[0].out, "#i")
    && env.literal(v.text) == Operate(env, rest[0].op, env.literal(rest[0].a.text), env.literal(rest[0].b.text))
    && OneUse(scope, |scope| - |rest|, |scope| - |rest| + d, rest[0].out)
  }

  function AfterFold(rest: seq<Stmt>, d: nat, v: Operand): seq<Stmt>
    requires 0 < d < |rest| && rest[0].Arith?
  {
    rest[1..d] + [Put(rest[d], rest[0].out, v)] + rest[d + 1..]
  }

  /** Where the temporary occurs: in the definition, in the read, nowhere else. */
  lemma FoldOccurrences(
    scope: seq<Stmt>, done: seq<Stmt>, rest: seq<Stmt>, gone: set<string>, d: nat, v: Operand, env: Env)
    requires Folds(scope, rest, d, v, env) && Aligned(rest, scope, gone) && Free(done + rest, gone)
    requires Uses(done + rest, rest[0].out) <= Uses(scope, rest[0].out)
    ensures var n := rest[0].out;
            && n !in gone && Uses(done, n) == Uses(rest[1..d], n) == Uses(rest[d + 1..], n) == 0
            && Safe(rest[d]) && rest[d].out != n && (forall st :: st in rest[1..d] ==> Safe(st))
  {
    hide Uses, Like, Free, Reads, Safe;
    var n, q := rest[0].out, |scope| - |rest|;
    NotGone(done, rest, gone);
    LikeCounts(rest[d], scope[q + d], gone, n);
    SplitUses(done, rest, d, n);
    CountOne(n, n);
    CountZero(Writes(rest[d]), n);
    UsedTwice(scope, q, q + d, n);
    SafeAlong(scope, rest, gone, d);
  }

  lemma NotGone(done: seq<Stmt>, rest: seq<Stmt>, gone: set<string>)
    requires rest != [] && Free(done + rest, gone) && rest[0].Arith?
    ensures rest[0].out !in gone
  {
    assert rest[0] in done + rest && Mentions(rest[0], rest[0].out);
  }

  lemma SafeAlong(scope: seq<Stmt>, rest: seq<Stmt>, gone: set<string>, d: nat)
    requires 0 < d < |rest| <= |scope| && Aligned(rest, scope, gone)
    requires forall i :: |scope| - |rest| <= i <= |scope| - |rest| + d ==> Safe(scope[i])
    ensures Safe(rest[d]) && forall st :: st in rest[1..d] ==> Safe(st)
  {
    forall e | 0 < e <= d ensures Safe(rest[e]) {
      assert Like(rest[e], scope[|scope| - |rest| + e], gone);
    }
  }

  lemma SplitUses(done: seq<Stmt>, rest: seq<Stmt>, d: nat, n: string)
    requires 0 < d < |rest|
    ensures Uses(done + rest, n) ==
            Uses(done, n) + Count(Writes(rest[0]), n) + Count(Reads(rest[0]), n) + Uses(rest[1..d], n)
            + Count(Writes(rest[d]), n) + Count(Reads(rest[d]), n) + Uses(rest[d + 1..], n)
  {
    UsesAppend(done, rest, n);
    UsesAt(rest, d, n);
    UsesAt(rest[..d], 0, n);
    assert rest[..d][1..] == rest[1..d] && rest[..d][..0] == [];
  }

  lemma FoldAligned(scope: seq<Stmt>, rest: seq<Stmt>, gone: set<string>, d: nat, v: Operand)
    requires 0 < d < |rest| && rest[0].Arith? && Aligned(rest, scope, gone) && v.Literal?
    ensures Aligned(AfterFold(rest, d, v), scope, gone + {rest[0].out})
  {
    var r, q := AfterFold(rest, d, v), |scope| - |rest|;
    forall e | 0 <= e < |r| ensures Like(r[e], scope[|scope| - |r| + e], gone + {rest[0].out}) {
      assert Like(rest[e + 1], scope[q + e + 1], gone);
    }
  }

  lemma FoldUses(done: seq<Stmt>, rest: seq<Stmt>, d: nat, v: Operand, n: string)
    requires 0 < d < |rest| && rest[0].Arith? && v.Literal? && (rest[d].Arith? || rest[d].Move?)
    requires rest[0].a.Literal? && rest[0].b.Literal?
    ensures Uses(done + AfterFold(rest, d, v), n) <= Uses(done + rest, n)
    ensures n == rest[0].out ==>
              Uses(done + AfterFold(rest, d, v), n) ==
              Uses(done, n) + Uses(rest[1..d], n) + Count(Writes(rest[d]), n) + Uses(rest[d + 1..], n)
  {
    var st := Put(rest[d], rest[0].out, v);
    SplitUses(done, rest, d, n);
    UsesAppend(done, AfterFold(rest, d, v), n);
    UsesOfOne(rest[1..d], st, rest[d + 1..], n);
    UsesOne(st, n);
    PutCounts(rest[d], rest[0].out, v, n);
  }

  lemma FoldStep(env: Env, scope: seq<Stmt>, done: seq<Stmt>, rest: seq<Stmt>, gone: set<string>, d: nat, v: Operand)
    requires Fair(env) && Equivalent(env, scope, done + rest, gone) && Free(done + rest, gone)
    requires forall n :: Uses(done + rest, n) <= Uses(scope, n)
    requires Folds(scope, rest, d, v, env) && Aligned(rest, scope, gone)
    ensures var n, r := rest[0].out, AfterFold(rest, d, v);
            && Generated(n) && Equivalent(env, scope, done + r, gone + {n}) && Free(done + r, gone + {n})
            && Aligned(r, scope, gone + {n})
            && forall m :: Uses(done + r, m) <= Uses(scope, m)
  {
    hide Equivalent, Uses, Free, SameEffect, Fair, Known, Aligned, OneUse;
    var n, node, use := rest[0].out, rest[0], rest[d];
    var mid, post, r := rest[1..d], rest[d + 1..], AfterFold(rest, d, v);
    FoldOccurrences(scope, done, rest, gone, d, v, env);
    FoldAligned(scope, rest, gone, d, v);
    CountZero(Writes(use), n);
    forall m ensures Uses(done + r, m) <= Uses(done + rest, m) {
      FoldUses(done, rest, d, v, m);
    }
    FoldUses(done, rest, d, v, n);
    UnusedIsFree(done, n);
    UnusedIsFree(mid, n);
    UnusedIsFree(post, n);
    StillFree(done + rest, done + r, gone, n);
    FoldEffect(env, node, mid, use, v);
    SafeKnown([node] + mid + [use]);
    SafeKnown(mid + [Put(use, n, v)]);
    Replace(env, done, [node] + mid + [use], mid + [Put(use, n, v)], post, {n});
    assert done + rest == done + ([node] + mid + [use]) + post;
    assert done + r == done + (mid + [Put(use, n, v)]) + post;
    assert n[0] == "#i"[0];
    EquivalentTrans(env, scope, done + rest, done + r, gone, {n});
  }

  lemma SafeKnown(p: seq<Stmt>)
    requires forall st :: st in p ==> Safe(st)
    ensures Known(p)
  {}

  predicate InitLocal(pool: Pool, n: string) {
    LocalOf(pool, n, InitRate)
  }

  /** The result of the operation as a literal, if the pass may fold it. */
  function FoldedTo(pool: Pool, folder: Folder, uses: Tally, node: Stmt, q: nat): Option<string> {
    if node.Arith? && node.init && node.a.Literal? && node.b.Literal? && Passes(uses, q, node.out)
       && InitLocal(pool, node.out)
    then folder(node.op, node.a.text, node.b.text)
    else None
  }

  /** An init-time operation on two literals that the compiler can compute, put into an
      init-rate temporary of the instrument that is used once, further on in the same straight
      stretch. */
  ghost predicate MayGo(pool: Pool, folder: Folder, scope: seq<Stmt>, st: Stmt, q: nat) {
    && st.Arith? && st.init && st.a.Literal? && st.b.Literal? && folder(st.op, st.a.text, st.b.text).Some?
    && "#i" <= st.out && st.out in pool && pool[st.out] == InitRate && exists l :: OneUse(scope, q, l, st.out)
  }

  /** Each of these statements stood at its place of the scope when it could not be
      folded away. */
  ghost predicate KeptAt(
    pool: Pool, folder: Folder, scope: seq<Stmt>, cur: seq<Stmt>, places: seq<nat>, below: nat)
  {
    && |places| == |cur|
    && (forall k :: 0 <= k < |cur| ==> places[k] < below && !MayGo(pool, folder, scope, cur[k], places[k]))
    && (forall k, l :: 0 <= k < l < |cur| ==> places[k] < places[l])
  }

  ghost predicate AllFolded(pool: Pool, folder: Folder, scope: seq<Stmt>, cur: seq<Stmt>) {
    exists places :: KeptAt(pool, folder, scope, cur, places, |scope|)
  }

  /** The meaning stays, and nothing that could be folded is left. */
  method FoldScalarLiterals(pool: Pool, folder: Folder, scope: seq<Stmt>, ghost env: Env)
    returns (cur: seq<Stmt>, ghost gone: set<string>)
    requires Fair(env) && GoodFolder(env, folder)
    ensures AllFolded(pool, folder, scope, cur) && |cur| == |scope| - |gone|
    ensures Equivalent(env, scope, cur, gone)
    ensures Free(cur, gone) && forall n <- gone :: Generated(n)
    ensures NoSelfReads(scope) ==> NoSelfReads(cur)
  {
    hide NoSelfReads;
    hide Equivalent, Free, Uses, Aligned, Fair, GoodFolder, OneUse, TallyOf, KeptAt, FoldedTo, MayGo;
    var uses := TallyOf(scope);
    var done, rest := [], scope;
    ghost var places: seq<nat> := [];
    NothingKept(pool, folder, scope);
    gone := {};
    EquivalentSelf(env, scope);
    AlignedSelf(scope);
    assert done + rest == scope;
    while rest != []
      invariant Equivalent(env, scope, done + rest, gone) && Aligned(rest, scope, gone)
      invariant Free(done + rest, gone) && forall n <- gone :: Generated(n)
      invariant forall n :: Uses(done + rest, n) <= Uses(scope, n)
      invariant NoSelfReads(scope) ==> NoSelfReads(done + rest)
      invariant |done| + |rest| == |scope| - |gone|
      invariant |rest| <= |scope| && KeptAt(pool, folder, scope, done, places, |scope| - |rest|)
      decreases |rest|
    {
      var node := rest[0];
      var text := FoldedTo(pool, folder, uses, node, |scope| - |rest|);
      if text.Some? {
        MayFold(pool, folder, uses, node, |scope| - |rest|);
        ghost var n := node.out;
        var v, l := Literal(false, text.value), uses[node.out].last;
        TallyPrefix(scope, n);
        NodeFolds(scope, done, rest, gone);
        GoodFold(env, folder, scope, rest, v, uses[node.out].last, gone);
        FoldStep(env, scope, done, rest, gone, l - (|scope| - |rest|), v);
        FoldNoSelfReads(done, rest, l - (|scope| - |rest|), v);
        NotGone(done, rest, gone);
        gone := gone + {n};
        KeptHigher(pool, folder, scope, done, places, |scope| - |rest|);
        rest := AfterFold(rest, l - (|scope| - |rest|), v);
      } else {
        ghost var before, was := done + rest, rest;
        NodeStays(pool, folder, scope, done, rest, gone);
        KeptMore(pool, folder, scope, done, places, node, |scope| - |rest|);
        places := places + [|scope| - |rest|];
        done, rest := done + [node], rest[1..];
        assert done + rest == before;
        RestAligned(was, scope, gone);
      }
    }
    cur := done;
    assert done + rest == done;
  }

  lemma MayFold(pool: Pool, folder: Folder, uses: Tally, node: Stmt, q: nat)
    requires FoldedTo(pool, folder, uses, node, q).Some?
    ensures node.Arith? && node.init && node.a.Literal? && node.b.Literal? && Passes(uses, q, node.out)
    ensures FoldedTo(pool, folder, uses, node, q) == folder(node.op, node.a.text, node.b.text)
  {}

  lemma NothingKept(pool: Pool, folder: Folder, scope: seq<Stmt>)
    ensures KeptAt(pool, folder, scope, [], [], 0)
  {}

  lemma KeptHigher(pool: Pool, folder: Folder, scope: seq<Stmt>, cur: seq<Stmt>, places: seq<nat>, below: nat)
    requires KeptAt(pool, folder, scope, cur, places, below)
    ensures KeptAt(pool, folder, scope, cur, places, below + 1)
  {}

  lemma KeptMore(
    pool: Pool, folder: Folder, scope: seq<Stmt>, cur: seq<Stmt>, places: seq<nat>, node: Stmt, q: nat)
    requires KeptAt(pool, folder, scope, cur, places, q) && !MayGo(pool, folder, scope, node, q)
    ensures KeptAt(pool, folder, scope, cur + [node], places + [q], q + 1)
  {}

  /** Folding only takes reads away. */
  lemma FoldNoSelfReads(done: seq<Stmt>, rest: seq<Stmt>, d: nat, v: Operand)
    requires 0 < d < |rest| && rest[0].Arith? && v.Literal?
    ensures NoSelfReads(done + rest) ==> NoSelfReads(done + AfterFold(rest, d, v))
  {
    if NoSelfReads(done + rest) {
      var p, st := done + rest, Put(rest[d], rest[0].out, v);
      forall x | x in done + AfterFold(rest, d, v) && x.Arith? && Generated(x.out) ensures x.out !in Reads(x) {
        if x in p {
        } else {
          assert x == st && rest[d] in p;
        }
      }
    }
  }

  lemma AlignedSelf(scope: seq<Stmt>)
    ensures Aligned(scope, scope, {}) && Free(scope, {})
  {}

  lemma GoodFold(env: Env, folder: Folder, scope: seq<Stmt>, rest: seq<Stmt>, v: Operand, l: nat, gone: set<string>)
    requires GoodFolder(env, folder) && rest != [] && Aligned(rest, scope, gone) && v.Literal?
    requires rest[0].Arith? && rest[0].init && rest[0].a.Literal? && rest[0].b.Literal? && HasPrefix(rest[0].out, "#i")
    requires folder(rest[0].op, rest[0].a.text, rest[0].b.text) == Some(v.text)
    requires |rest| <= |scope| && OneUse(scope, |scope| - |rest|, l, rest[0].out)
    ensures l > |scope| - |rest| && Folds(scope, rest, l - (|scope| - |rest|), v, env)
  {}

  /** The tally has entries for generated init temporaries only. */
  lemma {:induction false} TallyPrefix(p: seq<Stmt>, n: string)
    requires n in TallyOf(p)
    ensures HasPrefix(n, "#i")
    decreases |p|
  {
    var i, st := |p| - 1, p[|p| - 1];
    if n !in TallyOf(p[..i]) {
      AllPrefix(TallyOf(p[..i]), Writes(st), i, BlockAt(p, i), true, false, n);
      AllPrefix(TallyAll(TallyOf(p[..i]), Writes(st), i, BlockAt(p, i), true, false), Reads(st), i, BlockAt(p, i),
                false, Safe(st), n);
    } else {
      TallyPrefix(p[..i], n);
    }
  }

  lemma {:induction false} AllPrefix(
    uses: Tally, names: seq<string>, at: nat, block: nat, out: bool, input: bool, n: string)
    ensures n in TallyAll(uses, names, at, block, out, input) && n !in uses ==> HasPrefix(n, "#i")
    decreases |names|
  {
    if names != [] {
      AllPrefix(uses, names[..|names| - 1], at, block, out, input, n);
    }
  }

  /** An operation on literals does not read its own result, nor did it when its operands
      were temporaries that have gone. */
  lemma NoOwnRead(scope: seq<Stmt>, done: seq<Stmt>, rest: seq<Stmt>, gone: set<string>)
    requires rest != [] && Aligned(rest, scope, gone) && Free(done + rest, gone)
    requires rest[0].Arith? && rest[0].a.Literal? && rest[0].b.Literal?
    ensures rest[0].out !in Reads(scope[|scope| - |rest|])
  {
    hide Free, Uses;
    var q, n := |scope| - |rest|, rest[0].out;
    NotGone(done, rest, gone);
    assert Like(rest[0], scope[q + 0], gone);
    LikeCounts(rest[0], scope[q], gone, n);
    CountZero(Reads(scope[q]), n);
    CountZero(Reads(rest[0]), n);
  }

  lemma NodeFolds(scope: seq<Stmt>, done: seq<Stmt>, rest: seq<Stmt>, gone: set<string>)
    requires rest != [] && Aligned(rest, scope, gone) && Free(done + rest, gone)
    requires rest[0].Arith? && rest[0].a.Literal? && rest[0].b.Literal? && HasPrefix(rest[0].out, "#i")
    requires Passes(TallyOf(scope), |scope| - |rest|, rest[0].out)
    ensures OneUse(scope, |scope| - |rest|, TallyOf(scope)[rest[0].out].last, rest[0].out)
  {
    RestShorter(rest, scope, gone);
    hide Free, TallyOf, Uses, Aligned, OneUse, Passes, Reads, HasPrefix;
    var q := |scope| - |rest|;
    NoOwnRead(scope, done, rest, gone);
    FoldableExactly(scope, q, rest[0].out);
  }

  lemma RestShorter(rest: seq<Stmt>, scope: seq<Stmt>, gone: set<string>)
    requires Aligned(rest, scope, gone)
    ensures |rest| <= |scope|
  {}

  lemma FoldedWhenPassed(pool: Pool, folder: Folder, uses: Tally, node: Stmt, q: nat)
    requires node.Arith? && node.init && node.a.Literal? && node.b.Literal? && Passes(uses, q, node.out)
    requires node.out in pool && pool[node.out] == InitRate && folder(node.op, node.a.text, node.b.text).Some?
    ensures FoldedTo(pool, folder, uses, node, q).Some?
  {}

  lemma GoesWhenOnce(pool: Pool, folder: Folder, scope: seq<Stmt>, node: Stmt, q: nat)
    requires q < |scope| && MayGo(pool, folder, scope, node, q) && node.out !in Reads(scope[q])
    ensures FoldedTo(pool, folder, TallyOf(scope), node, q).Some?
  {
    hide TallyOf, OneUse, Passes, Reads, FoldedTo;
    assert HasPrefix(node.out, "#i");
    FoldableExactly(scope, q, node.out);
    FoldedWhenPassed(pool, folder, TallyOf(scope), node, q);
  }

  /** What the pass keeps could not go. */
  lemma NodeStays(
    pool: Pool, folder: Folder, scope: seq<Stmt>, done: seq<Stmt>, rest: seq<Stmt>, gone: set<string>)
    requires rest != [] && Aligned(rest, scope, gone) && Free(done + rest, gone)
    requires FoldedTo(pool, folder, TallyOf(scope), rest[0], |scope| - |rest|) == None
    ensures !MayGo(pool, folder, scope, rest[0], |scope| - |rest|)
  {
    RestShorter(rest, scope, gone);
    hide Free, TallyOf, Uses, Aligned, OneUse, Reads, FoldedTo;
    if MayGo(pool, folder, scope, rest[0], |scope| - |rest|) {
      NoOwnRead(scope, done, rest, gone);
      GoesWhenOnce(pool, folder, scope, rest[0], |scope| - |rest|);
    }
  }

  lemma RestAligned(rest: seq<Stmt>, scope: seq<Stmt>, gone: set<string>)
    requires rest != [] && Aligned(rest, scope, gone)
    ensures Aligned(rest[1..], scope, gone)
  {
    forall d | 0 <= d < |rest| - 1 ensures Like(rest[1..][d], scope[|scope| - (|rest| - 1) + d], gone) {
      assert Like(rest[d + 1], scope[|scope| - |rest| + (d + 1)], gone);
    }
  }
}
