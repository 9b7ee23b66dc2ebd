/**
 remove_scalar_copies: an operation whose generated result is only copied by the next
 statement writes the destination of the copy itself.
 */
module CopyRemoval {
  import opened Basics
  import opened Resolved
  import opened UseCounts

  predicate HasPrefix(n: string, prefix: string) {
    prefix <= n
  }

  predicate AllDigits(n: string) {
    forall c <- n :: '0' <= c <= '9'
  }

  /** A p-field: the letter p and a number. */
  predicate IsPField(n: string) {
    |n| >= 2 && n[0] == 'p' && AllDigits(n[1..])
  }

  predicate LocalOf(pool: Pool, n: string, ty: VarType) {
    n in pool && pool[n] == ty
  }

  // -------------------------------------------------------- scalar copies

  predicate CopyInput(pool: Pool, o: Operand) {
    match o
    case Literal(_, _) => true
    case Name(n) => IsPField(n) || LocalOf(pool, n, InitRate)
  }

  /** An init-time operation into a temporary, copied to a named variable by the
      next statement. */
  predicate CopyPattern(pool: Pool, node: Stmt, copy: Stmt) {
    && node.Arith? && node.init && copy.Move? && copy.assignment && copy.init
    && LocalOf(pool, node.out, InitRate) && HasPrefix(node.out, "#i")
    && LocalOf(pool, copy.out, InitRate) && (copy.out == "" || copy.out[0] != '#')
    && copy.a == Name(node.out)
    && CopyInput(pool, node.a) && CopyInput(pool, node.b)
  }

  /** The same operation into another variable. */
  function Redirected(node: Stmt, out: string): Stmt
    requires node.Arith?
  {
    Arith(node.op, node.init, out, node.a, node.b)
  }

  /** The operation may write its destination at once, even x = x + 1. */
  lemma CopyEffect(env: Env, node: Stmt, copy: Stmt)
    requires node.Arith? && node.init && copy.Move? && copy.init && copy.a == Name(node.out)
    requires node.out !in Reads(node) && copy.out != node.out
    ensures SameEffect(env, [node, copy], [Redirected(node, copy.out)], {node.out})
  {
    var t := {node.out};
    var x, x' := [node, copy], [Redirected(node, copy.out)];
    forall initPass: bool, s: Store, s': Store | AgreeOff(t, s, s')
      ensures AgreeOff(t, ExecAll(env, x, initPass, s), ExecAll(env, x', initPass, s'))
    {
      SameOperand(env, node.a, s, s', node.out);
      SameOperand(env, node.b, s, s', node.out);
      ExecTwo(env, node, copy, initPass, s);
      ExecOne(env, x'[0], initPass, s');
    }
  }

  lemma SameOperand(env: Env, o: Operand, s: Store, s': Store, t: string)
    requires AgreeOff({t}, s, s') && t !in OperandNames(o)
    ensures Eval(env, o, s) == Eval(env, o, s')
  {
    if o.Name? {
      assert o.name in OperandNames(o);
    }
  }

  /** What the inputs of an operation that may be drawn together are. */
  ghost predicate InputOk(pool: Pool, o: Operand) {
    o.Literal? || (|o.name| >= 2 && o.name[0] == 'p' && forall c <- o.name[1..] :: '0' <= c <= '9')
    || (o.name in pool && pool[o.name] == InitRate)
  }

  /** At k an init-time operation puts its result into the generated temporary t of the
      instrument, the next statement assigns that to a named init-rate variable, and t does
      not occur anywhere else in the scope. */
  ghost predicate CopiedOnce(pool: Pool, scope: seq<Stmt>, p: seq<Stmt>, k: nat, t: string) {
    && k + 1 < |p|
    && (exists op, a, b :: p[k] == Arith(op, true, t, a, b) && InputOk(pool, a) && InputOk(pool, b))
    && (exists dest :: p[k + 1] == Move(true, true, dest, Name(t))
                       && dest in pool && pool[dest] == InitRate && !("#" <= dest))
    && "#i" <= t && t in pool && pool[t] == InitRate && Uses(scope, t) == 2
  }

  /** The guard of the pass asks for just that. */
  lemma CopiedExactly(pool: Pool, scope: seq<Stmt>, p: seq<Stmt>, k: nat, t: string)
    requires k + 1 < |p|
    ensures CopiedOnce(pool, scope, p, k, t) <==>
            CopyPattern(pool, p[k], p[k + 1]) && p[k].out == t && Uses(scope, t) == 2
  {
    hide Uses;
    if CopyPattern(pool, p[k], p[k + 1]) {
      var Arith(op, init, out, a, b) := p[k];
      assert p[k] == Arith(op, true, out, a, b);
      assert p[k + 1] == Move(true, true, p[k + 1].out, Name(out));
    }
  }

  ghost predicate NoCopies(pool: Pool, scope: seq<Stmt>, cur: seq<Stmt>, upto: nat) {
    forall k, t :: 0 <= k < upto ==> !CopiedOnce(pool, scope, cur, k, t)
  }

  /** What has gone so far: the temporaries of the pairs that stood before position n. */
  ghost predicate GoneBefore(pool: Pool, scope: seq<Stmt>, gone: set<string>, n: nat) {
    forall t :: t in gone <==> exists k :: 0 <= k < n && CopiedOnce(pool, scope, scope, k, t)
  }

  /** The meaning stays; a temporary goes exactly if the scope has such a pair for it, one
      statement for each, and no pair is left. */
  method RemoveScalarCopies(pool: Pool, scope: seq<Stmt>, ghost env: Env)
    returns (cur: seq<Stmt>, ghost gone: set<string>)
    requires Fair(env)
    ensures NoCopies(pool, scope, cur, |cur|)
    ensures GoneBefore(pool, scope, gone, |scope|) && |cur| == |scope| - |gone|
    ensures Equivalent(env, scope, cur, gone)
    ensures Free(cur, gone) && forall n <- gone :: Generated(n)
  {
    hide Equivalent, Free, Uses, NoCopies, HasPrefix, LocalOf, CopyInput, GoneBefore, CopiedOnce;
    NoCopiesYet(pool, scope);
    cur, gone := scope, {};
    EquivalentSelf(env, scope);
    var i := 0;
    while i + 1 < |cur|
      invariant 0 <= i && Equivalent(env, scope, cur, gone)
      invariant Free(cur, gone) && forall n <- gone :: Generated(n)
      invariant forall n :: Uses(cur, n) <= Uses(scope, n)
      invariant NoCopies(pool, scope, cur, i)
      invariant |cur| == |scope| - |gone| && GoneBefore(pool, scope, gone, i + |gone|)
      invariant i <= |cur| && cur[i..] == scope[i + |gone|..]
      decreases |cur| - i
    {
      var node, copy := cur[i], cur[i + 1];
      Originals(cur, scope, i, |gone|);
      if CopyPattern(pool, node, copy) && Uses(scope, node.out) == 2 {
        CopyStep(env, scope, cur, gone, i, pool);
        CopiesMerged(pool, scope, cur, i);
        NotGoneYet(cur, gone, i);
        GoneNow(pool, scope, gone, i + |gone|);
        gone := gone + {node.out};
        cur := cur[..i] + [Redirected(node, copy.out)] + cur[i + 2..];
      } else {
        CopiesPassed(pool, scope, cur, i);
        GonePast(pool, scope, gone, i + |gone|);
      }
      i := i + 1;
    }
    CopiesEnd(pool, scope, cur, i);
    GoneEnd(pool, scope, gone, i + |gone|);
  }

  lemma Originals(cur: seq<Stmt>, scope: seq<Stmt>, i: nat, g: nat)
    requires i + 1 < |cur| && |cur| + g == |scope| && cur[i..] == scope[i + g..]
    ensures cur[i] == scope[i + g] && cur[i + 1] == scope[i + g + 1]
    ensures cur[i + 1..] == scope[i + g + 1..] && cur[i + 2..] == scope[i + g + 2..]
  {
    assert cur[i..][0] == scope[i + g..][0] && cur[i..][1] == scope[i + g..][1];
    assert cur[i..][1..] == cur[i + 1..] && scope[i + g..][1..] == scope[i + g + 1..];
    assert cur[i..][2..] == cur[i + 2..] && scope[i + g..][2..] == scope[i + g + 2..];
  }

  lemma NotGoneYet(cur: seq<Stmt>, gone: set<string>, i: nat)
    requires i < |cur| && cur[i].Arith? && Free(cur, gone)
    ensures cur[i].out !in gone
  {
    assert Mentions(cur[i], cur[i].out);
  }

  lemma GoneNow(pool: Pool, scope: seq<Stmt>, gone: set<string>, k: nat)
    requires GoneBefore(pool, scope, gone, k) && k + 1 < |scope|
    requires CopyPattern(pool, scope[k], scope[k + 1]) && Uses(scope, scope[k].out) == 2
    ensures GoneBefore(pool, scope, gone + {scope[k].out}, k + 2)
  {
    hide Uses, CopiedOnce;
    var now := gone + {scope[k].out};
    forall t ensures t in now <==> exists x :: 0 <= x < k + 2 && CopiedOnce(pool, scope, scope, x, t) {
      CopiedExactly(pool, scope, scope, k, t);
      NotACopySource(pool, scope, k + 1, t);
    }
  }

  lemma NotACopySource(pool: Pool, scope: seq<Stmt>, k: nat, t: string)
    requires k < |scope| && scope[k].Move?
    ensures !CopiedOnce(pool, scope, scope, k, t)
  {}

  lemma GonePast(pool: Pool, scope: seq<Stmt>, gone: set<string>, k: nat)
    requires GoneBefore(pool, scope, gone, k) && k + 1 < |scope|
    requires !(CopyPattern(pool, scope[k], scope[k + 1]) && scope[k].Arith? && Uses(scope, scope[k].out) == 2)
    ensures GoneBefore(pool, scope, gone, k + 1)
  {
    hide Uses, CopiedOnce;
    forall t ensures !CopiedOnce(pool, scope, scope, k, t) {
      CopiedExactly(pool, scope, scope, k, t);
    }
  }

  lemma GoneEnd(pool: Pool, scope: seq<Stmt>, gone: set<string>, k: nat)
    requires GoneBefore(pool, scope, gone, k) && k + 1 >= |scope|
    ensures GoneBefore(pool, scope, gone, |scope|)
  {
    hide Uses;
    forall x, t | k <= x < |scope| ensures !CopiedOnce(pool, scope, scope, x, t) {}
  }

  lemma NoCopiesYet(pool: Pool, scope: seq<Stmt>)
    ensures NoCopies(pool, scope, scope, 0) && Free(scope, {}) && GoneBefore(pool, scope, {}, 0)
  {}

  lemma CopiesEnd(pool: Pool, scope: seq<Stmt>, cur: seq<Stmt>, i: nat)
    requires NoCopies(pool, scope, cur, i) && i + 1 >= |cur|
    ensures NoCopies(pool, scope, cur, |cur|)
  {
    hide Uses;
  }

  lemma CopiesPassed(pool: Pool, scope: seq<Stmt>, cur: seq<Stmt>, i: nat)
    requires NoCopies(pool, scope, cur, i) && i + 1 < |cur|
    requires !(CopyPattern(pool, cur[i], cur[i + 1]) && cur[i].Arith? && Uses(scope, cur[i].out) == 2)
    ensures NoCopies(pool, scope, cur, i + 1)
  {
    hide Uses, CopiedOnce;
    forall t ensures !CopiedOnce(pool, scope, cur, i, t) {
      CopiedExactly(pool, scope, cur, i, t);
    }
  }

  /** The merged statement is no copy of the one before, and no source of the next. */
  lemma CopiesMerged(pool: Pool, scope: seq<Stmt>, cur: seq<Stmt>, i: nat)
    requires NoCopies(pool, scope, cur, i) && i + 1 < |cur| && CopyPattern(pool, cur[i], cur[i + 1])
    ensures NoCopies(pool, scope, cur[..i] + [Redirected(cur[i], cur[i + 1].out)] + cur[i + 2..], i + 1)
  {
    hide Uses;
    var cur' := cur[..i] + [Redirected(cur[i], cur[i + 1].out)] + cur[i + 2..];
    forall k, t | 0 <= k < i + 1 ensures !CopiedOnce(pool, scope, cur', k, t) {
      if k < i {
        assert cur'[k] == cur[k] && (k + 1 < i ==> cur'[k + 1] == cur[k + 1]);
        assert !CopiedOnce(pool, scope, cur, k, t);
      } else {
        assert cur'[i].out == cur[i + 1].out;
        NotGeneratedOut(pool, cur[i], cur[i + 1]);
      }
    }
  }

  lemma NotGeneratedOut(pool: Pool, node: Stmt, copy: Stmt)
    requires CopyPattern(pool, node, copy)
    ensures !("#i" <= copy.out)
  {
    BeginsSharp(copy.out);
  }

  lemma BeginsSharp(n: string)
    ensures "#i" <= n ==> n != "" && n[0] == '#'
  {
    if "#i" <= n {
      assert n[0] == "#i"[0];
    }
  }

  /** Two neighbours in context. */
  lemma UsesOfPair(p: seq<Stmt>, i: nat, n: string)
    requires i + 1 < |p|
    ensures Uses(p, n) == Uses(p[..i], n) + Uses([p[i]], n) + Uses([p[i + 1]], n) + Uses(p[i + 2..], n)
  {
    UsesAt(p, i, n);
    UsesOne(p[i], n);
    UsesOne(p[i + 1], n);
    assert p[i + 1..][0] == p[i + 1] && p[i + 1..][1..] == p[i + 2..];
  }

  lemma UsesOfOne(p: seq<Stmt>, st: Stmt, q: seq<Stmt>, n: string)
    ensures Uses(p + [st] + q, n) == Uses(p, n) + Uses([st], n) + Uses(q, n)
  {
    UsesAppend(p + [st], q, n);
    UsesAppend(p, [st], n);
  }

  lemma CopyCounts(node: Stmt, copy: Stmt, n: string)
    requires node.Arith? && copy.Move? && copy.a == Name(node.out)
    ensures Uses([node], n) == Count(Reads(node), n) + One(n == node.out)
    ensures Uses([copy], n) == One(n == node.out) + One(n == copy.out)
    ensures Uses([Redirected(node, copy.out)], n) == Count(Reads(node), n) + One(n == copy.out)
  {
    UsesOne(node, n);
    UsesOne(copy, n);
    UsesOne(Redirected(node, copy.out), n);
    CountOne(node.out, n);
    CountOne(copy.out, n);
  }

  function One(b: bool): nat {
    if b then 1 else 0
  }

  /** The rewriting adds no occurrence and takes both of the temporary away. */
  lemma CopyCountsAfter(cur: seq<Stmt>, i: nat, n: string)
    requires i + 1 < |cur| && cur[i].Arith? && cur[i + 1].Move? && cur[i + 1].a == Name(cur[i].out)
    requires Uses(cur, cur[i].out) <= 2 && cur[i + 1].out != cur[i].out
    ensures var cur' := cur[..i] + [Redirected(cur[i], cur[i + 1].out)] + cur[i + 2..];
            && Uses(cur', n) <= Uses(cur, n)
            && (n == cur[i].out ==>
                  Uses(cur', n) == Uses(cur[..i], n) == Uses(cur[i + 2..], n) == Count(Reads(cur[i]), n) == 0)
  {
    hide Uses, Reads;
    UsesOfPair(cur, i, n);
    UsesOfOne(cur[..i], Redirected(cur[i], cur[i + 1].out), cur[i + 2..], n);
    CopyCounts(cur[i], cur[i + 1], n);
  }

  lemma CopyStep(env: Env, scope: seq<Stmt>, cur: seq<Stmt>, gone: set<string>, i: nat, pool: Pool)
    requires Fair(env) && Equivalent(env, scope, cur, gone) && Free(cur, gone) && i + 1 < |cur|
    requires forall n :: Uses(cur, n) <= Uses(scope, n)
    requires CopyPattern(pool, cur[i], cur[i + 1]) && Uses(scope, cur[i].out) == 2
    ensures var t := cur[i].out;
            var cur' := cur[..i] + [Redirected(cur[i], cur[i + 1].out)] + cur[i + 2..];
            && Generated(t) && Equivalent(env, scope, cur', gone + {t}) && Free(cur', gone + {t})
            && forall n :: Uses(cur', n) <= Uses(scope, n)
  {
    hide Equivalent, Uses, Reads, Free, SameEffect, Fair, Known;
    var pre, post, node, copy := cur[..i], cur[i + 2..], cur[i], cur[i + 1];
    var t, st := node.out, Redirected(node, copy.out);
    var cur' := pre + [st] + post;
    assert t[0] == "#i"[0] && copy.out != t;
    forall n ensures Uses(cur', n) <= Uses(cur, n) {
      CopyCountsAfter(cur, i, n);
    }
    CopyCountsAfter(cur, i, t);
    UnusedIsFree(pre, t);
    UnusedIsFree(post, t);
    CountZero(Reads(node), t);
    StillFree(cur, cur', gone, t);
    CopyEffect(env, node, copy);
    KnownPair(node, copy, st);
    Replace(env, pre, [node, copy], [st], post, {t});
    assert cur == pre + [node, copy] + post;
    EquivalentTrans(env, scope, cur, cur', gone, {t});
  }

  lemma KnownPair(a: Stmt, b: Stmt, c: Stmt)
    requires !a.Other? && !b.Other? && !c.Other?
    ensures Known([a, b]) && Known([c])
  {}
}
