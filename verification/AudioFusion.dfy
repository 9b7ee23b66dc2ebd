/**
 fuse_audio_mul_add: an audio product that is used once, in the sum on the next
 statement of the same line, becomes one multiply-add.
 */
module AudioFusion {
  import opened Basics
  import opened Resolved
  import opened UseCounts
  import opened CopyRemoval

  predicate FusionLocal(pool: Pool, o: Operand, ty: VarType) {
    o.Name? && LocalOf(pool, o.name, ty)
  }

  predicate GeneratedAudio(n: string) {
    |n| >= 3 && n[0] == '#' && n[1] == 'a' && AllDigits(n[2..])
  }

  /** The product goes into a generated temporary that the sum reads first, and
      the output is not one of the inputs. */
  predicate FusionPattern(pool: Pool, mul: Stmt, add: Stmt) {
    && mul.AudioMul? && add.AudioAdd? && mul.line == add.line
    && LocalOf(pool, mul.out, AudioRate) && LocalOf(pool, add.out, AudioRate)
    && FusionLocal(pool, mul.a, AudioRate) && FusionLocal(pool, mul.b, ControlRate)
    && FusionLocal(pool, add.b, AudioRate) && add.a == Name(mul.out)
    && GeneratedAudio(mul.out) && GeneratedAudio(add.out)
    && add.out != mul.out && Name(add.out) != mul.a && Name(add.out) != add.b
    && mul.a != Name(mul.out) && add.b != Name(mul.out)
  }

  function Fused(mul: Stmt, add: Stmt): Stmt
    requires mul.AudioMul? && add.AudioAdd?
  {
    AudioMulAdd(add.line, add.out, mul.a, mul.b, add.b)
  }

  lemma FusedEffect(env: Env, mul: Stmt, add: Stmt)
    requires mul.AudioMul? && add.AudioAdd? && add.a == Name(mul.out)
    requires mul.out !in Reads(mul) && mul.out !in OperandNames(add.b) && add.out != mul.out
    ensures SameEffect(env, [mul, add], [Fused(mul, add)], {mul.out})
  {
    var t := {mul.out};
    var x, x' := [mul, add], [Fused(mul, add)];
    forall initPass: bool, s: Store, s': Store | AgreeOff(t, s, s')
      ensures AgreeOff(t, ExecAll(env, x, initPass, s), ExecAll(env, x', initPass, s'))
    {
      SameOperand(env, mul.a, s, s', mul.out);
      SameOperand(env, mul.b, s, s', mul.out);
      SameOperand(env, add.b, s, s', mul.out);
      ExecTwo(env, mul, add, initPass, s);
      ExecOne(env, x'[0], initPass, s');
      SameOperand(env, add.b, s, Exec(env, mul, initPass, s), mul.out);
    }
  }

  lemma FusedCounts(mul: Stmt, add: Stmt, n: string)
    requires mul.AudioMul? && add.AudioAdd? && add.a == Name(mul.out)
    ensures Uses([mul], n) == Count(Reads(mul), n) + One(n == mul.out)
    ensures Uses([add], n) == One(n == mul.out) + Count(OperandNames(add.b), n) + One(n == add.out)
    ensures Uses([Fused(mul, add)], n) == Count(Reads(mul), n) + Count(OperandNames(add.b), n) + One(n == add.out)
  {
    UsesOne(mul, n);
    UsesOne(add, n);
    UsesOne(Fused(mul, add), n);
    CountOne(mul.out, n);
    CountOne(add.out, n);
    CountAppend(OperandNames(add.a), OperandNames(add.b), n);
    CountAppend(Reads(mul), OperandNames(add.b), n);
  }

  lemma FusedCountsAfter(cur: seq<Stmt>, i: nat, n: string)
    requires i + 1 < |cur| && cur[i].AudioMul? && cur[i + 1].AudioAdd? && cur[i + 1].a == Name(cur[i].out)
    requires Uses(cur, cur[i].out) <= 2 && cur[i + 1].out != cur[i].out
    ensures var cur' := cur[..i] + [Fused(cur[i], cur[i + 1])] + cur[i + 2..];
            && Uses(cur', n) <= Uses(cur, n)
            && (n == cur[i].out ==>
                  && Uses(cur', n) == Uses(cur[..i], n) == Uses(cur[i + 2..], n) == 0
                  && Count(Reads(cur[i]), n) == Count(OperandNames(cur[i + 1].b), n) == 0)
  {
    hide Uses, Reads;
    UsesOfPair(cur, i, n);
    UsesOfOne(cur[..i], Fused(cur[i], cur[i + 1]), cur[i + 2..], n);
    FusedCounts(cur[i], cur[i + 1], n);
  }

  lemma FusionStep(env: Env, scope: seq<Stmt>, cur: seq<Stmt>, gone: set<string>, i: nat, pool: Pool)
    requires Fair(env) && Equivalent(env, scope, cur, gone) && Free(cur, gone) && i + 1 < |cur|
    requires forall n :: Uses(cur, n) <= Uses(scope, n)
    requires FusionPattern(pool, cur[i], cur[i + 1]) && Uses(scope, cur[i].out) == 2
    ensures var t := cur[i].out;
            var cur' := cur[..i] + [Fused(cur[i], cur[i + 1])] + cur[i + 2..];
            && Generated(t) && Equivalent(env, scope, cur', gone + {t}) && Free(cur', gone + {t})
            && forall n :: Uses(cur', n) <= Uses(scope, n)
  {
    hide Equivalent, Uses, Reads, Free, SameEffect, Fair, Known;
    var pre, post, mul, add := cur[..i], cur[i + 2..], cur[i], cur[i + 1];
    var t, st := mul.out, Fused(mul, add);
    var cur' := pre + [st] + post;
    forall n ensures Uses(cur', n) <= Uses(cur, n) {
      FusedCountsAfter(cur, i, n);
    }
    FusedCountsAfter(cur, i, t);
    UnusedIsFree(pre, t);
    UnusedIsFree(post, t);
    CountZero(Reads(mul), t);
    CountZero(OperandNames(add.b), t);
    StillFree(cur, cur', gone, t);
    FusedEffect(env, mul, add);
    KnownPair(mul, add, st);
    Replace(env, pre, [mul, add], [st], post, {t});
    assert cur == pre + [mul, add] + post;
    EquivalentTrans(env, scope, cur, cur', gone, {t});
  }

  /** A variable of the instrument of this rate. */
  ghost predicate Rated(pool: Pool, n: string, ty: VarType) {
    n in pool && pool[n] == ty
  }

  /** #a and a number. */
  ghost predicate Numbered(n: string) {
    |n| >= 3 && n[..2] == "#a" && forall c <- n[2..] :: '0' <= c <= '9'
  }

  /** At k an audio signal times a control value goes into the generated temporary t, the next
      statement of the same line adds another audio signal to it, all in variables of the
      instrument that are different where it matters, and t does not occur anywhere else. */
  ghost predicate FusedOnce(pool: Pool, scope: seq<Stmt>, p: seq<Stmt>, k: nat, t: string) {
    && k + 1 < |p|
    && (exists line, a, g, b, out ::
          && p[k] == AudioMul(line, t, Name(a), Name(g)) && p[k + 1] == AudioAdd(line, out, Name(t), Name(b))
          && Rated(pool, a, AudioRate) && Rated(pool, g, ControlRate) && Rated(pool, b, AudioRate)
          && Rated(pool, out, AudioRate) && Numbered(out) && out !in {t, a, b} && t !in {a, b})
    && Rated(pool, t, AudioRate) && Numbered(t) && Uses(scope, t) == 2
  }

  /** The guard of the pass asks for just that. */
  lemma FusedExactly(pool: Pool, scope: seq<Stmt>, p: seq<Stmt>, k: nat, t: string)
    requires k + 1 < |p|
    ensures FusedOnce(pool, scope, p, k, t) <==>
            FusionPattern(pool, p[k], p[k + 1]) && p[k].out == t && Uses(scope, t) == 2
  {
    hide Uses, GeneratedAudio, Numbered;
    if FusionPattern(pool, p[k], p[k + 1]) {
      var mul, add := p[k], p[k + 1];
      NumberedExactly(mul.out);
      NumberedExactly(add.out);
      assert p[k] == AudioMul(mul.line, mul.out, Name(mul.a.name), Name(mul.b.name));
      assert p[k + 1] == AudioAdd(mul.line, add.out, Name(mul.out), Name(add.b.name));
    } else if FusedOnce(pool, scope, p, k, t) {
      NumberedExactly(p[k].out);
      NumberedExactly(p[k + 1].out);
    }
  }

  lemma NumberedExactly(n: string)
    ensures Numbered(n) <==> GeneratedAudio(n)
  {
    if |n| >= 3 {
      assert n[..2] == [n[0], n[1]];
    }
  }

  /** None of the first pairs could still be fused. */
  ghost predicate NoFusions(pool: Pool, scope: seq<Stmt>, cur: seq<Stmt>, upto: nat) {
    forall k, t :: 0 <= k < upto ==> !FusedOnce(pool, scope, cur, k, t)
  }

  /** What has gone so far: the temporaries of the pairs that stood before position n. */
  ghost predicate ProductsGone(pool: Pool, scope: seq<Stmt>, gone: set<string>, n: nat) {
    forall t :: t in gone <==> exists k :: 0 <= k < n && FusedOnce(pool, scope, scope, k, t)
  }

  /** Behind the statement at i, which may be a fused one, the scope is as it was. */
  ghost predicate Walked(cur: seq<Stmt>, scope: seq<Stmt>, i: nat, at: nat) {
    i <= at && |cur| - i == |scope| - at && (i < |cur| ==>
      && (cur[i] == scope[at] || (!cur[i].AudioMul? && !scope[at].AudioMul?))
      && cur[i + 1..] == scope[at + 1..])
  }

  /** Walks the links of the scope; the fused statement is looked at again.  The meaning
      stays; a temporary goes exactly if the scope has such a pair for it, one statement for
      each, and no pair is left. */
  method FuseAudioMulAdd(pool: Pool, scope: seq<Stmt>, ghost env: Env)
    returns (cur: seq<Stmt>, ghost gone: set<string>)
    requires Fair(env)
    ensures NoFusions(pool, scope, cur, |cur|)
    ensures ProductsGone(pool, scope, gone, |scope|) && |cur| == |scope| - |gone|
    ensures Equivalent(env, scope, cur, gone)
    ensures Free(cur, gone) && forall n <- gone :: Generated(n)
  {
    hide Equivalent, Free, Uses, NoFusions, LocalOf, FusionLocal, GeneratedAudio, ProductsGone, FusedOnce;
    NoFusionsYet(pool, scope);
    cur, gone := scope, {};
    EquivalentSelf(env, scope);
    var i := 0;
    ghost var at := 0;
    while i + 1 < |cur|
      invariant 0 <= i && Equivalent(env, scope, cur, gone)
      invariant Free(cur, gone) && forall n <- gone :: Generated(n)
      invariant forall n :: Uses(cur, n) <= Uses(scope, n)
      invariant NoFusions(pool, scope, cur, i)
      invariant |cur| == |scope| - |gone| && at == i + |gone| && ProductsGone(pool, scope, gone, at)
      invariant Walked(cur, scope, i, at)
      decreases |cur| - i
    {
      var mul, add := cur[i], cur[i + 1];
      if FusionPattern(pool, mul, add) && Uses(scope, mul.out) == 2 {
        FusionStep(env, scope, cur, gone, i, pool);
        FusionsMerged(pool, scope, cur, i);
        ProductThere(cur, gone, i);
        ProductGone(pool, scope, cur, gone, i, at);
        WalkedFused(cur, scope, i, at);
        gone := gone + {mul.out};
        cur := cur[..i] + [Fused(mul, add)] + cur[i + 2..];
        at := at + 1;
      } else {
        FusionsPassed(pool, scope, cur, i);
        ProductsPast(pool, scope, cur, gone, i, at);
        WalkedOn(cur, scope, i, at);
        i := i + 1;
        at := at + 1;
      }
    }
    FusionsEnd(pool, scope, cur, i);
    ProductsEnd(pool, scope, gone, at);
  }

  lemma WalkedOn(cur: seq<Stmt>, scope: seq<Stmt>, i: nat, at: nat)
    requires i + 1 < |cur| && Walked(cur, scope, i, at)
    ensures Walked(cur, scope, i + 1, at + 1)
    ensures cur[i + 1] == scope[at + 1]
  {
    assert cur[i + 1..][0] == scope[at + 1..][0];
    assert cur[i + 1..][1..] == cur[i + 2..] && scope[at + 1..][1..] == scope[at + 2..];
  }

  lemma WalkedFused(cur: seq<Stmt>, scope: seq<Stmt>, i: nat, at: nat)
    requires i + 1 < |cur| && Walked(cur, scope, i, at) && cur[i].AudioMul? && cur[i + 1].AudioAdd?
    ensures Walked(cur[..i] + [Fused(cur[i], cur[i + 1])] + cur[i + 2..], scope, i, at + 1)
  {
    WalkedOn(cur, scope, i, at);
    var cur' := cur[..i] + [Fused(cur[i], cur[i + 1])] + cur[i + 2..];
    assert cur'[i + 1..] == cur[i + 2..];
  }

  lemma ProductThere(cur: seq<Stmt>, gone: set<string>, i: nat)
    requires i < |cur| && cur[i].AudioMul? && Free(cur, gone)
    ensures cur[i].out !in gone
  {
    assert Mentions(cur[i], cur[i].out);
  }

  lemma ProductGone(pool: Pool, scope: seq<Stmt>, cur: seq<Stmt>, gone: set<string>, i: nat, at: nat)
    requires i + 1 < |cur| && Walked(cur, scope, i, at) && ProductsGone(pool, scope, gone, at)
    requires FusionPattern(pool, cur[i], cur[i + 1]) && Uses(scope, cur[i].out) == 2
    ensures ProductsGone(pool, scope, gone + {cur[i].out}, at + 1)
  {
    hide Uses, FusedOnce, FusionPattern;
    WalkedOn(cur, scope, i, at);
    PatternShape(pool, cur[i], cur[i + 1]);
    forall t
      ensures t in gone + {cur[i].out} <==> exists k :: 0 <= k < at + 1 && FusedOnce(pool, scope, scope, k, t)
    {
      FusedExactly(pool, scope, scope, at, t);
    }
  }

  lemma PatternShape(pool: Pool, mul: Stmt, add: Stmt)
    requires FusionPattern(pool, mul, add)
    ensures mul.AudioMul? && add.AudioAdd?
  {}

  lemma ProductsPast(pool: Pool, scope: seq<Stmt>, cur: seq<Stmt>, gone: set<string>, i: nat, at: nat)
    requires i + 1 < |cur| && Walked(cur, scope, i, at) && ProductsGone(pool, scope, gone, at)
    requires !(FusionPattern(pool, cur[i], cur[i + 1]) && cur[i].AudioMul? && Uses(scope, cur[i].out) == 2)
    ensures ProductsGone(pool, scope, gone, at + 1)
  {
    hide Uses, FusedOnce;
    WalkedOn(cur, scope, i, at);
    forall t ensures !FusedOnce(pool, scope, scope, at, t) {
      FusedExactly(pool, scope, scope, at, t);
    }
  }

  lemma ProductsEnd(pool: Pool, scope: seq<Stmt>, gone: set<string>, at: nat)
    requires ProductsGone(pool, scope, gone, at) && at + 1 >= |scope|
    ensures ProductsGone(pool, scope, gone, |scope|)
  {
    hide Uses;
    forall k, t | at <= k < |scope| ensures !FusedOnce(pool, scope, scope, k, t) {}
  }

  lemma NoFusionsYet(pool: Pool, scope: seq<Stmt>)
    ensures NoFusions(pool, scope, scope, 0) && Free(scope, {}) && ProductsGone(pool, scope, {}, 0)
    ensures Walked(scope, scope, 0, 0)
  {}

  lemma FusionsEnd(pool: Pool, scope: seq<Stmt>, cur: seq<Stmt>, i: nat)
    requires NoFusions(pool, scope, cur, i) && i + 1 >= |cur|
    ensures NoFusions(pool, scope, cur, |cur|)
  {
    hide Uses;
  }

  lemma FusionsPassed(pool: Pool, scope: seq<Stmt>, cur: seq<Stmt>, i: nat)
    requires NoFusions(pool, scope, cur, i) && i + 1 < |cur|
    requires !(FusionPattern(pool, cur[i], cur[i + 1]) && cur[i].AudioMul? && Uses(scope, cur[i].out) == 2)
    ensures NoFusions(pool, scope, cur, i + 1)
  {
    hide Uses, FusedOnce;
    forall t ensures !FusedOnce(pool, scope, cur, i, t) {
      FusedExactly(pool, scope, cur, i, t);
    }
  }

  /** The fused statement is not the sum of the one before. */
  lemma FusionsMerged(pool: Pool, scope: seq<Stmt>, cur: seq<Stmt>, i: nat)
    requires NoFusions(pool, scope, cur, i) && i + 1 < |cur| && FusionPattern(pool, cur[i], cur[i + 1])
    ensures NoFusions(pool, scope, cur[..i] + [Fused(cur[i], cur[i + 1])] + cur[i + 2..], i)
  {
    hide Uses, Rated, Numbered;
    var cur' := cur[..i] + [Fused(cur[i], cur[i + 1])] + cur[i + 2..];
    forall k, t | 0 <= k < i ensures !FusedOnce(pool, scope, cur', k, t) {
      assert cur'[k] == cur[k] && (k + 1 < i ==> cur'[k + 1] == cur[k + 1]);
      assert !FusedOnce(pool, scope, cur, k, t);
    }
  }
}
