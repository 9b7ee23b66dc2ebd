/**
 The passes over one instrument, in the order of csound_orc_optimize.
 */
module Optimizer {
  import opened Basics
  import opened Resolved
  import opened UseCounts
  import opened LiteralFolding
  import opened ScalarCse
  import opened CopyRemoval
  import opened AudioFusion

  /** Which passes are switched on. */
  datatype Selection = Selection(fold: bool, cse: bool, copies: bool, fuse: bool)

  /** What each pass does to a scope, or that it is switched off. */
  ghost predicate Folds(on: bool, pool: Pool, folder: Folder, a: seq<Stmt>, b: seq<Stmt>) {
    if on then AllFolded(pool, folder, a, b) else b == a
  }

  ghost predicate Reuses(on: bool, pool: Pool, a: seq<Stmt>, b: seq<Stmt>) {
    if on then exists visits :: Turns(pool, a, visits, b) else b == a
  }

  ghost predicate Merges(on: bool, pool: Pool, a: seq<Stmt>, b: seq<Stmt>) {
    if on then NoCopies(pool, a, b, |b|) && exists gone :: GoneBefore(pool, a, gone, |a|) && |b| == |a| - |gone|
    else b == a
  }

  ghost predicate Fuses(on: bool, pool: Pool, a: seq<Stmt>, b: seq<Stmt>) {
    if on then NoFusions(pool, a, b, |b|) && exists gone :: ProductsGone(pool, a, gone, |a|) && |b| == |a| - |gone|
    else b == a
  }

  /** The scopes between the passes, in their order. */
  ghost predicate Stages(sel: Selection, pool: Pool, folder: Folder, s: seq<seq<Stmt>>) {
    && |s| == 5
    && Folds(sel.fold, pool, folder, s[0], s[1]) && Reuses(sel.cse, pool, s[1], s[2])
    && Merges(sel.copies, pool, s[2], s[3]) && Fuses(sel.fuse, pool, s[3], s[4])
  }

  method FoldIf(on: bool, pool: Pool, folder: Folder, a: seq<Stmt>, ghost env: Env)
    returns (b: seq<Stmt>, ghost gone: set<string>)
    requires Fair(env) && GoodFolder(env, folder) && NoSelfReads(a)
    ensures Folds(on, pool, folder, a, b) && NoSelfReads(b)
    ensures Equivalent(env, a, b, gone) && forall n <- gone :: Generated(n)
  {
    hide Equivalent, Fair, GoodFolder, NoSelfReads, Free, AllFolded;
    b, gone := a, {};
    EquivalentSelf(env, a);
    if on {
      b, gone := FoldScalarLiterals(pool, folder, a, env);
    }
  }

  method ReuseIf(on: bool, pool: Pool, a: seq<Stmt>, ghost env: Env) returns (b: seq<Stmt>, ghost gone: set<string>)
    requires Fair(env) && NoSelfReads(a)
    ensures Reuses(on, pool, a, b)
    ensures Equivalent(env, a, b, gone) && forall n <- gone :: Generated(n)
  {
    hide Equivalent, Fair, NoSelfReads, Free, NothingAgain, Turns;
    b, gone := a, {};
    EquivalentSelf(env, a);
    if on {
      ghost var visits;
      b, gone, visits := ReuseScalarExpressions(pool, a, env);
    }
  }

  method MergeIf(on: bool, pool: Pool, a: seq<Stmt>, ghost env: Env) returns (b: seq<Stmt>, ghost gone: set<string>)
    requires Fair(env)
    ensures Merges(on, pool, a, b)
    ensures Equivalent(env, a, b, gone) && forall n <- gone :: Generated(n)
  {
    hide Equivalent, Fair, Free, NoCopies, GoneBefore;
    b, gone := a, {};
    EquivalentSelf(env, a);
    if on {
      b, gone := RemoveScalarCopies(pool, a, env);
    }
  }

  method FuseIf(on: bool, pool: Pool, a: seq<Stmt>, ghost env: Env) returns (b: seq<Stmt>, ghost gone: set<string>)
    requires Fair(env)
    ensures Fuses(on, pool, a, b)
    ensures Equivalent(env, a, b, gone) && forall n <- gone :: Generated(n)
  {
    hide Equivalent, Fair, Free, NoFusions, ProductsGone;
    b, gone := a, {};
    EquivalentSelf(env, a);
    if on {
      b, gone := FuseAudioMulAdd(pool, a, env);
    }
  }

  /** Whatever passes are chosen, every name except removed temporaries has the same value
      after the init pass and after every performance pass; and the passes that are chosen
      run one after the other in this order, each missing nothing. */
  method OptimizeScope(sel: Selection, pool: Pool, folder: Folder, scope: seq<Stmt>, ghost env: Env)
    returns (cur: seq<Stmt>, ghost gone: set<string>, ghost stages: seq<seq<Stmt>>)
    requires Fair(env) && GoodFolder(env, folder) && NoSelfReads(scope)
    ensures Stages(sel, pool, folder, stages) && stages[0] == scope && stages[4] == cur
    ensures Equivalent(env, scope, cur, gone) && forall n <- gone :: Generated(n)
    ensures forall s: Store, passes: nat, fuel: nat ::
              SameOutcome(gone, Session(env, scope, s, passes, fuel), Session(env, cur, s, passes, fuel))
  {
    hide Equivalent, Fair, GoodFolder, NoSelfReads, SameOutcome, Session, Folds, Reuses, Merges, Fuses;
    var folded, gone1 := FoldIf(sel.fold, pool, folder, scope, env);
    var reused, gone2 := ReuseIf(sel.cse, pool, folded, env);
    EquivalentTrans(env, scope, folded, reused, gone1, gone2);
    var merged, gone3 := MergeIf(sel.copies, pool, reused, env);
    EquivalentTrans(env, scope, reused, merged, gone1 + gone2, gone3);
    ghost var gone4;
    cur, gone4 := FuseIf(sel.fuse, pool, merged, env);
    EquivalentTrans(env, scope, merged, cur, gone1 + gone2 + gone3, gone4);
    gone := gone1 + gone2 + gone3 + gone4;
    stages := [scope, folded, reused, merged, cur];
    forall s: Store, passes: nat, fuel: nat
      ensures SameOutcome(gone, Session(env, scope, s, passes, fuel), Session(env, cur, s, passes, fuel))
    {
      SelfAgree(gone, s);
      SameSession(env, scope, cur, gone, s, s, passes, fuel);
    }
  }

  lemma SelfAgree(t: set<string>, s: Store)
    ensures AgreeOff(t, s, s)
  {}
}
