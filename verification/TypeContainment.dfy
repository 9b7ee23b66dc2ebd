/**
 Whether a value of one type can hold a value of another.  Struct types may be
 recursive; the search does not enter a type that is already on its path, and
 still finds every way there is.
 */
module TypeContainment {
  import opened Basics
  import opened Counting

  /** A member variable; the type of the elements matters for arrays. */
  datatype Member = Member(varType: Option<nat>, subType: Option<nat>)

  /** Only user-defined types have members to look at. */
  datatype Type = Type(user: bool, members: seq<Option<Member>>)

  /** All types by number, and the number of the array type. */
  datatype World = World(types: seq<Type>, arrays: nat)

  predicate Known(w: World, t: Option<nat>) {
    t.Some? ==> t.value < |w.types|
  }

  predicate WellTyped(w: World) {
    forall t, i :: 0 <= t < |w.types| && 0 <= i < |w.types[t].members| && w.types[t].members[i].Some? ==>
      Known(w, w.types[t].members[i].value.varType) && Known(w, w.types[t].members[i].value.subType)
  }

  /** The type inside a member: the element type of an array. */
  function Content(w: World, v: Member): Option<nat> {
    if v.varType == Some(w.arrays) then v.subType else v.varType
  }

  // ---------------------------------------------------------- reachability

  /** Some member of t is of the target type or holds it n steps further on. */
  ghost predicate MemberReaches(w: World, v: Option<Member>, target: nat, n: nat, avoid: set<nat>)
    decreases n, 1
  {
    && v.Some? && v.value.varType.Some?
    && (v.value.varType == Some(target) ||
        (Content(w, v.value).Some? && Reaches(w, Content(w, v.value).value, target, n, avoid)))
  }

  /** There is a chain of members from t to the target, through at most n
      user-defined types and none of those to avoid. */
  ghost predicate Reaches(w: World, t: nat, target: nat, n: nat, avoid: set<nat>)
    decreases n, 0
  {
    || t == target
    || (n > 0 && t < |w.types| && w.types[t].user && t !in avoid &&
        exists i :: 0 <= i < |w.types[t].members| && MemberReaches(w, w.types[t].members[i], target, n - 1, avoid))
  }

  /** The member path that reaches the target, whatever types it goes through. */
  ghost predicate Contains(w: World, v: Option<Member>, target: nat) {
    MemberCan(w, v, target, {})
  }

  ghost predicate MemberCan(w: World, v: Option<Member>, target: nat, avoid: set<nat>) {
    exists n: nat :: MemberReaches(w, v, target, n, avoid)
  }

  ghost predicate Can(w: World, t: nat, target: nat, avoid: set<nat>) {
    exists n: nat :: Reaches(w, t, target, n, avoid)
  }

  /** A chain that may not pass t either, or a shorter one from t itself. */
  lemma {:induction false} PassesOrNot(w: World, u: nat, t: nat, target: nat, n: nat, avoid: set<nat>) returns (k: nat)
    requires Reaches(w, u, target, n, avoid)
    ensures k <= n && (Reaches(w, u, target, n, avoid + {t}) || Reaches(w, t, target, k, avoid))
    decreases n
  {
    k := n;
    if u != target && u != t {
      var i :| 0 <= i < |w.types[u].members| && MemberReaches(w, w.types[u].members[i], target, n - 1, avoid);
      var v := w.types[u].members[i];
      if v.value.varType != Some(target) {
        var c := Content(w, v.value).value;
        var j := PassesOrNot(w, c, t, target, n - 1, avoid);
        if Reaches(w, c, target, n - 1, avoid + {t}) {
          assert MemberReaches(w, w.types[u].members[i], target, n - 1, avoid + {t});
        } else {
          k := j;
        }
      } else {
        assert MemberReaches(w, w.types[u].members[i], target, n - 1, avoid + {t});
      }
    }
  }

  /** Avoiding less loses nothing, and neither do more steps. */
  lemma {:induction false} ReachesMore(w: World, t: nat, target: nat, n: nat, m: nat, avoid: set<nat>, less: set<nat>)
    requires Reaches(w, t, target, n, avoid) && less <= avoid && n <= m
    ensures Reaches(w, t, target, m, less)
    decreases n
  {
    if t != target {
      var i :| 0 <= i < |w.types[t].members| && MemberReaches(w, w.types[t].members[i], target, n - 1, avoid);
      var v := w.types[t].members[i];
      if v.value.varType != Some(target) {
        ReachesMore(w, Content(w, v.value).value, target, n - 1, m - 1, avoid, less);
      }
      assert MemberReaches(w, w.types[t].members[i], target, m - 1, less);
    }
  }

  // ---------------------------------------------------------------- search

  /** The user-defined types on the path to here, the last one first. */
  type Path = seq<nat>

  function OnPath(path: Path): set<nat> {
    Elements(path)
  }

  /** A path has no repeats, so it cannot be longer than there are types. */
  ghost predicate GoodPath(w: World, path: Path) {
    Distinct(path) && AllBelow(path, |w.types|)
  }

  lemma ShortPath(w: World, path: Path)
    requires GoodPath(w, path)
    ensures |path| <= |w.types|
  {
    NoMoreThan(path, |w.types|);
  }

  method VariableContainsType(w: World, v: Option<Member>, target: Option<nat>, path: Path) returns (r: bool)
    requires WellTyped(w) && GoodPath(w, path)
    requires v.Some? ==> Known(w, v.value.varType) && Known(w, v.value.subType)
    ensures r <==> target.Some? && MemberCan(w, v, target.value, OnPath(path))
    decreases |w.types| - |path|, 1
  {
    if v.None? || v.value.varType.None? || target.None? {
      return false;
    }
    if v.value.varType == target {
      assert MemberReaches(w, v, target.value, 0, OnPath(path));
      return true;
    }
    ShortPath(w, path);
    var content := if v.value.varType == Some(w.arrays) then v.value.subType else v.value.varType;
    r := TypeContainsType(w, content, target, path);
    if r {
      ghost var n: nat :| Reaches(w, Content(w, v.value).value, target.value, n, OnPath(path));
      assert MemberReaches(w, v, target.value, n, OnPath(path));
    } else {
      forall n: nat ensures !MemberReaches(w, v, target.value, n, OnPath(path)) {
        assert Content(w, v.value).Some? ==> !Reaches(w, Content(w, v.value).value, target.value, n, OnPath(path));
      }
    }
  }

  method TypeContainsType(w: World, t: Option<nat>, target: Option<nat>, path: Path) returns (r: bool)
    requires WellTyped(w) && GoodPath(w, path) && Known(w, t)
    ensures r <==> t.Some? && target.Some? && Can(w, t.value, target.value, OnPath(path))
    decreases |w.types| - |path|, 0
  {
    if t.None? || target.None? {
      return false;
    }
    if t == target {
      assert Reaches(w, t.value, target.value, 0, OnPath(path));
      return true;
    }
    if !w.types[t.value].user {
      return false;
    }
    var current := 0;
    while current < |path|
      invariant 0 <= current <= |path| && t.value !in path[..current]
    {
      if path[current] == t.value {
        return false;
      }
      current := current + 1;
    }
    var next := [t.value] + path;
    ShortPath(w, next);
    assert OnPath(next) == OnPath(path) + {t.value};
    var members := w.types[t.value].members;
    var i := 0;
    while i < |members|
      invariant 0 <= i <= |members|
      invariant forall k :: 0 <= k < i ==> !MemberCan(w, members[k], target.value, OnPath(next))
    {
      var found := VariableContainsType(w, members[i], target, next);
      if found {
        ghost var n: nat :| MemberReaches(w, members[i], target.value, n, OnPath(next));
        FoundThere(w, t.value, i, target.value, n, OnPath(path));
        return true;
      }
      i := i + 1;
    }
    forall n: nat ensures !Reaches(w, t.value, target.value, n, OnPath(path)) {
      NothingThere(w, t.value, target.value, n, OnPath(path));
    }
    return false;
  }

  lemma FoundThere(w: World, t: nat, i: nat, target: nat, n: nat, avoid: set<nat>)
    requires t < |w.types| && w.types[t].user && t !in avoid && i < |w.types[t].members|
    requires MemberReaches(w, w.types[t].members[i], target, n, avoid + {t})
    ensures Reaches(w, t, target, n + 1, avoid)
  {
    var v := w.types[t].members[i];
    if v.value.varType != Some(target) {
      ReachesMore(w, Content(w, v.value).value, target, n, n, avoid + {t}, avoid);
    }
    assert MemberReaches(w, w.types[t].members[i], target, n, avoid);
  }

  /** If no member leads on without coming back to t, no chain from t does: one
      that comes back could have started at its last visit. */
  lemma {:induction false} NothingThere(w: World, t: nat, target: nat, n: nat, avoid: set<nat>)
    requires t != target && t < |w.types|
    requires forall i :: 0 <= i < |w.types[t].members| ==> !MemberCan(w, w.types[t].members[i], target, avoid + {t})
    ensures !Reaches(w, t, target, n, avoid)
    decreases n
  {
    if n > 0 && Reaches(w, t, target, n, avoid) {
      var i :| 0 <= i < |w.types[t].members| && MemberReaches(w, w.types[t].members[i], target, n - 1, avoid);
      var v := w.types[t].members[i];
      if v.value.varType == Some(target) {
        assert MemberReaches(w, v, target, n - 1, avoid + {t});
      } else {
        var c := Content(w, v.value).value;
        var k := PassesOrNot(w, c, t, target, n - 1, avoid);
        if Reaches(w, c, target, n - 1, avoid + {t}) {
          assert MemberReaches(w, v, target, n - 1, avoid + {t});
        } else {
          NothingThere(w, t, target, k, avoid);
        }
      }
    }
  }

  /** csound_variable_contains_type: true exactly when some member path gets there. */
  method ContainsType(w: World, v: Option<Member>, target: Option<nat>) returns (r: bool)
    requires WellTyped(w) && (v.Some? ==> Known(w, v.value.varType) && Known(w, v.value.subType))
    ensures r <==> target.Some? && Contains(w, v, target.value)
  {
    r := VariableContainsType(w, v, target, []);
    assert OnPath([]) == {};
  }
}
