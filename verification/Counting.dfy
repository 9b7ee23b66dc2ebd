/** How many distinct numbers there can be below a bound. */
module Counting {
  import opened Basics

  function Elements<T>(q: seq<T>): set<T> {
    set x | x in q
  }

  function Upto(n: nat): set<nat> {
    if n == 0 then {} else Upto(n - 1) + {n - 1}
  }

  ghost predicate AllBelow(s: seq<nat>, n: nat) {
    forall k :: 0 <= k < |s| ==> s[k] < n
  }

  lemma {:induction false} SizeOfUpto(n: nat)
    ensures |Upto(n)| == n && forall x: nat :: x in Upto(n) <==> x < n
  {
    if n > 0 {
      SizeOfUpto(n - 1);
    }
  }

  lemma {:induction false} SizeOf<T>(q: seq<T>)
    requires Distinct(q)
    ensures |Elements(q)| == |q|
  {
    if q != [] {
      var front, x := q[..|q| - 1], q[|q| - 1];
      SizeOf(front);
      assert q == front + [x];
      assert Elements(q) == Elements(front) + {x};
      assert x !in front;
    }
  }

  lemma {:induction false} SmallerSet<T>(a: set<T>, b: set<T>)
    requires a <= b
    ensures |a| <= |b|
  {
    if a != {} {
      var x :| x in a;
      SmallerSet(a - {x}, b - {x});
    }
  }

  /** Distinct numbers below a bound: no more than the bound, and fewer if one is
      missing. */
  lemma NoMoreThan(q: seq<nat>, bound: nat)
    requires Distinct(q) && AllBelow(q, bound)
    ensures |q| <= bound
  {
    SizeOf(q);
    SizeOfUpto(bound);
    SmallerSet(Elements(q), Upto(bound));
  }

  lemma RoomLeft(q: seq<nat>, bound: nat, m: nat)
    requires Distinct(q) && AllBelow(q, bound) && m < bound && m !in q
    ensures |q| < bound
  {
    SizeOf(q);
    SizeOfUpto(bound);
    SmallerSet(Elements(q) + {m}, Upto(bound));
  }
}
