/** How often names occur in a scope, and which names have gone from it. */
module UseCounts {
  import opened Basics
  import opened Resolved

  /** The type of a local variable, as far as the optimiser asks. */
  datatype VarType = InitRate | ControlRate | AudioRate | OtherType

  /** The local variables of an instrument that are not arrays. */
  type Pool = map<string, VarType>

  function Count(names: seq<string>, n: string): nat {
    if names == [] then 0 else (if names[0] == n then 1 else 0) + Count(names[1..], n)
  }

  function ReadCount(p: seq<Stmt>, n: string): nat {
    if p == [] then 0 else Count(Reads(p[0]), n) + ReadCount(p[1..], n)
  }

  function WriteCount(p: seq<Stmt>, n: string): nat {
    if p == [] then 0 else Count(Writes(p[0]), n) + WriteCount(p[1..], n)
  }

  function Uses(p: seq<Stmt>, n: string): nat {
    ReadCount(p, n) + WriteCount(p, n)
  }

  /** No generated temporary is computed from itself. */
  ghost predicate NoSelfReads(p: seq<Stmt>) {
    forall st :: st in p && st.Arith? && Generated(st.out) ==> st.out !in Reads(st)
  }

  lemma {:induction false} CountZero(names: seq<string>, n: string)
    ensures Count(names, n) == 0 <==> n !in names
  {
    if names != [] {
      CountZero(names[1..], n);
    }
  }

  lemma {:induction false} CountAppend(a: seq<string>, b: seq<string>, n: string)
    ensures Count(a + b, n) == Count(a, n) + Count(b, n)
  {
    if a == [] {
      assert a + b == b;
    } else {
      assert (a + b)[1..] == a[1..] + b;
      CountAppend(a[1..], b, n);
    }
  }

  lemma {:induction false} UsesAppend(a: seq<Stmt>, b: seq<Stmt>, n: string)
    ensures ReadCount(a + b, n) == ReadCount(a, n) + ReadCount(b, n)
    ensures WriteCount(a + b, n) == WriteCount(a, n) + WriteCount(b, n)
  {
    if a == [] {
      assert a + b == b;
    } else {
      assert (a + b)[1..] == a[1..] + b;
      UsesAppend(a[1..], b, n);
    }
  }

  /** A name that is not counted does not occur. */
  lemma {:induction false} UnusedIsFree(p: seq<Stmt>, n: string)
    requires Uses(p, n) == 0
    ensures Free(p, {n})
  {
    if p != [] {
      UnusedIsFree(p[1..], n);
      CountZero(Reads(p[0]), n);
      CountZero(Writes(p[0]), n);
      forall st, m | st in p && m in {n} ensures !Mentions(st, m) {
        if st in p[1..] {
          assert !Mentions(st, n);
        }
      }
    }
  }

  lemma {:induction false} FreeIsUnused(p: seq<Stmt>, n: string)
    requires Free(p, {n})
    ensures Uses(p, n) == 0
  {
    if p != [] {
      assert p[0] in p && !Mentions(p[0], n);
      CountZero(Reads(p[0]), n);
      CountZero(Writes(p[0]), n);
      assert Free(p[1..], {n});
      FreeIsUnused(p[1..], n);
    }
  }

  lemma UsesOne(st: Stmt, n: string)
    ensures ReadCount([st], n) == Count(Reads(st), n) && WriteCount([st], n) == Count(Writes(st), n)
  {
    assert [st][1..] == [];
  }

  lemma CountOne(m: string, n: string)
    ensures Count([m], n) == if m == n then 1 else 0
  {
    assert [m][1..] == [];
  }

  /** A statement of a program in context. */
  lemma UsesAt(p: seq<Stmt>, i: nat, n: string)
    requires i < |p|
    ensures ReadCount(p, n) == ReadCount(p[..i], n) + Count(Reads(p[i]), n) + ReadCount(p[i + 1..], n)
    ensures WriteCount(p, n) == WriteCount(p[..i], n) + Count(Writes(p[i]), n) + WriteCount(p[i + 1..], n)
  {
    assert p == p[..i] + p[i..];
    UsesAppend(p[..i], p[i..], n);
    assert p[i..][1..] == p[i + 1..];
  }

  /** Names that went earlier stay away when no name is used more often. */
  lemma StillFree(p: seq<Stmt>, p': seq<Stmt>, gone: set<string>, n: string)
    requires Free(p, gone) && Uses(p', n) == 0
    requires forall m :: Uses(p', m) <= Uses(p, m)
    ensures Free(p', gone + {n})
  {
    forall st, m | st in p' && m in gone + {n} ensures !Mentions(st, m) {
      if m in gone {
        assert Free(p, {m});
        FreeIsUnused(p, m);
      }
      UnusedIsFree(p', m);
    }
  }
}
