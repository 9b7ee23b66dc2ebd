/**
 What one run of scalar reuse leaves behind: a statement is judged when the pass comes to it,
 so a repetition that shows only after a later statement has gone stays.
 */
module CseLimits {
  import opened Basics
  import opened Resolved
  import opened UseCounts
  import opened CopyRemoval
  import opened LiteralFolding
  import opened ScalarCse

  function Sum(out: string, a: string, b: string): Stmt {
    Arith(Add, true, out, Name(a), Name(b))
  }

  function TwoPairs(): seq<Stmt> {
    [Sum("#0", "c", "d"), Sum("#1", "a", "b"), Sum("#2", "a", "b"), Sum("#3", "c", "d"), Sum("w", "#2", "#3")]
  }

  function OnePairLeft(): seq<Stmt> {
    [Sum("#0", "c", "d"), Sum("#1", "a", "b"), Sum("#2", "a", "b"), Sum("w", "#2", "#0")]
  }

  const ALL_INIT: Pool :=
    map["#0" := InitRate, "#1" := InitRate, "#2" := InitRate, "#3" := InitRate, "a" := InitRate, "b" := InitRate,
        "c" := InitRate, "d" := InitRate, "w" := InitRate]

  lemma SumCounts(out: string, a: string, b: string, n: string)
    ensures Count(Reads(Sum(out, a, b)), n) == One(n == a) + One(n == b)
    ensures Count(Writes(Sum(out, a, b)), n) == One(n == out)
  {
    assert Reads(Sum(out, a, b)) == [a, b];
    CountOne(a, n);
    CountOne(b, n);
    CountAppend([a], [b], n);
    CountOne(out, n);
  }

  lemma {:induction false} MoreCounts(st: Stmt, p: seq<Stmt>, n: string)
    ensures ReadCount([st] + p, n) == Count(Reads(st), n) + ReadCount(p, n)
    ensures WriteCount([st] + p, n) == Count(Writes(st), n) + WriteCount(p, n)
  {
    assert ([st] + p)[1..] == p;
  }

  lemma PairCounts(n: string)
    ensures ReadCount(TwoPairs(), n) == 2 * One(n == "a") + 2 * One(n == "b") + 2 * One(n == "c") + 2 * One(n == "d")
                                        + One(n == "#2") + One(n == "#3")
    ensures WriteCount(TwoPairs(), n) ==
            One(n == "#0") + One(n == "#1") + One(n == "#2") + One(n == "#3") + One(n == "w")
    ensures ReadCount(OnePairLeft(), n) == 2 * One(n == "a") + 2 * One(n == "b") + One(n == "c") + One(n == "d")
                                           + One(n == "#2") + One(n == "#0")
    ensures WriteCount(OnePairLeft(), n) == One(n == "#0") + One(n == "#1") + One(n == "#2") + One(n == "w")
  {
    var s0, s1, s2, s3, s4 := TwoPairs()[0], TwoPairs()[1], TwoPairs()[2], TwoPairs()[3], TwoPairs()[4];
    var last := OnePairLeft()[3];
    SumCounts("#0", "c", "d", n);
    SumCounts("#1", "a", "b", n);
    SumCounts("#2", "a", "b", n);
    SumCounts("#3", "c", "d", n);
    SumCounts("w", "#2", "#3", n);
    SumCounts("w", "#2", "#0", n);
    UsesOne(s4, n);
    MoreCounts(s3, [s4], n);
    MoreCounts(s2, [s3] + [s4], n);
    MoreCounts(s1, [s2] + ([s3] + [s4]), n);
    MoreCounts(s0, [s1] + ([s2] + ([s3] + [s4])), n);
    assert TwoPairs() == [s0] + ([s1] + ([s2] + ([s3] + [s4])));
    UsesOne(last, n);
    MoreCounts(s2, [last], n);
    MoreCounts(s1, [s2] + [last], n);
    MoreCounts(s0, [s1] + ([s2] + [last]), n);
    assert OnePairLeft() == [s0] + ([s1] + ([s2] + [last]));
  }

  lemma SumInPass(out: string, a: string, b: string)
    requires {out, a, b} <= {"#0", "#1", "#2", "#3", "a", "b", "c", "d", "w"}
    ensures InPass(ALL_INIT, Sum(out, a, b), true)
  {}

  lemma PairsInPass()
    ensures AllInPass(ALL_INIT, TwoPairs(), 0, 4, true) && AllInPass(ALL_INIT, OnePairLeft(), 1, 3, true)
  {
    hide InPass;
    SumInPass("#0", "c", "d");
    SumInPass("#1", "a", "b");
    SumInPass("#2", "a", "b");
    SumInPass("#3", "c", "d");
    SumInPass("w", "#2", "#3");
    SumInPass("w", "#2", "#0");
  }

  /** The second "c + d" is done again for the last statement. */
  lemma SecondGoes()
    ensures DoneAgain(ALL_INIT, TwoPairs(), TwoPairs(), 0, 3)
    ensures Dropped(TwoPairs(), 3, "#0") == OnePairLeft()
  {
    hide ReadCount, WriteCount, Count, AllInPass, Entered;
    PairsInPass();
    PairCounts("#0");
    PairCounts("#3");
    SumCounts("w", "#2", "#3", "#3");
  }

  /** The second "a + b" is not, when the pass is there: its reader is not the next. */
  lemma SecondStays(k: nat)
    ensures !DoneAgain(ALL_INIT, TwoPairs(), TwoPairs(), k, 2)
  {
    hide ReadCount, WriteCount, Count, AllInPass, Entered;
    PairCounts("#2");
    SumCounts("#3", "c", "d", "#2");
  }

  lemma OthersStay(k: nat)
    ensures !DoneAgain(ALL_INIT, TwoPairs(), TwoPairs(), k, 0) && !DoneAgain(ALL_INIT, TwoPairs(), TwoPairs(), k, 1)
    ensures !DoneAgain(ALL_INIT, TwoPairs(), OnePairLeft(), k, 3)
  {
    hide ReadCount, WriteCount, Count, AllInPass, Entered;
    assert TwoPairs()[1].a != TwoPairs()[0].a;
  }

  /** In what is left it is. */
  lemma SecondIsLeft()
    ensures DoneAgain(ALL_INIT, OnePairLeft(), OnePairLeft(), 1, 2)
  {
    hide ReadCount, WriteCount, Count, AllInPass, Entered;
    PairsInPass();
    PairCounts("#1");
    PairCounts("#2");
    SumCounts("w", "#2", "#0", "#2");
  }

  /** So a run can leave what the next run drops: the result of the pass is not free of
      repetitions, only what it passes is when it passes it. */
  lemma OneRunIsNotEnough()
    ensures exists visits :: Turns(ALL_INIT, TwoPairs(), visits, OnePairLeft())
    ensures !NothingAgain(ALL_INIT, OnePairLeft())
  {
    hide DoneAgain;
    var p, q := TwoPairs(), OnePairLeft();
    SecondIsLeft();
    SecondGoes();
    forall k: nat
      ensures !DoneAgain(ALL_INIT, p, p, k, 0) && !DoneAgain(ALL_INIT, p, p, k, 1)
      ensures !DoneAgain(ALL_INIT, p, p, k, 2) && !DoneAgain(ALL_INIT, p, q, k, 3)
    {
      OthersStay(k);
      SecondStays(k);
    }
    var visits := [Visit(p, 0), Visit(p, 1), Visit(p, 2), Visit(p, 3), Visit(q, 3), Visit(q, 4)];
    assert Turn(ALL_INIT, p, visits[3], visits[4]);
    assert Turns(ALL_INIT, p, visits, q);
  }
}
