/**
 Which generated getters of an instrument may run at init time only.  The analysis of
 specialize_init_getters walks the opcodes twice with a table of getters and a table of
 values that exist at performance time only; what it chooses is described here by the
 readers and writers of a getter's result.
 */
module InitGetters {
  import opened Basics

  /** An opcode of an instrument: whether it is resolved, has init work, is a getter, and can
      be exchanged for an init-only getter; whether it takes values at init time only. */
  datatype Opcode = Opcode(
    resolved: bool, hasInit: bool, getter: bool, exchange: bool, initOnly: bool, outs: seq<string>, ins: seq<string>)

  predicate Temporary(n: string) {
    n != "" && n[0] == '#'
  }

  /** What can be exchanged is a getter of one generated value that has init work. */
  predicate WellFormed(ops: seq<Opcode>) {
    forall j :: 0 <= j < |ops| && ops[j].exchange ==>
      ops[j].resolved && ops[j].hasInit && ops[j].getter && |ops[j].outs| == 1 && "#" <= ops[j].outs[0]
  }

  predicate Reads(o: Opcode, n: string) {
    o.resolved && n in o.ins
  }

  predicate Writes(o: Opcode, n: string) {
    o.resolved && n in o.outs
  }

  /** Opcode k yields nothing at init time: it has no init work, or it is a getter fed by a
      temporary that an earlier opcode of this kind has written. */
  ghost predicate NoInitValue(ops: seq<Opcode>, k: nat)
    requires k < |ops|
    decreases k
  {
    && ops[k].resolved
    && (|| !ops[k].hasInit
        || (ops[k].getter && exists i, n :: 0 <= i < k && Feeds(ops[i], ops[k], n) && NoInitValue(ops, i)))
  }

  ghost predicate Feeds(o: Opcode, p: Opcode, n: string) {
    "#" <= n && Writes(o, n) && n in p.ins
  }

  /** The result of getter j is there at init time, is written by it alone, and is read, by
      opcodes that all take it at init time only. */
  ghost predicate MayRunAtInit(ops: seq<Opcode>, j: nat)
    requires j < |ops| && WellFormed(ops)
  {
    && ops[j].exchange && !NoInitValue(ops, j)
    && (forall k :: 0 <= k < |ops| && Writes(ops[k], ops[j].outs[0]) ==> k == j)
    && (exists k :: 0 <= k < |ops| && Reads(ops[k], ops[j].outs[0]))
    && (forall k :: 0 <= k < |ops| && Reads(ops[k], ops[j].outs[0]) ==> ops[k].initOnly)
  }

  // ------------------------------------------------------------ the tables

  /** The getter table: for each name the last candidate that writes it. */
  ghost predicate TableIs(ops: seq<Opcode>, getters: map<string, nat>, n: nat) {
    && n <= |ops|
    && (forall x :: x in getters ==>
          getters[x] < n && ops[getters[x]].exchange && ops[getters[x]].outs == [x])
    && (forall j :: 0 <= j < n && ops[j].exchange && |ops[j].outs| == 1 ==>
          ops[j].outs[0] in getters && j <= getters[ops[j].outs[0]])
  }

  method CollectGetters(ops: seq<Opcode>) returns (getters: map<string, nat>)
    requires WellFormed(ops)
    ensures TableIs(ops, getters, |ops|)
  {
    getters := map[];
    var j := 0;
    while j < |ops|
      invariant 0 <= j <= |ops| && TableIs(ops, getters, j)
    {
      if ops[j].exchange {
        assert ops[j].outs == [ops[j].outs[0]];
        getters := getters[ops[j].outs[0] := j];
      }
      j := j + 1;
    }
  }

  // ------------------------------------------- what the walk has found out

  ghost predicate ReadBefore(ops: seq<Opcode>, x: string, k: nat) {
    exists i :: 0 <= i < k && i < |ops| && Reads(ops[i], x)
  }

  /** An opcode before k forbids to exchange the getter at j, whose result is x: it takes the
      value at performance time, or writes x although it is another one or has no init value. */
  ghost predicate ForbiddenBefore(ops: seq<Opcode>, x: string, j: nat, k: nat) {
    || (exists i :: 0 <= i < k && i < |ops| && Reads(ops[i], x) && !ops[i].initOnly)
    || (exists i :: 0 <= i < k && i < |ops| && Writes(ops[i], x) && (i != j || NoInitValue(ops, i)))
  }

  ghost predicate LateBefore(ops: seq<Opcode>, x: string, k: nat) {
    exists i :: 0 <= i < k && i < |ops| && Temporary(x) && Writes(ops[i], x) && NoInitValue(ops, i)
  }

  /** The sets of the walk before opcode k: getters read, getters blocked, and temporaries
      with no init value. */
  ghost predicate Known(
    ops: seq<Opcode>, getters: map<string, nat>, k: nat, used: set<string>, blocked: set<string>, late: set<string>)
  {
    && (forall x :: x in used <==> x in getters && ReadBefore(ops, x, k))
    && (forall x :: x in blocked <==> x in getters && ForbiddenBefore(ops, x, getters[x], k))
    && (forall x :: x in late <==> LateBefore(ops, x, k))
  }

  /** The inputs of one opcode. */
  method VisitInputs(
    o: Opcode, getters: map<string, nat>, used: set<string>, blocked: set<string>, late: set<string>)
    returns (used': set<string>, blocked': set<string>, unavailable: bool)
    ensures forall x :: x in used' <==> x in used || (x in getters && x in o.ins)
    ensures forall x :: x in blocked' <==> x in blocked || (x in getters && x in o.ins && !o.initOnly)
    ensures unavailable <==> !o.hasInit || (o.getter && exists x :: x in o.ins && x in late)
  {
    used', blocked', unavailable := used, blocked, !o.hasInit;
    var i := 0;
    while i < |o.ins|
      invariant 0 <= i <= |o.ins|
      invariant forall x :: x in used' <==> x in used || (x in getters && x in o.ins[..i])
      invariant forall x :: x in blocked' <==> x in blocked || (x in getters && x in o.ins[..i] && !o.initOnly)
      invariant unavailable <==> !o.hasInit || (o.getter && exists x :: x in o.ins[..i] && x in late)
    {
      var name := o.ins[i];
      assert o.ins[..i + 1] == o.ins[..i] + [name];
      if name in getters {
        used' := used' + {name};
        if !o.initOnly {
          blocked' := blocked' + {name};
        }
      }
      if o.getter && name in late {
        unavailable := true;
      }
      i := i + 1;
    }
    assert o.ins[..i] == o.ins;
  }

  /** Its outputs. */
  method VisitOutputs(
    o: Opcode, k: nat, getters: map<string, nat>, unavailable: bool, blocked: set<string>, late: set<string>)
    returns (blocked': set<string>, late': set<string>)
    ensures forall x :: x in blocked' <==>
              x in blocked || (x in getters && x in o.outs && (getters[x] != k || unavailable))
    ensures forall x :: x in late' <==> x in late || (unavailable && Temporary(x) && x in o.outs)
  {
    blocked', late' := blocked, late;
    var i := 0;
    while i < |o.outs|
      invariant 0 <= i <= |o.outs|
      invariant forall x :: x in blocked' <==>
                  x in blocked || (x in getters && x in o.outs[..i] && (getters[x] != k || unavailable))
      invariant forall x :: x in late' <==> x in late || (unavailable && Temporary(x) && x in o.outs[..i])
    {
      var name := o.outs[i];
      assert o.outs[..i + 1] == o.outs[..i] + [name];
      if name in getters && (getters[name] != k || unavailable) {
        blocked' := blocked' + {name};
      }
      if unavailable && Temporary(name) {
        late' := late' + {name};
      }
      i := i + 1;
    }
    assert o.outs[..i] == o.outs;
  }

  /** One opcode more. */
  lemma OneMore(
    ops: seq<Opcode>, getters: map<string, nat>, k: nat, used: set<string>, blocked: set<string>, late: set<string>,
    unavailable: bool, used': set<string>, blocked': set<string>, late': set<string>)
    requires k < |ops| && ops[k].resolved && Known(ops, getters, k, used, blocked, late)
    requires unavailable <==> !ops[k].hasInit || (ops[k].getter && exists x :: x in ops[k].ins && x in late)
    requires forall x :: x in used' <==> x in used || (x in getters && x in ops[k].ins)
    requires forall x :: x in blocked' <==>
               || x in blocked || (x in getters && x in ops[k].ins && !ops[k].initOnly)
               || (x in getters && x in ops[k].outs && (getters[x] != k || unavailable))
    requires forall x :: x in late' <==> x in late || (unavailable && Temporary(x) && x in ops[k].outs)
    ensures Known(ops, getters, k + 1, used', blocked', late')
  {
    hide NoInitValue;
    LateExactly(ops, k, late);
    assert unavailable <==> NoInitValue(ops, k);
    forall x ensures ReadBefore(ops, x, k + 1) <==> ReadBefore(ops, x, k) || Reads(ops[k], x) {}
    forall x, j ensures ForbiddenBefore(ops, x, j, k + 1) <==>
                          || ForbiddenBefore(ops, x, j, k) || (Reads(ops[k], x) && !ops[k].initOnly)
                          || (Writes(ops[k], x) && (k != j || NoInitValue(ops, k))) {}
    forall x ensures LateBefore(ops, x, k + 1) <==>
                       LateBefore(ops, x, k) || (Temporary(x) && Writes(ops[k], x) && NoInitValue(ops, k)) {}
  }

  lemma LateExactly(ops: seq<Opcode>, k: nat, late: set<string>)
    requires k < |ops| && ops[k].resolved && forall x :: x in late <==> LateBefore(ops, x, k)
    ensures NoInitValue(ops, k) <==> !ops[k].hasInit || (ops[k].getter && exists x :: x in ops[k].ins && x in late)
  {
    if x :| x in ops[k].ins && x in late {
      var i :| 0 <= i < k && Temporary(x) && Writes(ops[i], x) && NoInitValue(ops, i);
      assert Feeds(ops[i], ops[k], x);
    }
    if i, n :| 0 <= i < k && Feeds(ops[i], ops[k], n) && NoInitValue(ops, i) {
      assert LateBefore(ops, n, k);
    }
  }

  lemma Skipped(
    ops: seq<Opcode>, getters: map<string, nat>, k: nat, used: set<string>, blocked: set<string>, late: set<string>)
    requires k < |ops| && !ops[k].resolved && Known(ops, getters, k, used, blocked, late)
    ensures Known(ops, getters, k + 1, used, blocked, late)
  {
    hide NoInitValue;
    forall x ensures ReadBefore(ops, x, k + 1) <==> ReadBefore(ops, x, k) {}
    forall x, j ensures ForbiddenBefore(ops, x, j, k + 1) <==> ForbiddenBefore(ops, x, j, k) {}
    forall x ensures LateBefore(ops, x, k + 1) <==> LateBefore(ops, x, k) {}
  }

  /** The analysis of one instrument: it chooses the getters that may run at init time. */
  method ChooseGetters(ops: seq<Opcode>) returns (chosen: seq<bool>)
    requires WellFormed(ops)
    ensures |chosen| == |ops| && forall j :: 0 <= j < |ops| ==> (chosen[j] <==> MayRunAtInit(ops, j))
  {
    hide Known, NoInitValue, MayRunAtInit, TableIs;
    var getters := CollectGetters(ops);
    var used: set<string>, blocked: set<string>, late: set<string> := {}, {}, {};
    NothingKnown(ops, getters);
    var k := 0;
    while k < |ops|
      invariant 0 <= k <= |ops| && Known(ops, getters, k, used, blocked, late)
    {
      if ops[k].resolved {
        var used', blocked1, unavailable := VisitInputs(ops[k], getters, used, blocked, late);
        var blocked', late' := VisitOutputs(ops[k], k, getters, unavailable, blocked1, late);
        OneMore(ops, getters, k, used, blocked, late, unavailable, used', blocked', late');
        used, blocked, late := used', blocked', late';
      } else {
        Skipped(ops, getters, k, used, blocked, late);
      }
      k := k + 1;
    }
    chosen := [];
    var j := 0;
    while j < |ops|
      invariant 0 <= j <= |ops| == k && |chosen| == j
      invariant forall i :: 0 <= i < j ==> (chosen[i] <==> MayRunAtInit(ops, i))
    {
      ChosenRight(ops, getters, used, blocked, late, j);
      var o := ops[j];
      chosen := chosen + [o.exchange && o.outs[0] in used && getters[o.outs[0]] == j && o.outs[0] !in blocked];
      j := j + 1;
    }
  }

  lemma NothingKnown(ops: seq<Opcode>, getters: map<string, nat>)
    ensures Known(ops, getters, 0, {}, {}, {})
  {}

  lemma ChosenRight(
    ops: seq<Opcode>, getters: map<string, nat>, used: set<string>, blocked: set<string>, late: set<string>, j: nat)
    requires WellFormed(ops) && TableIs(ops, getters, |ops|) && Known(ops, getters, |ops|, used, blocked, late)
    requires j < |ops|
    ensures ops[j].exchange ==> |ops[j].outs| == 1 && ops[j].outs[0] in getters
    ensures MayRunAtInit(ops, j) <==>
            && ops[j].exchange && ops[j].outs[0] in used && getters[ops[j].outs[0]] == j
            && ops[j].outs[0] !in blocked
  {
    hide NoInitValue;
    if ops[j].exchange {
      var x := ops[j].outs[0];
      assert Writes(ops[j], x);
      assert x in getters && Writes(ops[getters[x]], x);
    }
  }
}
