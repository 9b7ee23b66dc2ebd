/**
 Which user-defined opcodes run at performance time.  classify_udo_rates sets the
 flag of every entry to the least solution: an entry performs when a definition
 that shares it has performance work of its own or calls an entry that performs.
 */
module UdoRates {
  import opened Basics
  import opened Counting

  /** An opcode in a body.  A call names the definition it resolved to and that
      definition's entry, if it has one. */
  datatype Op = Work(perf: bool) | Getter(perf: bool) | Call(definition: nat, entry: Option<nat>)

  /** A definition; several may share an entry and so a performance flag. */
  datatype Def = Def(id: nat, entry: nat, perfTypes: bool, ops: seq<Op>)

  // ------------------------------------------------------------ meaning

  predicate Intrinsic(d: Def) {
    d.perfTypes || exists j :: 0 <= j < |d.ops| && !d.ops[j].Call? && d.ops[j].perf
  }

  predicate Calls(d: Def, e: nat) {
    exists j :: 0 <= j < |d.ops| && d.ops[j].Call? && d.ops[j].entry == Some(e)
  }

  predicate Listed(defs: seq<Def>, e: nat) {
    exists i :: 0 <= i < |defs| && defs[i].entry == e
  }

  /** Entry e performs, by a chain of at most n calls. */
  ghost predicate PerformsIn(defs: seq<Def>, outside: seq<bool>, e: nat, n: nat)
    decreases n
  {
    || (e < |outside| && outside[e])
    || (exists i :: 0 <= i < |defs| && defs[i].entry == e && Intrinsic(defs[i]))
    || (n > 0 && exists i, c: nat ::
          0 <= i < |defs| && defs[i].entry == e && Calls(defs[i], c) && PerformsIn(defs, outside, c, n - 1))
  }

  ghost predicate Performs(defs: seq<Def>, outside: seq<bool>, e: nat) {
    exists n: nat :: PerformsIn(defs, outside, e, n)
  }

  /** The flags of entries without a definition in this compilation stay. */
  function Outside(defs: seq<Def>, p: seq<bool>): (r: seq<bool>)
    ensures |r| == |p|
  {
    seq(|p|, e requires 0 <= e < |p| => p[e] && !Listed(defs, e))
  }

  /** All entries have a flag, and a definition has one entry. */
  ghost predicate Consistent(defs: seq<Def>, size: nat) {
    && (forall i :: 0 <= i < |defs| ==> defs[i].entry < size)
    && (forall i, j :: 0 <= i < |defs| && 0 <= j < |defs[i].ops| && defs[i].ops[j].Call? ==>
          && (defs[i].ops[j].entry.Some? ==> defs[i].ops[j].entry.value < size)
          && (defs[i].ops[j].definition == defs[i].id ==> defs[i].ops[j].entry == Some(defs[i].entry)))
  }

  ghost predicate Sound(defs: seq<Def>, outside: seq<bool>, p: seq<bool>) {
    forall e: nat :: e < |p| && p[e] ==> Performs(defs, outside, e)
  }

  ghost predicate Seeded(defs: seq<Def>, outside: seq<bool>, p: seq<bool>) {
    && |p| == |outside|
    && (forall e: nat :: e < |p| && outside[e] ==> p[e])
    && (forall i :: 0 <= i < |defs| && Intrinsic(defs[i]) && defs[i].entry < |p| ==> p[defs[i].entry])
  }

  /** The flags agree with every call of definition d. */
  ghost predicate Agrees(d: Def, p: seq<bool>) {
    d.entry < |p| && forall c: nat :: Calls(d, c) && c < |p| && p[c] ==> p[d.entry]
  }

  lemma {:induction false} Minimal(defs: seq<Def>, outside: seq<bool>, p: seq<bool>, e: nat, n: nat)
    requires Consistent(defs, |p|) && Seeded(defs, outside, p) && forall i :: 0 <= i < |defs| ==> Agrees(defs[i], p)
    requires PerformsIn(defs, outside, e, n)
    ensures e < |p| && p[e]
    decreases n
  {
    if !(e < |outside| && outside[e]) && !(exists i :: 0 <= i < |defs| && defs[i].entry == e && Intrinsic(defs[i])) {
      var i, c: nat :| 0 <= i < |defs| && defs[i].entry == e && Calls(defs[i], c) &&
          PerformsIn(defs, outside, c, n - 1);
      Minimal(defs, outside, p, c, n - 1);
      assert Agrees(defs[i], p);
    }
  }

  /** Flags that are sound, seeded and agree with all calls are the least solution. */
  lemma LeastSolution(defs: seq<Def>, outside: seq<bool>, p: seq<bool>)
    requires Consistent(defs, |p|) && Sound(defs, outside, p) && Seeded(defs, outside, p)
    requires forall i :: 0 <= i < |defs| ==> Agrees(defs[i], p)
    ensures forall e: nat :: e < |p| ==> (p[e] <==> Performs(defs, outside, e))
  {
    forall e: nat | e < |p| && Performs(defs, outside, e) ensures p[e] {
      var n: nat :| PerformsIn(defs, outside, e, n);
      Minimal(defs, outside, p, e, n);
    }
  }

  lemma CallPerforms(defs: seq<Def>, outside: seq<bool>, i: nat, c: nat)
    requires i < |defs| && Calls(defs[i], c) && Performs(defs, outside, c)
    ensures Performs(defs, outside, defs[i].entry)
  {
    var n: nat :| PerformsIn(defs, outside, c, n);
    assert PerformsIn(defs, outside, defs[i].entry, n + 1);
  }

  lemma IntrinsicPerforms(defs: seq<Def>, outside: seq<bool>, i: nat)
    requires i < |defs| && Intrinsic(defs[i])
    ensures Performs(defs, outside, defs[i].entry)
  {
    assert PerformsIn(defs, outside, defs[i].entry, 0);
  }

  // --------------------------------------------------------------- scans

  method HasIntrinsicPerf(d: Def) returns (r: bool)
    ensures r == Intrinsic(d)
  {
    if d.perfTypes {
      return true;
    }
    var j := 0;
    while j < |d.ops|
      invariant 0 <= j <= |d.ops|
      invariant forall k :: 0 <= k < j ==> d.ops[k].Call? || !d.ops[k].perf
    {
      if !d.ops[j].Call? && d.ops[j].perf {
        return true;
      }
      j := j + 1;
    }
    return false;
  }

  /** Looks for a call, of another definition, to an entry with the flag. */
  method CallsPerfDefinition(d: Def, perf: array<bool>) returns (r: bool)
    requires d.entry < perf.Length
    requires forall j :: 0 <= j < |d.ops| && d.ops[j].Call? && d.ops[j].entry.Some? ==>
             d.ops[j].entry.value < perf.Length
    requires forall j :: 0 <= j < |d.ops| && d.ops[j].Call? && d.ops[j].definition == d.id ==>
             d.ops[j].entry == Some(d.entry)
    requires !perf[d.entry]
    ensures r <==> exists c: nat :: c < perf.Length && Calls(d, c) && perf[c]
  {
    var j := 0;
    r := false;
    while j < |d.ops|
      invariant 0 <= j <= |d.ops|
      invariant forall k :: 0 <= k < j && d.ops[k].Call? && d.ops[k].entry.Some? ==> !perf[d.ops[k].entry.value]
    {
      if d.ops[j].Call? && d.ops[j].definition != d.id && d.ops[j].entry.Some? && perf[d.ops[j].entry.value] {
        assert Calls(d, d.ops[j].entry.value);
        return true;
      }
      j := j + 1;
    }
  }

  /** Clears the flags of all definitions, then sets those of intrinsic work. */
  method Seed(defs: seq<Def>, perf: array<bool>)
    requires Consistent(defs, perf.Length)
    modifies perf
    ensures Seeded(defs, Outside(defs, old(perf[..])), perf[..])
    ensures Sound(defs, Outside(defs, old(perf[..])), perf[..])
  {
    ghost var outside := Outside(defs, perf[..]);
    ghost var was := perf[..];
    var i := 0;
    while i < |defs|
      invariant 0 <= i <= |defs|
      invariant forall e: nat :: e < perf.Length ==> perf[e] == (was[e] && !Listed(defs[..i], e))
    {
      perf[defs[i].entry] := false;
      ListedNext(defs, i);
      i := i + 1;
    }
    assert defs[..i] == defs;
    assert perf[..] == outside;
    OutsidePerforms(defs, outside);
    i := 0;
    while i < |defs|
      invariant 0 <= i <= |defs| && Sound(defs, outside, perf[..])
      invariant forall e: nat :: e < perf.Length && outside[e] ==> perf[e]
      invariant forall k :: 0 <= k < i && Intrinsic(defs[k]) ==> perf[defs[k].entry]
    {
      var work := HasIntrinsicPerf(defs[i]);
      if work {
        IntrinsicPerforms(defs, outside, i);
        perf[defs[i].entry] := true;
      }
      i := i + 1;
    }
  }

  lemma ListedNext(defs: seq<Def>, i: nat)
    requires i < |defs|
    ensures forall e: nat :: Listed(defs[..i + 1], e) <==> Listed(defs[..i], e) || defs[i].entry == e
  {
    forall e: nat ensures Listed(defs[..i + 1], e) <==> Listed(defs[..i], e) || defs[i].entry == e {
      if Listed(defs[..i], e) {
        var k :| 0 <= k < i && defs[..i][k].entry == e;
        assert defs[..i + 1][k].entry == e;
      }
      if defs[i].entry == e {
        assert defs[..i + 1][i].entry == e;
      }
      if Listed(defs[..i + 1], e) {
        var k :| 0 <= k < i + 1 && defs[..i + 1][k].entry == e;
        assert k < i ==> defs[..i][k].entry == e;
      }
    }
  }

  lemma OutsidePerforms(defs: seq<Def>, outside: seq<bool>)
    ensures Sound(defs, outside, outside)
  {
    forall e: nat | e < |outside| && outside[e] ensures Performs(defs, outside, e) {
      assert PerformsIn(defs, outside, e, 0);
    }
  }

  /** What is known after the first definitions of a scan. */
  ghost predicate Scanned(defs: seq<Def>, p: seq<bool>, was: seq<bool>, i: nat, changed: bool, unresolved: nat)
    requires Consistent(defs, |p|) && |was| == |p|
  {
    && i <= |defs| && (!changed ==> p == was && forall k :: 0 <= k < i ==> Agrees(defs[k], was))
    && (unresolved == 0 ==> forall k :: 0 <= k < i ==> p[defs[k].entry])
    && (forall c: nat :: c < |p| && !Listed(defs, c) ==> p[c] == was[c])
    && (forall k :: 0 <= k < i && !p[defs[k].entry] ==> NoOutsideCall(defs, defs[k], was))
  }

  /** The definition calls no entry without a definition that has the flag. */
  ghost predicate NoOutsideCall(defs: seq<Def>, d: Def, p: seq<bool>) {
    forall c: nat :: Calls(d, c) && c < |p| && !Listed(defs, c) ==> !p[c]
  }

  lemma ScannedSet(defs: seq<Def>, p: seq<bool>, was: seq<bool>, i: nat, changed: bool, unresolved: nat)
    requires Consistent(defs, |p|) && |was| == |p| && i < |defs| && Scanned(defs, p, was, i, changed, unresolved)
    ensures Scanned(defs, p[defs[i].entry := true], was, i + 1, true, unresolved)
  {
    hide NoOutsideCall, Agrees;
    assert Listed(defs, defs[i].entry);
  }

  lemma ScannedOpen(defs: seq<Def>, p: seq<bool>, was: seq<bool>, i: nat, changed: bool, unresolved: nat)
    requires Consistent(defs, |p|) && |was| == |p| && i < |defs| && Scanned(defs, p, was, i, changed, unresolved)
    requires !exists c: nat :: c < |p| && Calls(defs[i], c) && p[c]
    ensures Scanned(defs, p, was, i + 1, changed, unresolved + 1)
  {
    assert NoOutsideCall(defs, defs[i], was);
    assert Agrees(defs[i], p);
    hide NoOutsideCall, Agrees;
  }

  lemma ScannedDone(defs: seq<Def>, p: seq<bool>, was: seq<bool>, i: nat, changed: bool, unresolved: nat)
    requires Consistent(defs, |p|) && |was| == |p| && i < |defs| && Scanned(defs, p, was, i, changed, unresolved)
    requires p[defs[i].entry]
    ensures Scanned(defs, p, was, i + 1, changed, unresolved)
  {
    assert Agrees(defs[i], p);
    hide NoOutsideCall, Agrees;
  }

  lemma ScannedAll(defs: seq<Def>, p: seq<bool>, was: seq<bool>, changed: bool, unresolved: nat)
    requires Consistent(defs, |p|) && |was| == |p| && Scanned(defs, p, was, |defs|, changed, unresolved)
    ensures !changed || unresolved == 0 ==> forall i :: 0 <= i < |defs| ==> Agrees(defs[i], p)
    ensures forall i :: 0 <= i < |defs| && !p[defs[i].entry] ==>
              forall c: nat :: Calls(defs[i], c) && c < |p| && !Listed(defs, c) ==> !p[c]
  {
    hide Listed, Calls;
  }

  /** One scan over the definitions.  When it changes nothing, or leaves nobody
      without the flag, the flags already agree with all calls. */
  method ScanOnce(defs: seq<Def>, perf: array<bool>, ghost outside: seq<bool>) returns (settled: bool)
    requires Consistent(defs, perf.Length) && Sound(defs, outside, perf[..]) && Seeded(defs, outside, perf[..])
    modifies perf
    ensures Sound(defs, outside, perf[..]) && Seeded(defs, outside, perf[..])
    ensures settled ==> forall i :: 0 <= i < |defs| ==> Agrees(defs[i], perf[..])
    ensures forall i :: 0 <= i < |defs| && !perf[defs[i].entry] ==>
              forall c: nat :: Calls(defs[i], c) && c < perf.Length && !Listed(defs, c) ==> !perf[c]
  {
    var changed, unresolved := false, 0;
    var i := 0;
    ghost var was := perf[..];
    while i < |defs|
      invariant 0 <= i <= |defs| && unresolved >= 0
      invariant Sound(defs, outside, perf[..]) && Seeded(defs, outside, perf[..])
      invariant Scanned(defs, perf[..], was, i, changed, unresolved)
    {
      ghost var p := perf[..];
      if !perf[defs[i].entry] {
        var calls := CallsPerfDefinition(defs[i], perf);
        if calls {
          ghost var c: nat :| c < perf.Length && Calls(defs[i], c) && perf[c];
          CallPerforms(defs, outside, i, c);
          perf[defs[i].entry] := true;
          assert perf[..] == p[defs[i].entry := true];
          SetFlag(defs, outside, p, defs[i].entry);
          ScannedSet(defs, p, was, i, changed, unresolved);
          changed := true;
        } else {
          unresolved := unresolved + 1;
          ScannedOpen(defs, p, was, i, changed, unresolved - 1);
        }
      } else {
        ScannedDone(defs, p, was, i, changed, unresolved);
      }
      i := i + 1;
    }
    ScannedAll(defs, perf[..], was, changed, unresolved);
    settled := !changed || unresolved == 0;
  }

  // ---------------------------------------------------------------- graph

  /** One call, in the list of the callers of an entry; next is the number, from
      one, of the following edge, and 0 ends the list. */
  datatype Edge = Edge(caller: nat, next: nat)

  ghost predicate WellLinked(edges: seq<Edge>, nodes: nat) {
    forall k :: 0 <= k < |edges| ==> edges[k].caller < nodes && edges[k].next <= k
  }

  /** The list that begins at edge number start has this caller on it. */
  ghost predicate OnList(edges: seq<Edge>, nodes: nat, start: nat, caller: nat)
    requires WellLinked(edges, nodes) && start <= |edges|
    decreases start
  {
    start != 0 && (edges[start - 1].caller == caller || OnList(edges, nodes, edges[start - 1].next, caller))
  }

  lemma {:induction false} OnListKept(edges: seq<Edge>, nodes: nat, e: Edge, start: nat, caller: nat)
    requires WellLinked(edges, nodes) && start <= |edges| && e.caller < nodes && e.next <= |edges|
    ensures WellLinked(edges + [e], nodes)
    ensures OnList(edges + [e], nodes, start, caller) == OnList(edges, nodes, start, caller)
    decreases start
  {
    if start != 0 {
      OnListKept(edges, nodes, e, edges[start - 1].next, caller);
    }
  }

  function IndexOf(nodes: seq<nat>, e: nat): (i: nat)
    ensures i <= |nodes| && (i < |nodes| ==> nodes[i] == e)
    ensures e in nodes <==> i < |nodes|
  {
    if nodes == [] || nodes[0] == e then 0 else 1 + IndexOf(nodes[1..], e)
  }

  /** The entries that have a definition, each once. */
  method CollectEntries(defs: seq<Def>) returns (nodes: seq<nat>)
    ensures Distinct(nodes) && forall e: nat :: e in nodes <==> Listed(defs, e)
  {
    nodes := [];
    var i := 0;
    while i < |defs|
      invariant 0 <= i <= |defs| && Distinct(nodes)
      invariant forall e: nat :: e in nodes <==> Listed(defs[..i], e)
    {
      ListedNext(defs, i);
      if defs[i].entry !in nodes {
        nodes := nodes + [defs[i].entry];
      }
      i := i + 1;
    }
    assert defs[..i] == defs;
  }

  /** The heads of the caller lists fit the edges. */
  ghost predicate Heads(callers: seq<nat>, edges: seq<Edge>, nodes: nat) {
    |callers| == nodes && WellLinked(edges, nodes) && forall n :: 0 <= n < nodes ==> callers[n] <= |edges|
  }

  /** Some definition with the one entry calls the other. */
  ghost predicate SomeCall(defs: seq<Def>, caller: nat, callee: nat) {
    exists i :: 0 <= i < |defs| && defs[i].entry == caller && Calls(defs[i], callee)
  }

  /** Every edge stands for a call. */
  ghost predicate EdgesAreCalls(defs: seq<Def>, nodes: seq<nat>, callers: seq<nat>, edges: seq<Edge>)
    requires Heads(callers, edges, |nodes|)
  {
    forall n: nat, m: nat :: n < |nodes| && m < |nodes| && OnList(edges, |nodes|, callers[n], m) ==>
      SomeCall(defs, nodes[m], nodes[n])
  }

  /** The calls among the first k opcodes of definition i have edges. */
  ghost predicate CallsHaveEdges(d: Def, k: nat, nodes: seq<nat>, callers: seq<nat>, edges: seq<Edge>)
    requires Heads(callers, edges, |nodes|) && k <= |d.ops|
  {
    forall j :: 0 <= j < k && d.ops[j].Call? && d.ops[j].entry.Some? && d.ops[j].entry.value != d.entry
                && d.ops[j].entry.value in nodes ==>
      OnList(edges, |nodes|, callers[IndexOf(nodes, d.ops[j].entry.value)], IndexOf(nodes, d.entry))
  }

  /** The caller lists only get longer. */
  ghost predicate Grows(nodes: seq<nat>, callers: seq<nat>, edges: seq<Edge>, callers': seq<nat>, edges': seq<Edge>)
    requires Heads(callers, edges, |nodes|) && Heads(callers', edges', |nodes|)
  {
    forall a: nat, c: nat :: a < |nodes| && OnList(edges, |nodes|, callers[a], c) ==>
        OnList(edges', |nodes|, callers'[a], c)
  }

  lemma GrowsOn(
    nodes: seq<nat>, c0: seq<nat>, e0: seq<Edge>, c1: seq<nat>, e1: seq<Edge>, c2: seq<nat>, e2: seq<Edge>)
    requires Heads(c0, e0, |nodes|) && Heads(c1, e1, |nodes|) && Heads(c2, e2, |nodes|)
    requires Grows(nodes, c0, e0, c1, e1) && Grows(nodes, c1, e1, c2, e2)
    ensures Grows(nodes, c0, e0, c2, e2)
  {}

  lemma CallsKept(
    d: Def, k: nat, nodes: seq<nat>, callers: seq<nat>, edges: seq<Edge>, callers': seq<nat>, edges': seq<Edge>)
    requires Heads(callers, edges, |nodes|) && Heads(callers', edges', |nodes|) && k <= |d.ops|
    requires CallsHaveEdges(d, k, nodes, callers, edges) && Grows(nodes, callers, edges, callers', edges')
    ensures CallsHaveEdges(d, k, nodes, callers', edges')
  {}

  /** Adding an edge from callee n to caller m keeps the others and adds this one. */
  lemma EdgeAdded(
    defs: seq<Def>, nodes: seq<nat>, callers: seq<nat>, edges: seq<Edge>, n: nat, m: nat, i: nat)
    requires Heads(callers, edges, |nodes|) && n < |nodes| && m < |nodes| && EdgesAreCalls(defs, nodes, callers, edges)
    requires i < |defs| && defs[i].entry == nodes[m] && Calls(defs[i], nodes[n])
    ensures var edges', callers' := edges + [Edge(m, callers[n])], callers[n := |edges| + 1];
            && Heads(callers', edges', |nodes|) && EdgesAreCalls(defs, nodes, callers', edges')
            && OnList(edges', |nodes|, callers'[n], m) && Grows(nodes, callers, edges, callers', edges')
  {
    hide OnList, Calls;
    var e := Edge(m, callers[n]);
    var edges', callers' := edges + [e], callers[n := |edges| + 1];
    OnListKept(edges, |nodes|, e, 0, 0);
    forall a: nat, c: nat | a < |nodes|
      ensures OnList(edges', |nodes|, callers'[a], c) <==> OnList(edges, |nodes|, callers[a], c) || (a == n && c == m)
    {
      ListAfter(nodes, callers, edges, n, m, a, c);
    }
    assert SomeCall(defs, nodes[m], nodes[n]);
  }

  lemma ListAfter(nodes: seq<nat>, callers: seq<nat>, edges: seq<Edge>, n: nat, m: nat, a: nat, c: nat)
    requires Heads(callers, edges, |nodes|) && n < |nodes| && m < |nodes| && a < |nodes|
    ensures var edges', callers' := edges + [Edge(m, callers[n])], callers[n := |edges| + 1];
            && WellLinked(edges', |nodes|) && callers'[a] <= |edges'|
            && (OnList(edges', |nodes|, callers'[a], c) <==>
                OnList(edges, |nodes|, callers[a], c) || (a == n && c == m))
  {
    OnListKept(edges, |nodes|, Edge(m, callers[n]), callers[a], c);
    assert (edges + [Edge(m, callers[n])])[|edges|] == Edge(m, callers[n]);
  }

  lemma NoEdgesYet(defs: seq<Def>, nodes: seq<nat>, callers: seq<nat>)
    requires |callers| == |nodes| && forall n :: 0 <= n < |nodes| ==> callers[n] == 0
    ensures Heads(callers, [], |nodes|) && EdgesAreCalls(defs, nodes, callers, [])
  {
    forall n: nat, m: nat | n < |nodes| ensures !OnList([], |nodes|, callers[n], m) {}
  }

  /** One edge per call of a definition without the flag, repeats included. */
  method BuildEdges(defs: seq<Def>, perf: array<bool>, nodes: seq<nat>) returns (callers: array<nat>, edges: seq<Edge>)
    requires Consistent(defs, perf.Length) && Distinct(nodes) && forall e: nat :: e in nodes <==> Listed(defs, e)
    ensures fresh(callers) && Heads(callers[..], edges, |nodes|) && EdgesAreCalls(defs, nodes, callers[..], edges)
    ensures forall i :: 0 <= i < |defs| && !perf[defs[i].entry] ==>
              CallsHaveEdges(defs[i], |defs[i].ops|, nodes, callers[..], edges)
  {
    hide EdgesAreCalls, CallsHaveEdges, Grows;
    callers := new nat[|nodes|](_ => 0);
    edges := [];
    NoEdgesYet(defs, nodes, callers[..]);
    var i := 0;
    while i < |defs|
      invariant 0 <= i <= |defs| && callers.Length == |nodes|
      invariant Heads(callers[..], edges, |nodes|) && EdgesAreCalls(defs, nodes, callers[..], edges)
      invariant forall k :: 0 <= k < i && !perf[defs[k].entry] ==>
                  CallsHaveEdges(defs[k], |defs[k].ops|, nodes, callers[..], edges)
    {
      if !perf[defs[i].entry] {
        ghost var c0, e0 := callers[..], edges;
        edges := EdgesOf(defs, nodes, callers, edges, i);
        forall k | 0 <= k < i && !perf[defs[k].entry]
          ensures CallsHaveEdges(defs[k], |defs[k].ops|, nodes, callers[..], edges)
        {
          CallsKept(defs[k], |defs[k].ops|, nodes, c0, e0, callers[..], edges);
        }
      }
      i := i + 1;
    }
  }

  method EdgesOf(
    defs: seq<Def>, nodes: seq<nat>, callers: array<nat>, before: seq<Edge>, i: nat) returns (edges: seq<Edge>)
    requires i < |defs| && forall e: nat :: e in nodes <==> Listed(defs, e)
    requires Heads(callers[..], before, |nodes|) && EdgesAreCalls(defs, nodes, callers[..], before)
    modifies callers
    ensures Heads(callers[..], edges, |nodes|) && EdgesAreCalls(defs, nodes, callers[..], edges)
    ensures CallsHaveEdges(defs[i], |defs[i].ops|, nodes, callers[..], edges)
    ensures Grows(nodes, old(callers[..]), before, callers[..], edges)
  {
    hide EdgesAreCalls, CallsHaveEdges, Grows;
    var d := defs[i];
    assert Listed(defs, d.entry);
    var m := IndexOf(nodes, d.entry);
    edges := before;
    ghost var c0 := callers[..];
    StartEdges(d, nodes, c0, before);
    var j := 0;
    while j < |d.ops|
      invariant 0 <= j <= |d.ops|
      invariant Heads(callers[..], edges, |nodes|) && EdgesAreCalls(defs, nodes, callers[..], edges)
      invariant CallsHaveEdges(d, j, nodes, callers[..], edges) && Grows(nodes, c0, before, callers[..], edges)
    {
      var op := d.ops[j];
      ghost var c1, e1 := callers[..], edges;
      if op.Call? && op.entry.Some? && op.entry.value != d.entry {
        var n := IndexOf(nodes, op.entry.value);
        if n < |nodes| {
          assert Calls(d, nodes[n]);
          EdgeAdded(defs, nodes, c1, e1, n, m, i);
          edges := edges + [Edge(m, callers[n])];
          var number: nat := |edges|;
          callers[n] := number;
          assert callers[..] == c1[n := number];
          GrowsOn(nodes, c0, before, c1, e1, callers[..], edges);
          CallsKept(d, j, nodes, c1, e1, callers[..], edges);
        }
      }
      OneMoreCall(d, j, nodes, callers[..], edges);
      j := j + 1;
    }
  }

  lemma StartEdges(d: Def, nodes: seq<nat>, callers: seq<nat>, edges: seq<Edge>)
    requires Heads(callers, edges, |nodes|)
    ensures CallsHaveEdges(d, 0, nodes, callers, edges) && Grows(nodes, callers, edges, callers, edges)
  {}

  lemma OneMoreCall(d: Def, j: nat, nodes: seq<nat>, callers: seq<nat>, edges: seq<Edge>)
    requires Heads(callers, edges, |nodes|) && j < |d.ops| && CallsHaveEdges(d, j, nodes, callers, edges)
    requires d.ops[j].Call? && d.ops[j].entry.Some? && d.ops[j].entry.value != d.entry &&
             d.ops[j].entry.value in nodes ==>
               OnList(edges, |nodes|, callers[IndexOf(nodes, d.ops[j].entry.value)], IndexOf(nodes, d.entry))
    ensures CallsHaveEdges(d, j + 1, nodes, callers, edges)
  {}

  /** The callers of the first head nodes of the queue all have the flag. */
  ghost predicate CallersDone(
    nodes: seq<nat>, callers: seq<nat>, edges: seq<Edge>, p: seq<bool>, q: seq<nat>, head: nat)
    requires Heads(callers, edges, |nodes|) && AllBelow(nodes, |p|) && head <= |q| && AllBelow(q, |nodes|)
  {
    forall k: nat, m: nat :: k < head && m < |nodes| && OnList(edges, |nodes|, callers[q[k]], m) ==> p[nodes[m]]
  }

  /** The queue holds exactly the nodes with the flag, each once. */
  ghost predicate QueueIs(nodes: seq<nat>, p: seq<bool>, q: seq<nat>)
    requires AllBelow(nodes, |p|)
  {
    Distinct(q) && AllBelow(q, |nodes|) && forall n: nat :: n < |nodes| ==> (p[nodes[n]] <==> n in q)
  }

  /** Visits the callers of one node; each flag that changes puts its node on the
      queue once, so count places are enough. */
  method VisitCallers(
    defs: seq<Def>, perf: array<bool>, nodes: seq<nat>, callers: array<nat>, edges: seq<Edge>,
    queue: array<nat>, head: nat, before: nat, ghost outside: seq<bool>) returns (tail: nat)
    requires Consistent(defs, perf.Length) && Distinct(nodes) && AllBelow(nodes, perf.Length)
    requires Heads(callers[..], edges, |nodes|) && EdgesAreCalls(defs, nodes, callers[..], edges)
    requires Sound(defs, outside, perf[..]) && Seeded(defs, outside, perf[..])
    requires head < before <= queue.Length == |nodes| && queue != callers && QueueIs(nodes, perf[..], queue[..before])
    requires CallersDone(nodes, callers[..], edges, perf[..], queue[..before], head)
    modifies perf, queue
    ensures before <= tail <= queue.Length && queue[..before] == old(queue[..before])
    ensures Sound(defs, outside, perf[..]) && Seeded(defs, outside, perf[..])
    ensures QueueIs(nodes, perf[..], queue[..tail])
    ensures CallersDone(nodes, callers[..], edges, perf[..], queue[..tail], head + 1)
    ensures forall e: nat :: e < perf.Length && old(perf[e]) ==> perf[e]
    ensures forall e: nat :: e < perf.Length && e !in nodes ==> perf[e] == old(perf[e])
  {
    hide Sound, Seeded, Consistent, EdgesAreCalls, Performs, CallersDone;
    tail := before;
    var n := queue[head];
    assert queue[..before][head] == n;
    var edge: nat := callers[n];
    while edge != 0
      invariant edge <= |edges| && before <= tail <= queue.Length && queue[..before] == old(queue[..before])
      invariant Sound(defs, outside, perf[..]) && Seeded(defs, outside, perf[..])
      invariant QueueIs(nodes, perf[..], queue[..tail])
      invariant forall m: nat :: m < |nodes| && OnList(edges, |nodes|, callers[n], m) ==>
                  perf[nodes[m]] || OnList(edges, |nodes|, edge, m)
      invariant forall m: nat :: m < |nodes| && OnList(edges, |nodes|, edge, m) ==>
                OnList(edges, |nodes|, callers[n], m)
      invariant forall e: nat :: e < perf.Length && old(perf[e]) ==> perf[e]
      invariant forall e: nat :: e < perf.Length && e !in nodes ==> perf[e] == old(perf[e])
      decreases edge
    {
      var link := edges[edge - 1];
      var m := link.caller;
      if !perf[nodes[m]] {
        assert OnList(edges, |nodes|, edge, m);
        CallerPerforms(defs, nodes, callers[..], edges, outside, perf[..], n, m);
        RoomLeft(queue[..tail], |nodes|, m);
        Enqueued(nodes, perf[..], queue[..tail], m);
        SetFlag(defs, outside, perf[..], nodes[m]);
        ghost var q, p := queue[..tail], perf[..];
        perf[nodes[m]] := true;
        queue[tail] := m;
        tail := tail + 1;
        assert queue[..tail] == q + [m] && perf[..] == p[nodes[m] := true];
      }
      edge := link.next;
    }
    assert queue[..tail][head] == n;
    CallersVisited(nodes, callers[..], edges, old(perf[..]), perf[..], old(queue[..before]), queue[..tail], head);
  }

  lemma CallersVisited(
    nodes: seq<nat>, callers: seq<nat>, edges: seq<Edge>, p: seq<bool>, p': seq<bool>, q: seq<nat>, q': seq<nat>,
        head: nat)
    requires Heads(callers, edges, |nodes|) && |p| == |p'| && AllBelow(nodes, |p|)
    requires head < |q| && AllBelow(q, |nodes|) && AllBelow(q', |nodes|) && q <= q'
    requires CallersDone(nodes, callers, edges, p, q, head) && forall e: nat :: e < |p| && p[e] ==> p'[e]
    requires forall m: nat :: m < |nodes| && OnList(edges, |nodes|, callers[q[head]], m) ==> p'[nodes[m]]
    ensures CallersDone(nodes, callers, edges, p', q', head + 1)
  {}

  lemma CallerPerforms(
    defs: seq<Def>, nodes: seq<nat>, callers: seq<nat>, edges: seq<Edge>, outside: seq<bool>, p: seq<bool>, n: nat,
        m: nat)
    requires Heads(callers, edges, |nodes|) && EdgesAreCalls(defs, nodes, callers, edges) && n < |nodes| && m < |nodes|
    requires OnList(edges, |nodes|, callers[n], m) && Sound(defs, outside, p) && nodes[n] < |p| && p[nodes[n]]
    ensures Performs(defs, outside, nodes[m])
  {
    assert SomeCall(defs, nodes[m], nodes[n]);
    var i: nat :| i < |defs| && defs[i].entry == nodes[m] && Calls(defs[i], nodes[n]);
    CallPerforms(defs, outside, i, nodes[n]);
  }

  lemma SetFlag(defs: seq<Def>, outside: seq<bool>, p: seq<bool>, e: nat)
    requires Sound(defs, outside, p) && Seeded(defs, outside, p) && e < |p| && Performs(defs, outside, e)
    ensures Sound(defs, outside, p[e := true]) && Seeded(defs, outside, p[e := true])
  {}

  lemma Enqueued(nodes: seq<nat>, p: seq<bool>, q: seq<nat>, m: nat)
    requires Distinct(nodes) && AllBelow(nodes, |p|) && QueueIs(nodes, p, q) && m < |nodes| && !p[nodes[m]]
    ensures QueueIs(nodes, p[nodes[m] := true], q + [m])
  {}

  /** The first queue: every node that has the flag. */
  method FillQueue(perf: array<bool>, nodes: seq<nat>) returns (queue: array<nat>, tail: nat)
    requires Distinct(nodes) && AllBelow(nodes, perf.Length)
    ensures fresh(queue) && queue.Length == |nodes| && tail <= queue.Length && QueueIs(nodes, perf[..], queue[..tail])
  {
    queue := new nat[|nodes|](_ => 0);
    tail := 0;
    var i := 0;
    while i < |nodes|
      invariant 0 <= i <= |nodes| && tail <= i
      invariant Distinct(queue[..tail]) && AllBelow(queue[..tail], i)
      invariant forall n: nat :: n < i ==> (perf[nodes[n]] <==> n in queue[..tail])
    {
      if perf[nodes[i]] {
        ghost var q := queue[..tail];
        queue[tail] := i;
        tail := tail + 1;
        assert queue[..tail] == q + [i];
      }
      i := i + 1;
    }
  }

  /** Every caller of something with the flag has it too. */
  ghost predicate Followed(nodes: seq<nat>, callers: seq<nat>, edges: seq<Edge>, p: seq<bool>)
    requires Heads(callers, edges, |nodes|) && AllBelow(nodes, |p|)
  {
    forall n: nat, m: nat :: n < |nodes| && m < |nodes| && p[nodes[n]] && OnList(edges, |nodes|, callers[n], m) ==>
        p[nodes[m]]
  }

  /** Follows the callers of everything that has the flag. */
  method Propagate(
    defs: seq<Def>, perf: array<bool>, nodes: seq<nat>, callers: array<nat>, edges: seq<Edge>, ghost outside: seq<bool>)
    requires Consistent(defs, perf.Length) && Distinct(nodes) && AllBelow(nodes, perf.Length)
    requires Heads(callers[..], edges, |nodes|) && EdgesAreCalls(defs, nodes, callers[..], edges)
    requires Sound(defs, outside, perf[..]) && Seeded(defs, outside, perf[..])
    modifies perf
    ensures Sound(defs, outside, perf[..]) && Seeded(defs, outside, perf[..])
    ensures Followed(nodes, callers[..], edges, perf[..])
    ensures forall e: nat :: e < perf.Length && old(perf[e]) ==> perf[e]
    ensures forall e: nat :: e < perf.Length && e !in nodes ==> perf[e] == old(perf[e])
  {
    hide Sound, Seeded, Consistent, EdgesAreCalls, OnList;
    var queue, tail := FillQueue(perf, nodes);
    var head := 0;
    NothingVisited(nodes, callers[..], edges, perf[..], queue[..tail]);
    while head < tail
      invariant 0 <= head <= tail <= queue.Length
      invariant Sound(defs, outside, perf[..]) && Seeded(defs, outside, perf[..]) &&
                QueueIs(nodes, perf[..], queue[..tail])
      invariant CallersDone(nodes, callers[..], edges, perf[..], queue[..tail], head)
      invariant forall e: nat :: e < perf.Length && old(perf[e]) ==> perf[e]
      invariant forall e: nat :: e < perf.Length && e !in nodes ==> perf[e] == old(perf[e])
      decreases |nodes| - head
    {
      tail := VisitCallers(defs, perf, nodes, callers, edges, queue, head, tail, outside);
      head := head + 1;
    }
    AllVisited(nodes, callers[..], edges, perf[..], queue[..tail]);
  }

  lemma NothingVisited(nodes: seq<nat>, callers: seq<nat>, edges: seq<Edge>, p: seq<bool>, q: seq<nat>)
    requires Heads(callers, edges, |nodes|) && AllBelow(nodes, |p|) && AllBelow(q, |nodes|)
    ensures CallersDone(nodes, callers, edges, p, q, 0)
  {}

  lemma AllVisited(nodes: seq<nat>, callers: seq<nat>, edges: seq<Edge>, p: seq<bool>, q: seq<nat>)
    requires Heads(callers, edges, |nodes|) && AllBelow(nodes, |p|) && QueueIs(nodes, p, q)
    requires CallersDone(nodes, callers, edges, p, q, |q|)
    ensures Followed(nodes, callers, edges, p)
  {
    forall n: nat, m: nat | n < |nodes| && m < |nodes| && p[nodes[n]] && OnList(edges, |nodes|, callers[n], m)
      ensures p[nodes[m]]
    {
      var k: nat :| k < |q| && q[k] == n;
    }
  }

  /** With the callers followed, the flags agree with every call. */
  lemma AllAgree(
    defs: seq<Def>, nodes: seq<nat>, callers: seq<nat>, edges: seq<Edge>, p0: seq<bool>, p: seq<bool>, i: nat)
    requires Consistent(defs, |p|) && |p0| == |p| && i < |defs| && Distinct(nodes) && AllBelow(nodes, |p|)
    requires (forall e: nat :: e in nodes <==> Listed(defs, e)) && Heads(callers, edges, |nodes|)
    requires !p0[defs[i].entry] ==> CallsHaveEdges(defs[i], |defs[i].ops|, nodes, callers, edges)
    requires !p0[defs[i].entry] ==> forall c: nat :: Calls(defs[i], c) && c < |p| && !Listed(defs, c) ==> !p0[c]
    requires Followed(nodes, callers, edges, p)
    requires forall e: nat :: e < |p| && p0[e] ==> p[e]
    requires forall e: nat :: e < |p| && e !in nodes ==> p[e] == p0[e]
    ensures Agrees(defs[i], p)
  {
    hide OnList;
    var d := defs[i];
    assert Listed(defs, d.entry);
    forall c: nat | Calls(d, c) && c < |p| && p[c] ensures p[d.entry] {
      if !p0[d.entry] && c != d.entry {
        var j :| 0 <= j < |d.ops| && d.ops[j].Call? && d.ops[j].entry == Some(c);
        assert c in nodes;
        assert OnList(edges, |nodes|, callers[IndexOf(nodes, c)], IndexOf(nodes, d.entry));
      }
    }
  }

  /** classify_udo_rates: whatever the flags were and in whatever order the
      definitions stand, each flag ends as the least solution has it. */
  method ClassifyUdoRates(defs: seq<Def>, perf: array<bool>)
    requires Consistent(defs, perf.Length)
    modifies perf
    ensures forall e: nat :: e < perf.Length ==> (perf[e] <==> Performs(defs, Outside(defs, old(perf[..])), e))
  {
    hide Sound, Seeded, Agrees, Performs, Heads, EdgesAreCalls, CallsHaveEdges, OnList;
    ghost var outside := Outside(defs, perf[..]);
    Seed(defs, perf);
    var settled := ScanOnce(defs, perf, outside);
    if !settled {
      var nodes := CollectEntries(defs);
      EntriesBelow(defs, nodes, perf.Length);
      var callers, edges := BuildEdges(defs, perf, nodes);
      ghost var p0 := perf[..];
      assert forall i :: 0 <= i < |defs| && !p0[defs[i].entry] ==>
               CallsHaveEdges(defs[i], |defs[i].ops|, nodes, callers[..], edges);
      assert forall i :: 0 <= i < |defs| && !p0[defs[i].entry] ==>
               forall c: nat :: Calls(defs[i], c) && c < |p0| && !Listed(defs, c) ==> !p0[c];
      Propagate(defs, perf, nodes, callers, edges, outside);
      forall i | 0 <= i < |defs| ensures Agrees(defs[i], perf[..]) {
        AllAgree(defs, nodes, callers[..], edges, p0, perf[..], i);
      }
    }
    LeastSolution(defs, outside, perf[..]);
  }

  lemma EntriesBelow(defs: seq<Def>, nodes: seq<nat>, size: nat)
    requires Consistent(defs, size) && forall e: nat :: e in nodes <==> Listed(defs, e)
    ensures AllBelow(nodes, size)
  {
    forall k | 0 <= k < |nodes| ensures nodes[k] < size {
      assert nodes[k] in nodes && Listed(defs, nodes[k]);
    }
  }

  // ------------------------------------------------- getter specialisation

  /** Getters that still run at performance time. */
  function PerfGetters(ops: seq<Op>): nat {
    if ops == [] then 0 else (if ops[0].Getter? && ops[0].perf then 1 else 0) + PerfGetters(ops[1..])
  }

  function AllPerfGetters(defs: seq<Def>): nat {
    if defs == [] then 0 else PerfGetters(defs[0].ops) + AllPerfGetters(defs[1..])
  }

  /** Which getters have only init-time consumers, given the flags; the analysis
      of the consumers is a parameter. */
  type Chooser = (seq<Def>, seq<bool>, nat, nat) -> bool

  /** The getters at the chosen places, with the init-only entry in place of the
      one they had; an init-only entry has no performance callback. */
  function Specialized(ops: seq<Op>, choose: Chooser, defs: seq<Def>, p: seq<bool>, i: nat, from: nat): (r: seq<Op>)
    ensures |r| == |ops|
    decreases |ops|
  {
    if ops == [] then []
    else
      [if ops[0].Getter? && ops[0].perf && choose(defs, p, i, from) then Getter(false) else ops[0]]
      + Specialized(ops[1..], choose, defs, p, i, from + 1)
  }

  lemma {:induction false} FewerGetters(ops: seq<Op>, choose: Chooser, defs: seq<Def>, p: seq<bool>, i: nat, from: nat)
    ensures PerfGetters(Specialized(ops, choose, defs, p, i, from)) <= PerfGetters(ops)
    ensures Specialized(ops, choose, defs, p, i, from) != ops ==>
            PerfGetters(Specialized(ops, choose, defs, p, i, from)) < PerfGetters(ops)
    decreases |ops|
  {
    if ops != [] {
      FewerGetters(ops[1..], choose, defs, p, i, from + 1);
      var r := Specialized(ops, choose, defs, p, i, from);
      assert r[1..] == Specialized(ops[1..], choose, defs, p, i, from + 1);
      assert r[1..] == ops[1..] && r[0] == ops[0] ==> r == ops;
    }
  }

  function SpecializedDef(d: Def, choose: Chooser, defs: seq<Def>, p: seq<bool>, i: nat): Def {
    d.(ops := Specialized(d.ops, choose, defs, p, i, 0))
  }

  lemma SpecializedFewer(d: Def, choose: Chooser, defs: seq<Def>, p: seq<bool>, i: nat)
    ensures var d' := SpecializedDef(d, choose, defs, p, i);
            PerfGetters(d'.ops) <= PerfGetters(d.ops) && (d' != d ==> PerfGetters(d'.ops) < PerfGetters(d.ops))
  {
    FewerGetters(d.ops, choose, defs, p, i, 0);
  }

  /** d' is d with the getters at the chosen places, and no others, made init-only. */
  ghost predicate MadeInitOnly(d: Def, d': Def, choose: Chooser, defs: seq<Def>, p: seq<bool>, i: nat) {
    && d'.id == d.id && d'.entry == d.entry && d'.perfTypes == d.perfTypes && |d'.ops| == |d.ops|
    && forall j :: 0 <= j < |d.ops| ==>
         d'.ops[j] == if d.ops[j] == Getter(true) && choose(defs, p, i, j) then Getter(false) else d.ops[j]
  }

  /** A getter that still runs at performance time is chosen. */
  ghost predicate SomeChosen(defs: seq<Def>, p: seq<bool>, choose: Chooser) {
    exists i, j :: 0 <= i < |defs| && 0 <= j < |defs[i].ops| && defs[i].ops[j] == Getter(true) && choose(defs, p, i, j)
  }

  lemma {:induction false} SpecializedAt(
    ops: seq<Op>, choose: Chooser, defs: seq<Def>, p: seq<bool>, i: nat, from: nat, j: nat)
    requires j < |ops|
    ensures Specialized(ops, choose, defs, p, i, from)[j] ==
            if ops[j] == Getter(true) && choose(defs, p, i, from + j) then Getter(false) else ops[j]
    decreases |ops|
  {
    if j > 0 {
      SpecializedAt(ops[1..], choose, defs, p, i, from + 1, j - 1);
    }
  }

  lemma SpecializedIs(d: Def, choose: Chooser, defs: seq<Def>, p: seq<bool>, i: nat)
    ensures MadeInitOnly(d, SpecializedDef(d, choose, defs, p, i), choose, defs, p, i)
  {
    forall j | 0 <= j < |d.ops|
      ensures Specialized(d.ops, choose, defs, p, i, 0)[j] ==
              if d.ops[j] == Getter(true) && choose(defs, p, i, j) then Getter(false) else d.ops[j]
    {
      SpecializedAt(d.ops, choose, defs, p, i, 0, j);
    }
  }

  /** specialize_init_getters over all definitions. */
  method SpecializeInitGetters(defs: seq<Def>, p: seq<bool>, choose: Chooser) returns (r: seq<Def>, changed: bool)
    ensures |r| == |defs| && forall i :: 0 <= i < |defs| ==> MadeInitOnly(defs[i], r[i], choose, defs, p, i)
    ensures changed <==> SomeChosen(defs, p, choose)
    ensures changed <==> r != defs
    ensures changed ==> AllPerfGetters(r) < AllPerfGetters(defs)
  {
    hide SpecializedDef, AllPerfGetters, PerfGetters, MadeInitOnly;
    r, changed := [], false;
    var i := 0;
    while i < |defs|
      invariant 0 <= i <= |defs| && |r| == i
      invariant forall k :: 0 <= k < i ==> MadeInitOnly(defs[k], r[k], choose, defs, p, k)
      invariant changed <==> r != defs[..i]
      invariant AllPerfGetters(r) <= AllPerfGetters(defs[..i])
      invariant changed ==> AllPerfGetters(r) < AllPerfGetters(defs[..i])
    {
      var d := SpecializedDef(defs[i], choose, defs, p, i);
      SpecializedFewer(defs[i], choose, defs, p, i);
      SpecializedIs(defs[i], choose, defs, p, i);
      GettersAppend(r, d);
      GettersAppend(defs[..i], defs[i]);
      assert defs[..i + 1] == defs[..i] + [defs[i]];
      assert (r + [d])[..i] == r && (r + [d])[i] == d && defs[..i + 1][..i] == defs[..i];
      if d != defs[i] {
        changed := true;
      }
      r := r + [d];
      i := i + 1;
    }
    assert defs[..i] == defs;
    ChangedExactly(defs, r, p, choose);
  }

  /** The code changes exactly when a getter is chosen. */
  lemma ChangedExactly(defs: seq<Def>, r: seq<Def>, p: seq<bool>, choose: Chooser)
    requires |r| == |defs| && forall i :: 0 <= i < |defs| ==> MadeInitOnly(defs[i], r[i], choose, defs, p, i)
    ensures r != defs <==> SomeChosen(defs, p, choose)
  {
    if r != defs {
      var i :| 0 <= i < |defs| && r[i] != defs[i];
      assert MadeInitOnly(defs[i], r[i], choose, defs, p, i);
      assert r[i].ops != defs[i].ops;
      var j :| 0 <= j < |defs[i].ops| && r[i].ops[j] != defs[i].ops[j];
    }
    if i, j :| 0 <= i < |defs| && 0 <= j < |defs[i].ops| && defs[i].ops[j] == Getter(true) && choose(defs, p, i, j) {
      assert MadeInitOnly(defs[i], r[i], choose, defs, p, i);
      assert r[i].ops[j] == Getter(false);
    }
  }

  lemma {:induction false} GettersAppend(defs: seq<Def>, d: Def)
    ensures AllPerfGetters(defs + [d]) == AllPerfGetters(defs) + PerfGetters(d.ops)
  {
    if defs == [] {
      assert defs + [d] == [d] && [d][1..] == [];
    } else {
      assert (defs + [d])[1..] == defs[1..] + [d];
      GettersAppend(defs[1..], d);
    }
  }

  lemma StaysConsistent(defs: seq<Def>, r: seq<Def>, p: seq<bool>, choose: Chooser, size: nat)
    requires Consistent(defs, size) && |r| == |defs|
    requires forall i :: 0 <= i < |defs| ==> MadeInitOnly(defs[i], r[i], choose, defs, p, i)
    ensures Consistent(r, size) && forall e: nat :: Listed(r, e) <==> Listed(defs, e)
  {
    forall i, j | 0 <= i < |r| && 0 <= j < |r[i].ops| && r[i].ops[j].Call? ensures r[i].ops[j] == defs[i].ops[j] {
      assert MadeInitOnly(defs[i], r[i], choose, defs, p, i);
    }
    forall e: nat ensures Listed(r, e) <==> Listed(defs, e) {
      if i :| 0 <= i < |r| && r[i].entry == e {
        assert defs[i].entry == e;
      }
      if i :| 0 <= i < |defs| && defs[i].entry == e {
        assert r[i].entry == e;
      }
    }
  }

  /** A round of the two: the code and the flags that were found for it. */
  datatype Round = Round(defs: seq<Def>, flags: seq<bool>)

  /** The flags of a round are the least solution for its code. */
  ghost predicate Classified(r: Round, outside: seq<bool>) {
    |r.flags| == |outside| && forall e: nat :: e < |r.flags| ==> (r.flags[e] <==> Performs(r.defs, outside, e))
  }

  /** The next round has the code of this one with the getters chosen in it, of which there
      is one at least, made init-only. */
  ghost predicate Follows(r: Round, r': Round, choose: Chooser) {
    && |r'.defs| == |r.defs|
    && (forall i :: 0 <= i < |r.defs| ==> MadeInitOnly(r.defs[i], r'.defs[i], choose, r.defs, r.flags, i))
    && SomeChosen(r.defs, r.flags, choose)
  }

  /** Classifying and specialising in turn comes to an end, after rounds that begin with the
      code as given, with no getter left to choose and the flags right for the code as it
      then is. */
  method ClassifyAndSpecialize(defs: seq<Def>, perf: array<bool>, choose: Chooser)
    returns (r: seq<Def>, ghost rounds: seq<Round>)
    requires Consistent(defs, perf.Length)
    modifies perf
    ensures rounds != [] && rounds[0].defs == defs && rounds[|rounds| - 1] == Round(r, perf[..])
    ensures forall n :: 0 <= n < |rounds| ==> Classified(rounds[n], Outside(defs, old(perf[..])))
    ensures forall n :: 0 < n < |rounds| ==> Follows(rounds[n - 1], rounds[n], choose)
    ensures !SomeChosen(r, perf[..], choose)
  {
    hide Performs, SomeChosen, MadeInitOnly;
    r := defs;
    ghost var outside := Outside(defs, perf[..]);
    ClassifyUdoRates(r, perf);
    rounds := [Round(r, perf[..])];
    while true
      invariant |r| == |defs| && Consistent(r, perf.Length) && forall e: nat :: Listed(r, e) <==> Listed(defs, e)
      invariant |outside| == perf.Length && forall e: nat :: e < |outside| && Listed(defs, e) ==> !outside[e]
      invariant rounds != [] && rounds[0].defs == defs && rounds[|rounds| - 1] == Round(r, perf[..])
      invariant forall n :: 0 <= n < |rounds| ==> Classified(rounds[n], outside)
      invariant forall n :: 0 < n < |rounds| ==> Follows(rounds[n - 1], rounds[n], choose)
      decreases AllPerfGetters(r)
    {
      assert Classified(rounds[|rounds| - 1], outside);
      var next, changed := SpecializeInitGetters(r, perf[..], choose);
      if !changed {
        return;
      }
      StaysConsistent(r, next, perf[..], choose, perf.Length);
      OutsideStays(r, outside, perf[..]);
      assert Outside(next, perf[..]) == Outside(r, perf[..]);
      r := next;
      ClassifyUdoRates(r, perf);
      rounds := rounds + [Round(r, perf[..])];
    }
  }

  /** An entry without a definition performs only if its flag says so. */
  lemma OutsideStays(defs: seq<Def>, outside: seq<bool>, p: seq<bool>)
    requires |p| == |outside| && forall e: nat :: e < |outside| && Listed(defs, e) ==> !outside[e]
    requires forall e: nat :: e < |p| ==> (p[e] <==> Performs(defs, outside, e))
    ensures Outside(defs, p) == outside
  {
    forall e: nat | e < |p| ensures Outside(defs, p)[e] == outside[e] {
      if !Listed(defs, e) {
        if n: nat :| PerformsIn(defs, outside, e, n) {
          NotCalled(defs, outside, e, n);
        }
        if outside[e] {
          assert PerformsIn(defs, outside, e, 0);
        }
      }
    }
  }

  lemma NotCalled(defs: seq<Def>, outside: seq<bool>, e: nat, n: nat)
    requires !Listed(defs, e) && PerformsIn(defs, outside, e, n)
    ensures e < |outside| && outside[e]
  {}
}
