/**
 Each step of the copy-on-write protocol keeps the invariant, whatever the other
 threads are in the middle of.
 */
module CowSteps {
  import opened Basics
  import opened CowArrays
  import opened CowInvariant

  lemma Now(s: State, own: Owners, t: nat)
    requires Inv(s, own) && t < |s.threads|
    ensures Sized(s) && PcOk(s, own, t) && ViewOk(s, own, s.threads[t].op.d) && own.Keys == s.bufs.Keys
    ensures s.threads[t].applied == if Committed(s.threads[t].pc) then 1 else 0
    ensures Busy(s.threads[t]) ==> Exclusive(s, t, s.threads[t].op)
    ensures Settled(s, s.threads[t].op.d) ==> Read(s, s.threads[t].op.d) == s.deep[s.threads[t].op.d]
  {}

  lemma SideNow(s: State, own: Owners, k: nat)
    requires Inv(s, own) && k in s.sides
    ensures SideOk(s, own, k)
  {}

  lemma BufNow(s: State, own: Owners, b: nat)
    requires Inv(s, own) && b in own
    ensures BufOk(s, own, b)
  {}

  /** The buffer a thread is building or about to free. */
  function HeldBuf(pc: Pc): Option<nat> {
    match pc
    case Clone(_, b, _) => Some(b)
    case Detach(_, b) => Some(b)
    case Discard(b, _) => Some(b)
    case _ => None
  }

  // ----------------------------------------- steps that move nothing around

  /** Only the place of thread t, the view and value of d and the contents of its
      own buffers may change; nothing is allocated, freed, shared or detached. */
  ghost predicate Plain(s: State, own: Owners, s': State, t: nat) {
    && t < |s.threads| && s.threads[t].op.d < |s.views| == |s.deep|
    && |s'.views| == |s.views| && |s'.deep| == |s.deep| && |s'.threads| == |s.threads|
    && (forall u :: 0 <= u < |s.threads| && u != t ==> s'.threads[u] == s.threads[u])
    && s'.threads[t].op == s.threads[t].op
    && (forall a :: 0 <= a < |s.views| && a != s.threads[t].op.d ==>
          s'.views[a] == s.views[a] && s'.deep[a] == s.deep[a])
    && s'.views[s.threads[t].op.d].data == s.views[s.threads[t].op.d].data
    && (s'.views[s.threads[t].op.d].link == s.views[s.threads[t].op.d].link ||
        (!s.views[s.threads[t].op.d].link.Side? && !s'.views[s.threads[t].op.d].link.Side?))
    && s'.sides == s.sides && s'.bufs.Keys == s.bufs.Keys
    && (forall b :: b in s.bufs ==> |s'.bufs[b]| == |s.bufs[b]|)
    && (forall b :: b in s.bufs && !Mine(own, t, s.threads[t].op.d, b) ==> s'.bufs[b] == s.bufs[b])
    && HeldBuf(s'.threads[t].pc) == HeldBuf(s.threads[t].pc)
    && !s.threads[t].pc.Destroy? && !s'.threads[t].pc.Destroy?
    && (forall k :: Keeps(s'.threads[t].pc, k) <==> Keeps(s.threads[t].pc, k))
  }

  lemma PlainFrame(s: State, own: Owners, s': State, t: nat)
    requires Inv(s, own) && Plain(s, own, s', t)
    ensures Frame(s, own, s', own, t, s.threads[t].op.d)
  {
    hide SideOk, ViewOk, PcOk, BufOk, Settled, Locked;
    forall k | k in s.sides && OtherHolder(s, t, s.threads[t].op.d, k) ensures s.sides[k].refs > 0 {
      HolderCounts(s, own, k);
    }
  }

  /** A sidecar with a holder has a positive count. */
  lemma HolderCounts(s: State, own: Owners, k: nat)
    requires Inv(s, own) && k in s.sides
    ensures forall a :: 0 <= a < |s.views| && s.views[a].link == Side(k) ==> s.sides[k].refs > 0
    ensures forall u :: 0 <= u < |s.threads| && Keeps(s.threads[u].pc, k) ==> s.sides[k].refs > 0
  {
    hide Inv, Keeps;
    SideNow(s, own, k);
    forall a | 0 <= a < |s.views| && s.views[a].link == Side(k) ensures s.sides[k].refs > 0 {
      assert a in ViewHolders(s, k);
    }
    forall u | 0 <= u < |s.threads| && Keeps(s.threads[u].pc, k) ensures s.sides[k].refs > 0 {
      assert u in ThreadHolders(s, k);
    }
  }

  lemma PlainSide(s: State, own: Owners, s': State, t: nat, k: nat)
    requires Inv(s, own) && Plain(s, own, s', t) && k in s.sides
    ensures SideOk(s', own, k)
  {
    hide Inv, Keeps;
    SideNow(s, own, k);
    assert ViewHolders(s', k) == ViewHolders(s, k);
    assert ThreadHolders(s', k) == ThreadHolders(s, k);
  }

  lemma PlainBuf(s: State, own: Owners, s': State, t: nat, b: nat)
    requires Inv(s, own) && Plain(s, own, s', t) && b in own
    ensures BufOk(s', own, b)
  {
    hide Inv, Keeps;
    BufNow(s, own, b);
  }

  lemma PlainKeeps(s: State, own: Owners, s': State, t: nat)
    requires Inv(s, own) && Plain(s, own, s', t) && Busy(s.threads[t])
    requires forall a :: Reads(s'.threads[t], a) ==> Reads(s.threads[t], a)
    requires s'.threads[t].applied == if Committed(s'.threads[t].pc) then 1 else 0
    requires InBounds(|s'.views|, s'.threads[t].op) && PcOk(s', own, t) && ViewOk(s', own, s'.threads[t].op.d)
    requires Settled(s', s.threads[t].op.d) ==> Read(s', s.threads[t].op.d) == s'.deep[s.threads[t].op.d]
    ensures Inv(s', own)
  {
    hide Inv, Frame, Keeps, PcOk, ViewOk, SideOk, BufOk, Settled, Read, Committed, Reads, Exclusive;
    Now(s, own, t);
    PlainFrame(s, own, s', t);
    forall k | k in s'.sides ensures SideOk(s', own, k) {
      PlainSide(s, own, s', t, k);
    }
    forall b | b in own ensures BufOk(s', own, b) {
      PlainBuf(s, own, s', t, b);
    }
    Assemble(s, own, s', own, t);
  }

  /** If only thread t moves and it was not changing its array before, an array
      settled now was settled before. */
  lemma WasSettled(s: State, s': State, t: nat, d: nat)
    requires t < |s.threads| == |s'.threads| && !Changing(s.threads[t], d) && Settled(s', d)
    requires forall u :: 0 <= u < |s.threads| && u != t ==> s'.threads[u] == s.threads[u]
    ensures Settled(s, d)
  {
    forall u | 0 <= u < |s.threads| ensures !Changing(s.threads[u], d) {
      assert u != t ==> s'.threads[u] == s.threads[u];
    }
  }

  lemma CloneKeeps(s: State, own: Owners, t: nat)
    requires Inv(s, own) && t < |s.threads| && s.threads[t].pc.Clone?
    ensures Inv(StepClone(s, t), own)
  {
    hide Inv, Exclusive, Settled, Locked, Plain, PcOk, ViewOk;
    Now(s, own, t);
    var s', d := StepClone(s, t), s.threads[t].op.d;
    ClonePlain(s, own, t);
    CloneMore(s, own, t);
    if Settled(s', d) {
      WasSettled(s, s', t, d);
    }
    PlainKeeps(s, own, s', t);
  }

  lemma ClonePlain(s: State, own: Owners, t: nat)
    requires Sized(s) && t < |s.threads| && s.threads[t].pc.Clone? && PcOk(s, own, t)
    ensures Plain(s, own, StepClone(s, t), t)
  {}

  lemma CloneMore(s: State, own: Owners, t: nat)
    requires Sized(s) && t < |s.threads| && s.threads[t].pc.Clone? && PcOk(s, own, t)
    requires ViewOk(s, own, s.threads[t].op.d)
    ensures var s' := StepClone(s, t);
            && |s'.views| == |s.views| == |s'.deep| && |s'.threads| == |s.threads|
            && s'.threads[t] == s.threads[t].(pc := s'.threads[t].pc)
            && (s'.threads[t].pc.Clone? || s'.threads[t].pc.Detach?)
            && s'.deep == s.deep && (forall u :: 0 <= u < |s.threads| && u != t ==> s'.threads[u] == s.threads[u])
            && PcOk(s', own, t) && ViewOk(s', own, s.threads[t].op.d)
            && Read(s', s.threads[t].op.d) == Read(s, s.threads[t].op.d)
  {
    var Clone(k, b, n) := s.threads[t].pc;
    var s', from := StepClone(s, t), s.sides[k].data;
    assert b != from;
    if n < |s.bufs[b]| {
      assert s'.bufs[b][..n + 1] == s.bufs[b][..n] + [s.bufs[from][n]];
      assert s.bufs[from][..n + 1] == s.bufs[from][..n] + [s.bufs[from][n]];
    } else {
      assert s.bufs[b][..n] == s.bufs[b] && s.bufs[from][..n] == s.bufs[from];
    }
  }

  lemma StoreKeeps(s: State, own: Owners, t: nat)
    requires Inv(s, own) && t < |s.threads| && s.threads[t].pc.Store?
    ensures Shaped(s, t) && Inv(StepStore(s, t), own)
  {
    hide Inv, Exclusive, Settled, Locked;
    Now(s, own, t);
    var s', d := StepStore(s, t), s.threads[t].op.d;
    if Settled(s', d) {
      WasSettled(s, s', t, d);
    }
    PlainKeeps(s, own, s', t);
  }

  lemma FillKeeps(s: State, own: Owners, t: nat)
    requires Inv(s, own) && t < |s.threads| && s.threads[t].pc.Fill?
    ensures Shaped(s, t) && Inv(StepFill(s, t), own)
  {
    hide Inv, Exclusive, Settled, Locked, Plain;
    Now(s, own, t);
    SourceReads(s, own, t);
    var s', d, n := StepFill(s, t), s.threads[t].op.d, s.threads[t].pc.n;
    if n < Count(s.views[d].sizes) {
      FillOne(s, own, t);
      FillMore(s, own, t);
      ChangingNotSettled(s', t, d);
    } else {
      FillEnd(s, own, t);
    }
    PlainKeeps(s, own, s', t);
  }

  lemma ChangingNotSettled(s: State, t: nat, a: nat)
    requires t < |s.threads| && Changing(s.threads[t], a)
    ensures !Settled(s, a)
  {}

  lemma FillOne(s: State, own: Owners, t: nat)
    requires Inv(s, own) && t < |s.threads| && s.threads[t].pc.Fill?
    requires Sized(s) && PcOk(s, own, t) && s.threads[t].pc.n < Count(s.views[s.threads[t].op.d].sizes)
    ensures Shaped(s, t) && Plain(s, own, StepFill(s, t), t)
  {
    hide Inv, PcOk;
    Now(s, own, t);
    assert PcOk(s, own, t);
    FillBuffers(s, own, t);
  }

  lemma FillBuffers(s: State, own: Owners, t: nat)
    requires Sized(s) && t < |s.threads| && s.threads[t].pc.Fill? && PcOk(s, own, t)
    requires ViewOk(s, own, s.threads[t].op.d)
    requires s.threads[t].pc.n < Count(s.views[s.threads[t].op.d].sizes)
    ensures s.threads[t].op.Copy? && s.threads[t].op.src != s.threads[t].op.d
    ensures var op, n := s.threads[t].op, s.threads[t].pc.n;
            var to, of := s.views[op.d].data, s.views[op.src].data;
            && to.Some? && of.Some? && Mine(own, t, op.d, to.value)
            && to.value in s.bufs && of.value in s.bufs && n < |s.bufs[to.value]| && n < |s.bufs[of.value]|
            && StepFill(s, t) ==
               Goto(s.(bufs := s.bufs[to.value := s.bufs[to.value][n := s.bufs[of.value][n]]]), t, Fill(n + 1))
  {}

  lemma FillMore(s: State, own: Owners, t: nat)
    requires Sized(s) && t < |s.threads| && s.threads[t].pc.Fill? && PcOk(s, own, t)
    requires ViewOk(s, own, s.threads[t].op.d) && s.threads[t].op.Copy? && ViewOk(s, own, s.threads[t].op.src)
    requires s.threads[t].pc.n < Count(s.views[s.threads[t].op.d].sizes)
    ensures var s' := StepFill(s, t);
            && |s'.views| == |s.views| == |s'.deep| && |s'.threads| == |s.threads|
            && s'.threads[t].op == s.threads[t].op
            && PcOk(s', own, t) && ViewOk(s', own, s.threads[t].op.d)
            && s'.threads[t].applied == s.threads[t].applied && s'.threads[t].pc.Fill?
  {
    FillBuffers(s, own, t);
    var op, n := s.threads[t].op, s.threads[t].pc.n;
    var to, of := s.views[op.d].data.value, s.views[op.src].data.value;
    assert to != of;
    var s' := StepFill(s, t);
    assert s'.bufs[to][..n] == s.bufs[to][..n];
    assert s'.bufs[to][..n + 1] == s.bufs[to][..n] + [s.bufs[of][n]];
    assert s.bufs[of][..n + 1] == s.bufs[of][..n] + [s.bufs[of][n]];
  }

  lemma FillEnd(s: State, own: Owners, t: nat)
    requires Sized(s) && t < |s.threads| && s.threads[t].pc.Fill? && PcOk(s, own, t)
    requires ViewOk(s, own, s.threads[t].op.d) && s.threads[t].op.Copy? && ViewOk(s, own, s.threads[t].op.src)
    requires s.threads[t].pc.n >= Count(s.views[s.threads[t].op.d].sizes)
    requires Read(s, s.threads[t].op.src) == s.deep[s.threads[t].op.src]
    ensures var s' := StepFill(s, t);
            && Plain(s, own, s', t) && PcOk(s', own, t) && ViewOk(s', own, s.threads[t].op.d)
            && s'.threads[t].pc == Idle(true) && s'.threads[t].applied == s.threads[t].applied + 1
            && Read(s', s.threads[t].op.d) == s'.deep[s.threads[t].op.d]
  {}

  /** An array that is being copied from reads as in the deep-copy model. */
  lemma SourceReads(s: State, own: Owners, t: nat)
    requires Inv(s, own) && t < |s.threads| && Busy(s.threads[t]) && s.threads[t].op.Copy?
    requires s.threads[t].op.src != s.threads[t].op.d && !Attaching(s.threads[t].pc)
    ensures var src := s.threads[t].op.src;
            src < |s.views| == |s.deep| && Read(s, src) == s.deep[src] && ViewOk(s, own, src)
  {
    var src := s.threads[t].op.src;
    assert Reads(s.threads[t], src);
    forall u | 0 <= u < |s.threads| ensures !Changing(s.threads[u], src) {
      assert u != t ==> !Writes(s.threads[u], src);
    }
    assert Settled(s, src);
  }

  lemma CompareKeeps(s: State, own: Owners, t: nat)
    requires Inv(s, own) && t < |s.threads| && s.threads[t].pc.Compare?
    ensures Shaped(s, t) && Inv(StepCompare(s, t), own)
  {
    hide Inv, Exclusive, Settled, Locked;
    Now(s, own, t);
    SourceReads(s, own, t);
    var s', d := StepCompare(s, t), s.threads[t].op.d;
    if Settled(s', d) {
      WasSettled(s, s', t, d);
    }
    PlainKeeps(s, own, s', t);
  }

  lemma NotKept(pc: Pc)
    requires !Attaching(pc)
    ensures forall k: nat :: !Keeps(pc, k)
  {}

  /** What a step with an outcome must establish. */
  lemma FinishKeeps(s: State, own: Owners, t: nat, o: Outcome)
    requires Inv(s, own) && t < |s.threads| && Busy(s.threads[t]) && Sized(s) && !Committed(s.threads[t].pc)
    requires PlainOutcome(s, t, o) && o.commits == Committed(o.pc)
    requires var s' := Finish(s, t, o);
             && (forall a :: Reads(s'.threads[t], a) ==> Reads(s.threads[t], a))
             && PcOk(s', own, t) && ViewOk(s', own, s.threads[t].op.d)
             && (Settled(s', s.threads[t].op.d) ==> Read(s', s.threads[t].op.d) == s'.deep[s.threads[t].op.d])
    ensures Inv(Finish(s, t, o), own)
  {
    hide Inv, PcOk, ViewOk, Settled, Read, Reads, Committed, PlainOutcome, Plain;
    Now(s, own, t);
    FinishPlain(s, own, t, o);
    PlainKeeps(s, own, Finish(s, t, o), t);
  }

  ghost predicate PlainOutcome(s: State, t: nat, o: Outcome)
    requires t < |s.threads| && s.threads[t].op.d < |s.views|
  {
    var v := s.views[s.threads[t].op.d];
    && o.v.data == v.data && (o.v.link == v.link || (!o.v.link.Side? && !v.link.Side?))
    && HeldBuf(s.threads[t].pc) == None == HeldBuf(o.pc)
    && !s.threads[t].pc.Destroy? && !o.pc.Destroy? && !Attaching(s.threads[t].pc) && !Attaching(o.pc)
  }

  lemma FinishPlain(s: State, own: Owners, t: nat, o: Outcome)
    requires t < |s.threads| && Sized(s) && PlainOutcome(s, t, o)
    ensures Plain(s, own, Finish(s, t, o), t)
  {}

  lemma ShapeKeeps(s: State, own: Owners, t: nat)
    requires Inv(s, own) && t < |s.threads| && s.threads[t].pc.Shape?
    ensures Shaped(s, t) && Inv(StepShape(s, t), own)
  {
    hide Inv, Exclusive, Settled, Locked;
    Now(s, own, t);
    SourceReads(s, own, t);
    var Copy(d, src, _, alloc) := s.threads[t].op;
    var o := ShapeOutcome(s, s.views[d], s.views[src], alloc);
    ShapeSettled(s, own, t, o);
    FinishKeeps(s, own, t, o);
  }

  /** The array is being changed while it is filled. */
  lemma ShapeSettled(s: State, own: Owners, t: nat, o: Outcome)
    requires t < |s.threads| && s.threads[t].pc.Shape? && Shaped(s, t)
    requires var op := s.threads[t].op; o == ShapeOutcome(s, s.views[op.d], s.views[op.src], op.alloc)
    ensures Settled(Finish(s, t, o), s.threads[t].op.d) ==> Settled(s, s.threads[t].op.d) && !o.pc.Fill?
  {
    hide Settled;
    var d, s' := s.threads[t].op.d, Finish(s, t, o);
    if Settled(s', d) {
      WasSettled(s, s', t, d);
      if o.pc.Fill? {
        ChangingNotSettled(s', t, d);
      }
    }
  }

  // -------------------------------------------------------- taking it over

  /** A sidecar with count one, held by the view of d, has no other holder. */
  lemma SoleHolder(s: State, own: Owners, k: nat, d: nat)
    requires Inv(s, own) && k in s.sides && s.sides[k].refs == 1 && d < |s.views| && s.views[d].link == Side(k)
    ensures ViewHolders(s, k) == {d} && ThreadHolders(s, k) == {}
    ensures forall t: nat :: t < |s.threads| ==> !OtherHolder(s, t, d, k)
  {
    hide Inv, Keeps;
    SideNow(s, own, k);
    assert d in ViewHolders(s, k);
    var rest := ViewHolders(s, k) - {d};
    assert ViewHolders(s, k) == rest + {d};
    assert |ViewHolders(s, k)| == |rest| + 1;
    assert rest == {} && ThreadHolders(s, k) == {};
    forall a | 0 <= a < |s.views| && a != d ensures s.views[a].link != Side(k) {
      assert a !in ViewHolders(s, k);
    }
    forall u | 0 <= u < |s.threads| ensures !Keeps(s.threads[u].pc, k) {
      assert u !in ThreadHolders(s, k);
    }
  }

  /** prepare_write by the only holder: the sidecar goes, the buffer stays. */
  function TakenOver(s: State, t: nat, k: nat): State
    requires t < |s.threads| && s.threads[t].op.d < |s.views| && k in s.sides
  {
    var op := s.threads[t].op;
    Goto(s.(sides := s.sides - {k},
            views := s.views[op.d := View(Some(s.sides[k].data), s.sides[k].sizes,
                                          if MayAllocate(op) then Own else WriteOwned)]),
         t, NextPc(op, ToPrepared))
  }

  ghost predicate TakesOver(s: State, t: nat, k: nat) {
    && t < |s.threads| && s.threads[t].pc.Prepare? && s.threads[t].op.d < |s.views|
    && k in s.sides && s.sides[k].refs == 1 && s.views[s.threads[t].op.d].link == Side(k)
  }

  lemma TakeOverFrame(s: State, own: Owners, t: nat, k: nat)
    requires Inv(s, own) && TakesOver(s, t, k)
    ensures Frame(s, own, TakenOver(s, t, k), own[s.sides[k].data := ByView(s.threads[t].op.d)], t, s.threads[t].op.d)
  {
    hide Inv, Keeps, SideOk, PcOk, ViewOk, Exclusive, Settled, Read, Committed, OtherHolder;
    var op, b := s.threads[t].op, s.sides[k].data;
    Now(s, own, t);
    SideFacts(s, own, t, s.threads[t].op.d);
    SoleHolder(s, own, k, op.d);
    assert own[b] == BySide(k);
  }

  /** The buffer of a sidecar and who owns it. */
  ghost predicate SideOwns(s: State, own: Owners, j: nat)
    requires j in s.sides
  {
    && s.sides[j].data in s.bufs && s.sides[j].data in own
    && (if s.sides[j].refs > 0 then own[s.sides[j].data] == BySide(j) else own[s.sides[j].data].ByThread?)
  }

  /** What holds of every sidecar. */
  lemma SideFacts(s: State, own: Owners, t: nat, d: nat)
    requires Inv(s, own)
    ensures forall j :: j in s.sides ==> SideOwns(s, own, j)
    ensures forall j :: j in s.sides && OtherHolder(s, t, d, j) ==> s.sides[j].refs > 0
  {
    forall j | j in s.sides ensures SideOwns(s, own, j) && (OtherHolder(s, t, d, j) ==> s.sides[j].refs > 0) {
      hide Inv, Keeps;
      SideNow(s, own, j);
      HolderCounts(s, own, j);
    }
  }

  lemma TakeOverSides(s: State, own: Owners, t: nat, k: nat, j: nat)
    requires Inv(s, own) && TakesOver(s, t, k) && j in s.sides && j != k
    ensures SideOk(TakenOver(s, t, k), own[s.sides[k].data := ByView(s.threads[t].op.d)], j)
  {
    hide Inv, Keeps;
    var s' := TakenOver(s, t, k);
    Now(s, own, t);
    SideNow(s, own, j);
    SideNow(s, own, k);
    NotKept(s.threads[t].pc);
    NotKept(s'.threads[t].pc);
    assert ViewHolders(s', j) == ViewHolders(s, j);
    assert ThreadHolders(s', j) == ThreadHolders(s, j);
  }

  lemma TakeOverBufs(s: State, own: Owners, t: nat, k: nat, b: nat)
    requires Inv(s, own) && TakesOver(s, t, k) && b in own
    ensures BufOk(TakenOver(s, t, k), own[s.sides[k].data := ByView(s.threads[t].op.d)], b)
  {
    hide Inv, Keeps, SideOk;
    Now(s, own, t);
    BufNow(s, own, b);
    SideFacts(s, own, t, s.threads[t].op.d);
  }

  lemma TakeOverKeeps(s: State, own: Owners, t: nat, k: nat)
    requires Inv(s, own) && TakesOver(s, t, k)
    ensures Inv(TakenOver(s, t, k), own[s.sides[k].data := ByView(s.threads[t].op.d)])
  {
    hide Inv, Frame, Keeps, SideOk, BufOk, Settled, Exclusive;
    var s', own', d := TakenOver(s, t, k), own[s.sides[k].data := ByView(s.threads[t].op.d)], s.threads[t].op.d;
    Now(s, own, t);
    SideFacts(s, own, t, s.threads[t].op.d);
    TakeOverFrame(s, own, t, k);
    forall j | j in s'.sides ensures SideOk(s', own', j) {
      TakeOverSides(s, own, t, k, j);
    }
    forall b | b in own' ensures BufOk(s', own', b) {
      TakeOverBufs(s, own, t, k, b);
    }
    if Settled(s', d) {
      WasSettled(s, s', t, d);
    }
    Assemble(s, own, s', own', t);
  }

  // --------------------------------------------------------- new buffers

  /** A fresh buffer b of n blanks for the view v, going on at pc; the end of an
      operation is its commit. */
  function Grown(s: State, t: nat, b: nat, n: nat, v: View, pc: Pc): State
    requires t < |s.threads| && InBounds(|s.views|, s.threads[t].op) && |s.deep| == |s.views|
  {
    var s1 := s.(bufs := s.bufs[b := Blanks(n)], views := s.views[s.threads[t].op.d := v]);
    if pc.Idle? then Commit(s1, t, pc) else Goto(s1, t, pc)
  }

  ghost predicate Grows(s: State, t: nat, b: nat, v: View, pc: Pc, owner: Owner) {
    && t < |s.threads| && Busy(s.threads[t]) && InBounds(|s.views|, s.threads[t].op) && |s.deep| == |s.views|
    && b !in s.bufs
    && HeldBuf(s.threads[t].pc) == None
    && !s.threads[t].pc.Destroy? && !pc.Destroy? && !Attaching(s.threads[t].pc) && !Attaching(pc)
    && if owner.ByThread? then owner == ByThread(t) && v == s.views[s.threads[t].op.d] && HeldBuf(pc) == Some(b)
       else owner == ByView(s.threads[t].op.d) && s.views[s.threads[t].op.d] == CLEARED &&
            v.data == Some(b) && v.link == Own && HeldBuf(pc) == None
  }

  lemma GrowFrame(s: State, own: Owners, t: nat, b: nat, n: nat, v: View, pc: Pc, owner: Owner)
    requires Inv(s, own) && Grows(s, t, b, v, pc, owner)
    ensures Frame(s, own, Grown(s, t, b, n, v, pc), own[b := owner], t, s.threads[t].op.d)
  {
    hide Inv, Keeps, SideOk, Grows, PcOk, ViewOk, Exclusive, Settled, Read, Committed, OtherHolder, FrameBufs,
      FrameSides;
    GrowNew(s, own, t, b, v, pc, owner);
    Now(s, own, t);
    SideFacts(s, own, t, s.threads[t].op.d);
    GrowBufs(s, own, t, b, n, v, pc, owner);
    GrowSides(s, own, t, b, n, v, pc, owner);
  }

  lemma GrowBufs(s: State, own: Owners, t: nat, b: nat, n: nat, v: View, pc: Pc, owner: Owner)
    requires Grows(s, t, b, v, pc, owner) && b !in own && own.Keys == s.bufs.Keys
    ensures FrameBufs(s, own, Grown(s, t, b, n, v, pc), own[b := owner], t, s.threads[t].op.d)
  {
    hide Keeps, OtherHolder;
  }

  lemma GrowSides(s: State, own: Owners, t: nat, b: nat, n: nat, v: View, pc: Pc, owner: Owner)
    requires Grows(s, t, b, v, pc, owner) && b !in own
    requires forall j :: j in s.sides ==> SideOwns(s, own, j)
    requires forall j :: j in s.sides && OtherHolder(s, t, s.threads[t].op.d, j) ==> s.sides[j].refs > 0
    ensures FrameSides(s, own, Grown(s, t, b, n, v, pc), own[b := owner], t, s.threads[t].op.d)
  {
    hide Keeps, OtherHolder;
  }

  lemma GrowNew(s: State, own: Owners, t: nat, b: nat, v: View, pc: Pc, owner: Owner)
    requires Inv(s, own) && Grows(s, t, b, v, pc, owner)
    ensures b !in own && t < |s.threads| && InBounds(|s.views|, s.threads[t].op) && |s.deep| == |s.views|
  {}

  lemma GrowSide(s: State, own: Owners, t: nat, b: nat, n: nat, v: View, pc: Pc, owner: Owner, j: nat)
    requires Inv(s, own) && Grows(s, t, b, v, pc, owner) && j in s.sides
    ensures SideOk(Grown(s, t, b, n, v, pc), own[b := owner], j)
  {
    hide Inv, Keeps, PcOk, ViewOk, Exclusive, Settled, Read, Committed, ViewHolders, ThreadHolders;
    Now(s, own, t);
    SideNow(s, own, j);
    GrowHolders(s, own, t, b, n, v, pc, owner, j);
  }

  lemma GrowHolders(s: State, own: Owners, t: nat, b: nat, n: nat, v: View, pc: Pc, owner: Owner, j: nat)
    requires Grows(s, t, b, v, pc, owner) && Sized(s)
    ensures ViewHolders(Grown(s, t, b, n, v, pc), j) == ViewHolders(s, j)
    ensures ThreadHolders(Grown(s, t, b, n, v, pc), j) == ThreadHolders(s, j)
  {
    hide Keeps;
    var s' := Grown(s, t, b, n, v, pc);
    NotKept(s.threads[t].pc);
    NotKept(pc);
    assert forall a: nat :: a < |s.views| ==> (s'.views[a].link == Side(j) <==> s.views[a].link == Side(j));
    assert forall u: nat :: u < |s.threads| ==> (Keeps(s'.threads[u].pc, j) <==> Keeps(s.threads[u].pc, j));
  }

  lemma GrowBuf(s: State, own: Owners, t: nat, b: nat, n: nat, v: View, pc: Pc, owner: Owner, c: nat)
    requires Inv(s, own) && Grows(s, t, b, v, pc, owner) && (c in own || c == b)
    ensures BufOk(Grown(s, t, b, n, v, pc), own[b := owner], c)
  {
    hide Inv, Keeps, SideOk;
    GrowNew(s, own, t, b, v, pc, owner);
    if c != b {
      BufNow(s, own, c);
    }
  }

  lemma GrowKeeps(s: State, own: Owners, t: nat, b: nat, n: nat, v: View, pc: Pc, owner: Owner)
    requires Inv(s, own) && Grows(s, t, b, v, pc, owner) && !Committed(s.threads[t].pc) && (pc.Idle? <==> Committed(pc))
    requires var s', own' := Grown(s, t, b, n, v, pc), own[b := owner];
             && (forall a :: Reads(s'.threads[t], a) ==> Reads(s.threads[t], a))
             && |s.deep| == |s.views| && InBounds(|s.views|, s.threads[t].op)
             && PcOk(s', own', t) && ViewOk(s', own', s.threads[t].op.d)
             && (Settled(s', s.threads[t].op.d) ==> Read(s', s.threads[t].op.d) == s'.deep[s.threads[t].op.d])
    ensures Inv(Grown(s, t, b, n, v, pc), own[b := owner])
  {
    hide Inv, Frame, Keeps, SideOk, BufOk, Settled, Exclusive, Committed, PcOk, ViewOk, Read, Reads;
    var s', own' := Grown(s, t, b, n, v, pc), own[b := owner];
    Now(s, own, t);
    GrowFrame(s, own, t, b, n, v, pc, owner);
    forall j | j in s'.sides ensures SideOk(s', own', j) {
      GrowSide(s, own, t, b, n, v, pc, owner, j);
    }
    forall c | c in own' ensures BufOk(s', own', c) {
      GrowBuf(s, own, t, b, n, v, pc, owner, c);
    }
    Assemble(s, own, s', own', t);
  }

  lemma AllocateKeeps(s: State, own: Owners, t: nat, b: nat) returns (own': Owners)
    requires Inv(s, own) && t < |s.threads| && s.threads[t].pc.Allocate?
    ensures Shaped(s, t) && Inv(StepAllocate(s, t, b), own')
  {
    hide Inv, Exclusive, Settled, Locked;
    Now(s, own, t);
    own' := own;
    if b !in s.bufs {
      var op := s.threads[t].op;
      if op.Copy? {
        SourceReads(s, own, t);
      }
      var v := View(Some(b), if op.Init? then op.sizes else s.views[op.src].sizes, Own);
      var pc := if op.Init? then Idle(true) else Fill(0);
      own' := own[b := ByView(op.d)];
      var s' := Grown(s, t, b, Capacity(v.sizes), v, pc);
      assert s' == StepAllocate(s, t, b);
      if op.Copy? {
        ChangingNotSettled(s', t, op.d);
      }
      GrowKeeps(s, own, t, b, Capacity(v.sizes), v, pc, ByView(op.d));
    }
  }

  lemma StartClone(s: State, own: Owners, t: nat, b: nat)
    requires Inv(s, own) && t < |s.threads| && s.threads[t].pc.Prepare? && b !in s.bufs
    requires s.threads[t].op.d < |s.views| && s.views[s.threads[t].op.d].link.Side?
    requires var k := s.views[s.threads[t].op.d].link.id;
             k in s.sides && s.sides[k].data in s.bufs && s.sides[k].refs > 1 && MayAllocate(s.threads[t].op)
    ensures Shaped(s, t) && Inv(StepPrepare(s, t, b), own[b := ByThread(t)])
  {
    hide Inv, Exclusive, Settled, Locked;
    Now(s, own, t);
    var d := s.threads[t].op.d;
    var k := s.views[d].link.id;
    var n := |s.bufs[s.sides[k].data]|;
    var s' := Grown(s, t, b, n, s.views[d], Clone(k, b, 0));
    assert s' == StepPrepare(s, t, b);
    if Settled(s', d) {
      WasSettled(s, s', t, d);
    }
    GrowKeeps(s, own, t, b, n, s.views[d], Clone(k, b, 0), ByThread(t));
  }

  lemma PreparePlain(s: State, own: Owners, t: nat, o: Outcome)
    requires Inv(s, own) && t < |s.threads| && s.threads[t].pc.Prepare? && s.threads[t].op.d < |s.views|
    requires var op, v := s.threads[t].op, s.views[s.threads[t].op.d];
             || (!v.link.Side? && o.pc == NextPc(op, ToPrepared) && !o.commits && o.v.(link := v.link) == v &&
                 !o.v.link.Side? && (v.data.None? ==> o.v == v))
             || (o == Outcome(v, Idle(false), false))
    ensures Sized(s) && Inv(Finish(s, t, o), own)
  {
    hide Inv, Exclusive, Settled, Locked;
    Now(s, own, t);
    var d, s' := s.threads[t].op.d, Finish(s, t, o);
    if Settled(s', d) {
      WasSettled(s, s', t, d);
    }
    FinishKeeps(s, own, t, o);
  }

  lemma PrepareKeeps(s: State, own: Owners, t: nat, b: nat) returns (own': Owners)
    requires Inv(s, own) && t < |s.threads| && s.threads[t].pc.Prepare?
    ensures Shaped(s, t) && Inv(StepPrepare(s, t, b), own')
  {
    hide Inv, Exclusive, Settled, Locked, PcOk;
    Now(s, own, t);
    own' := own;
    var op := s.threads[t].op;
    var v := s.views[op.d];
    if !v.link.Side? {
      var o := Outcome(if v.link.Own? && !MayAllocate(op) && v.data.Some? then v.(link := WriteOwned) else v,
                       NextPc(op, ToPrepared), false);
      PreparePlain(s, own, t, o);
      assert Finish(s, t, o) == StepPrepare(s, t, b);
    } else {
      var k := v.link.id;
      HolderCounts(s, own, k);
      if s.sides[k].refs == 1 {
        own' := own[s.sides[k].data := ByView(op.d)];
        TakeOverKeeps(s, own, t, k);
        assert TakenOver(s, t, k) == StepPrepare(s, t, b);
      } else if !MayAllocate(op) {
        var o := Outcome(v, Idle(false), false);
        PreparePlain(s, own, t, o);
        assert Finish(s, t, o) == StepPrepare(s, t, b);
      } else if b !in s.bufs {
        own' := own[b := ByThread(t)];
        StartClone(s, own, t, b);
      }
    }
  }

  // ------------------------------------------------------- buffers let go

  /** Buffer b and the sidecars in gone are freed. */
  function Freed(s: State, t: nat, b: nat, gone: set<nat>, after: Then): State
    requires t < |s.threads|
  {
    Goto(s.(bufs := s.bufs - {b}, sides := s.sides - gone), t, NextPc(s.threads[t].op, after))
  }

  ghost predicate Frees(s: State, own: Owners, t: nat, b: nat, gone: set<nat>, after: Then) {
    && t < |s.threads| && Has(s, own, t, b) && s.threads[t].op.d < |s.views| == |s.deep|
    && match s.threads[t].pc
       case Discard(buf, next) => buf == b && next == after && gone == {}
       case Destroy(k, next) =>
         next == after && gone == {k} && k in s.sides && s.sides[k].data == b && s.sides[k].refs == 0
       case _ => false
  }

  lemma FreedApart(s: State, own: Owners, t: nat, b: nat, gone: set<nat>, after: Then)
    requires Inv(s, own) && Frees(s, own, t, b, gone, after)
    ensures forall j :: j in s.sides && j !in gone ==> s.sides[j].data != b
    ensures forall k :: k in gone ==> k in s.sides && s.sides[k].refs == 0 && s.sides[k].data == b
    ensures t < |s.threads| && Busy(s.threads[t]) && b in own && own[b] == ByThread(t)
  {
    hide Inv;
    forall j | j in s.sides && j !in gone ensures s.sides[j].data != b {
      SideNow(s, own, j);
    }
  }

  lemma FreeFrame(s: State, own: Owners, t: nat, b: nat, gone: set<nat>, after: Then)
    requires Inv(s, own) && Frees(s, own, t, b, gone, after)
    ensures Frame(s, own, Freed(s, t, b, gone, after), own - {b}, t, s.threads[t].op.d)
  {
    hide Inv, Keeps, SideOk, Frees, PcOk, ViewOk, Exclusive, Settled, Read, Committed, OtherHolder, FrameBufs,
      FrameSides;
    FreedApart(s, own, t, b, gone, after);
    Now(s, own, t);
    SideFacts(s, own, t, s.threads[t].op.d);
    FreeBufs(s, own, t, b, gone, after);
    FreeSides(s, own, t, b, gone, after);
  }

  lemma FreeBufs(s: State, own: Owners, t: nat, b: nat, gone: set<nat>, after: Then)
    requires t < |s.threads| && b in own && own[b] == ByThread(t) && own.Keys == s.bufs.Keys
    ensures FrameBufs(s, own, Freed(s, t, b, gone, after), own - {b}, t, s.threads[t].op.d)
  {
    hide Keeps, OtherHolder;
  }

  lemma FreeSides(s: State, own: Owners, t: nat, b: nat, gone: set<nat>, after: Then)
    requires t < |s.threads| && b in own && own[b] == ByThread(t)
    requires forall j :: j in s.sides && j !in gone ==> s.sides[j].data != b
    requires forall k :: k in gone ==> k in s.sides && s.sides[k].refs == 0 && s.sides[k].data == b
    requires forall j :: j in s.sides ==> SideOwns(s, own, j)
    requires forall j :: j in s.sides && OtherHolder(s, t, s.threads[t].op.d, j) ==> s.sides[j].refs > 0
    ensures FrameSides(s, own, Freed(s, t, b, gone, after), own - {b}, t, s.threads[t].op.d)
  {
    hide Keeps, OtherHolder;
  }

  lemma KeptOn(op: Op, pc: Pc, after: Then)
    requires (pc.Discard? || pc.Destroy? || pc.Release?) && pc.after == after
    ensures forall k: nat :: Keeps(NextPc(op, after), k) <==> Keeps(pc, k)
    ensures forall b: nat :: Keeps(Discard(b, after), b) <==> after == ToAttach(b)
  {}

  lemma FreeSide(s: State, own: Owners, t: nat, b: nat, gone: set<nat>, after: Then, j: nat)
    requires Inv(s, own) && Frees(s, own, t, b, gone, after) && j in s.sides && j !in gone
    ensures SideOk(Freed(s, t, b, gone, after), own - {b}, j)
  {
    hide Inv, Keeps;
    var s' := Freed(s, t, b, gone, after);
    SideNow(s, own, j);
    FreedApart(s, own, t, b, gone, after);
    KeptOn(s.threads[t].op, s.threads[t].pc, after);
    assert ViewHolders(s', j) == ViewHolders(s, j);
    assert ThreadHolders(s', j) == ThreadHolders(s, j);
  }

  lemma FreeBuf(s: State, own: Owners, t: nat, b: nat, gone: set<nat>, after: Then, c: nat)
    requires Inv(s, own) && Frees(s, own, t, b, gone, after) && c in own && c != b
    ensures BufOk(Freed(s, t, b, gone, after), own - {b}, c)
  {
    hide Inv, Keeps;
    BufNow(s, own, c);
    FreedApart(s, own, t, b, gone, after);
    if own[c].BySide? {
      SideNow(s, own, own[c].k);
    }
  }

  lemma FreePc(s: State, own: Owners, t: nat, b: nat, gone: set<nat>, after: Then)
    requires Inv(s, own) && Frees(s, own, t, b, gone, after)
    ensures var s', d := Freed(s, t, b, gone, after), s.threads[t].op.d;
            && InBounds(|s.views|, s.threads[t].op) && PcOk(s', own - {b}, t) && ViewOk(s', own - {b}, d)
            && s'.threads[t].applied == (if Committed(s'.threads[t].pc) then 1 else 0)
            && (Settled(s', d) ==> Read(s', d) == s'.deep[d])
  {
    hide Inv, Exclusive, Settled, Locked, SideOk, Keeps;
    Now(s, own, t);
    FreedApart(s, own, t, b, gone, after);
    var s', d := Freed(s, t, b, gone, after), s.threads[t].op.d;
    if after.ToAttach? {
      ChangingNotSettled(s', t, d);
      HolderCounts(s, own, after.side);
    } else if after.ToAllocate? {
      ChangingNotSettled(s', t, d);
    } else if Settled(s', d) {
      WasSettled(s, s', t, d);
    }
  }

  lemma FreeKeeps(s: State, own: Owners, t: nat, b: nat, gone: set<nat>, after: Then)
    requires Inv(s, own) && Frees(s, own, t, b, gone, after)
    ensures Inv(Freed(s, t, b, gone, after), own - {b})
  {
    hide Inv, Frame, Keeps, SideOk, BufOk, Settled, Exclusive, Committed, PcOk, ViewOk, Read, Frees;
    FreedApart(s, own, t, b, gone, after);
    var s', own' := Freed(s, t, b, gone, after), own - {b};
    FreePc(s, own, t, b, gone, after);
    Now(s, own, t);
    FreeFrame(s, own, t, b, gone, after);
    forall j | j in s'.sides ensures SideOk(s', own', j) {
      FreeSide(s, own, t, b, gone, after, j);
    }
    forall c | c in own' ensures BufOk(s', own', c) {
      FreeBuf(s, own, t, b, gone, after, c);
    }
    FreeReads(s, own, t, b, gone, after);
    Assemble(s, own, s', own', t);
  }

  lemma FreeReads(s: State, own: Owners, t: nat, b: nat, gone: set<nat>, after: Then)
    requires Inv(s, own) && Frees(s, own, t, b, gone, after)
    ensures forall a :: Reads(Freed(s, t, b, gone, after).threads[t], a) ==> Reads(s.threads[t], a)
  {}

  lemma DiscardKeeps(s: State, own: Owners, t: nat) returns (own': Owners)
    requires Inv(s, own) && t < |s.threads| && s.threads[t].pc.Discard?
    ensures Inv(StepDiscard(s, t), own')
  {
    hide Inv;
    Now(s, own, t);
    var Discard(b, after) := s.threads[t].pc;
    own' := own - {b};
    FreeKeeps(s, own, t, b, {}, after);
    assert s.sides - {} == s.sides;
    assert Freed(s, t, b, {}, after) == StepDiscard(s, t);
  }

  lemma DestroyKeeps(s: State, own: Owners, t: nat) returns (own': Owners)
    requires Inv(s, own) && t < |s.threads| && s.threads[t].pc.Destroy?
    ensures Inv(StepDestroy(s, t), own')
  {
    hide Inv;
    Now(s, own, t);
    var Destroy(k, after) := s.threads[t].pc;
    own' := own - {s.sides[k].data};
    FreeKeeps(s, own, t, s.sides[k].data, {k}, after);
    assert Freed(s, t, s.sides[k].data, {k}, after) == StepDestroy(s, t);
  }

  // ------------------------------------------------- a reference given up

  /** The ownership after view d has given up its reference to sidecar k and, if
      it detached, taken buffer b. */
  function OwnersAfterDrop(s: State, own: Owners, t: nat, k: nat, b: Option<nat>): Owners
    requires t < |s.threads| && k in s.sides
  {
    var own1 := if b.Some? then own[b.value := ByView(s.threads[t].op.d)] else own;
    if s.sides[k].refs == 1 then own1[s.sides[k].data := ByThread(t)] else own1
  }

  ghost predicate Drops(s: State, own: Owners, s': State, t: nat, k: nat) {
    && t < |s.threads| && Busy(s.threads[t]) && s.threads[t].op.d < |s.views| == |s.deep|
    && k in s.sides && s.sides[k].refs > 0 && s.views[s.threads[t].op.d].link == Side(k)
    && |s'.views| == |s.views| && |s'.deep| == |s.deep| && |s'.threads| == |s.threads|
    && (forall u :: 0 <= u < |s.threads| && u != t ==> s'.threads[u] == s.threads[u])
    && s'.threads[t].op == s.threads[t].op
    && (forall a :: 0 <= a < |s.views| && a != s.threads[t].op.d ==>
          s'.views[a] == s.views[a] && s'.deep[a] == s.deep[a])
    && s'.sides == s.sides[k := s.sides[k].(refs := s.sides[k].refs - 1)] && s'.bufs == s.bufs
    && !s.threads[t].pc.Destroy? && HeldBuf(s'.threads[t].pc) == None
    && (if s.sides[k].refs == 1 then s'.threads[t].pc.Destroy? && s'.threads[t].pc.side == k
        else !s'.threads[t].pc.Destroy?)
    && (match HeldBuf(s.threads[t].pc)
        case None => s'.views[s.threads[t].op.d] == CLEARED
        case Some(b) => Has(s, own, t, b) && s'.views[s.threads[t].op.d].data == Some(b) &&
                        s'.views[s.threads[t].op.d].link == Own)
    && (forall j: nat :: Keeps(s'.threads[t].pc, j) <==> Keeps(s.threads[t].pc, j))
  }

  lemma DropApart(s: State, own: Owners, s': State, t: nat, k: nat)
    requires Inv(s, own) && Drops(s, own, s', t, k)
    ensures s.sides[k].data in own && own[s.sides[k].data] == BySide(k)
    ensures s.sides[k].refs == 1 ==> !OtherHolder(s, t, s.threads[t].op.d, k)
    ensures forall j :: j in s.sides && j != k ==>
              s.sides[j].data != s.sides[k].data && HeldBuf(s.threads[t].pc) != Some(s.sides[j].data)
    ensures HeldBuf(s.threads[t].pc) != Some(s.sides[k].data)
  {
    hide Inv, Keeps, OtherHolder;
    SideNow(s, own, k);
    SideFacts(s, own, t, s.threads[t].op.d);
    if s.sides[k].refs == 1 {
      SoleHolder(s, own, k, s.threads[t].op.d);
    }
    forall j | j in s.sides && j != k
      ensures s.sides[j].data != s.sides[k].data && HeldBuf(s.threads[t].pc) != Some(s.sides[j].data)
    {
      DropOther(s, own, s', t, k, j);
    }
  }

  lemma DropOther(s: State, own: Owners, s': State, t: nat, k: nat, j: nat)
    requires Inv(s, own) && Drops(s, own, s', t, k) && j in s.sides && j != k
    ensures s.sides[j].data != s.sides[k].data && HeldBuf(s.threads[t].pc) != Some(s.sides[j].data)
  {
    hide Inv, Keeps;
    SideNow(s, own, j);
    SideNow(s, own, k);
  }

  lemma DropFrame(s: State, own: Owners, s': State, t: nat, k: nat)
    requires Inv(s, own) && Drops(s, own, s', t, k)
    ensures Frame(s, own, s', OwnersAfterDrop(s, own, t, k, HeldBuf(s.threads[t].pc)), t, s.threads[t].op.d)
  {
    hide Inv, Keeps, SideOk, PcOk, ViewOk, Exclusive, Settled, Read, Committed, OtherHolder, FrameBufs, FrameSides,
      FrameViews;
    Now(s, own, t);
    DropApart(s, own, s', t, k);
    SideFacts(s, own, t, s.threads[t].op.d);
    DropViews(s, own, s', t, k);
    DropBufs(s, own, s', t, k);
    DropSides(s, own, s', t, k);
  }

  lemma DropViews(s: State, own: Owners, s': State, t: nat, k: nat)
    requires Drops(s, own, s', t, k)
    ensures FrameViews(s, s', t, s.threads[t].op.d)
  {
    hide Keeps;
  }

  lemma DropBufs(s: State, own: Owners, s': State, t: nat, k: nat)
    requires Drops(s, own, s', t, k) && own.Keys == s.bufs.Keys
    requires s.sides[k].data in own && own[s.sides[k].data] == BySide(k)
    requires s.sides[k].refs == 1 ==> !OtherHolder(s, t, s.threads[t].op.d, k)
    requires HeldBuf(s.threads[t].pc) != Some(s.sides[k].data)
    ensures FrameBufs(s, own, s', OwnersAfterDrop(s, own, t, k, HeldBuf(s.threads[t].pc)), t, s.threads[t].op.d)
  {
    hide Keeps, OtherHolder;
  }

  lemma DropSides(s: State, own: Owners, s': State, t: nat, k: nat)
    requires Drops(s, own, s', t, k)
    requires forall j :: j in s.sides ==> SideOwns(s, own, j)
    requires forall j :: j in s.sides && OtherHolder(s, t, s.threads[t].op.d, j) ==> s.sides[j].refs > 0
    requires s.sides[k].refs == 1 ==> !OtherHolder(s, t, s.threads[t].op.d, k)
    requires forall j :: j in s.sides && j != k ==>
               s.sides[j].data != s.sides[k].data && HeldBuf(s.threads[t].pc) != Some(s.sides[j].data)
    requires HeldBuf(s.threads[t].pc) != Some(s.sides[k].data)
    ensures FrameSides(s, own, s', OwnersAfterDrop(s, own, t, k, HeldBuf(s.threads[t].pc)), t, s.threads[t].op.d)
  {
    hide Keeps, OtherHolder;
  }

  lemma DropSide(s: State, own: Owners, s': State, t: nat, k: nat, j: nat)
    requires Inv(s, own) && Drops(s, own, s', t, k) && j in s.sides && j != k
    ensures SideOk(s', OwnersAfterDrop(s, own, t, k, HeldBuf(s.threads[t].pc)), j)
  {
    hide Inv, Keeps;
    SideNow(s, own, j);
    DropApart(s, own, s', t, k);
    assert ViewHolders(s', j) == ViewHolders(s, j);
    assert ThreadHolders(s', j) == ThreadHolders(s, j);
  }

  lemma DropThis(s: State, own: Owners, s': State, t: nat, k: nat)
    requires Inv(s, own) && Drops(s, own, s', t, k)
    ensures SideOk(s', OwnersAfterDrop(s, own, t, k, HeldBuf(s.threads[t].pc)), k)
  {
    hide Inv, Keeps;
    var d := s.threads[t].op.d;
    SideNow(s, own, k);
    DropApart(s, own, s', t, k);
    assert d in ViewHolders(s, k);
    assert ViewHolders(s', k) == ViewHolders(s, k) - {d};
    assert ThreadHolders(s', k) == ThreadHolders(s, k);
  }

  lemma DropBuf(s: State, own: Owners, s': State, t: nat, k: nat, c: nat)
    requires Inv(s, own) && Drops(s, own, s', t, k) && c in own
    ensures BufOk(s', OwnersAfterDrop(s, own, t, k, HeldBuf(s.threads[t].pc)), c)
  {
    hide Inv, Keeps;
    BufNow(s, own, c);
    DropApart(s, own, s', t, k);
  }

  lemma DropKeeps(s: State, own: Owners, s': State, t: nat, k: nat) returns (own': Owners)
    requires Inv(s, own) && Drops(s, own, s', t, k) && InBounds(|s.views|, s.threads[t].op)
    requires (forall a :: Reads(s'.threads[t], a) ==> Reads(s.threads[t], a))
    requires s'.threads[t].applied == if Committed(s'.threads[t].pc) then 1 else 0
    requires PcOk(s', OwnersAfterDrop(s, own, t, k, HeldBuf(s.threads[t].pc)), t)
    requires ViewOk(s', OwnersAfterDrop(s, own, t, k, HeldBuf(s.threads[t].pc)), s.threads[t].op.d)
    requires Settled(s', s.threads[t].op.d) ==> Read(s', s.threads[t].op.d) == s'.deep[s.threads[t].op.d]
    ensures Inv(s', own')
  {
    hide Inv, Frame, Keeps, SideOk, BufOk, Settled, Exclusive, Committed, PcOk, ViewOk, Read, Reads;
    own' := OwnersAfterDrop(s, own, t, k, HeldBuf(s.threads[t].pc));
    DropFrame(s, own, s', t, k);
    forall j | j in s'.sides ensures SideOk(s', own', j) {
      if j == k {
        DropThis(s, own, s', t, k);
      } else {
        DropSide(s, own, s', t, k, j);
      }
    }
    DropApart(s, own, s', t, k);
    Now(s, own, t);
    forall c | c in own' ensures BufOk(s', own', c) {
      DropBuf(s, own, s', t, k, c);
    }
    Assemble(s, own, s', own', t);
  }

  lemma DetachKeeps(s: State, own: Owners, t: nat) returns (own': Owners)
    requires Inv(s, own) && t < |s.threads| && s.threads[t].pc.Detach?
    ensures Shaped(s, t) && Inv(StepDetach(s, t), own')
  {
    hide Inv, Exclusive, Settled, Locked, SideOk;
    Now(s, own, t);
    var s', d, k := StepDetach(s, t), s.threads[t].op.d, s.threads[t].pc.side;
    HolderCounts(s, own, k);
    if Settled(s', d) {
      WasSettled(s, s', t, d);
    }
    DetachDrops(s, own, t);
    own' := DropKeeps(s, own, s', t, k);
  }

  lemma DetachDrops(s: State, own: Owners, t: nat)
    requires Sized(s) && t < |s.threads| && s.threads[t].pc.Detach? && PcOk(s, own, t)
    requires s.sides[s.threads[t].pc.side].refs > 0
    ensures Drops(s, own, StepDetach(s, t), t, s.threads[t].pc.side)
  {}

  // ------------------------------------------ a private buffer taken away

  /** The view of d is cleared and thread t holds its buffer b, to free it. */
  ghost predicate TakesAway(s: State, s': State, t: nat, b: nat) {
    && t < |s.threads| && s.threads[t].pc.Release? && s.threads[t].op.d < |s.views| == |s.deep|
    && s.views[s.threads[t].op.d].data == Some(b) && !s.views[s.threads[t].op.d].link.Side?
    && s'.views == s.views[s.threads[t].op.d := CLEARED] && s'.sides == s.sides && s'.bufs == s.bufs
    && |s'.deep| == |s.deep| && |s'.threads| == |s.threads|
    && (forall u :: 0 <= u < |s.threads| && u != t ==> s'.threads[u] == s.threads[u])
    && (forall a :: 0 <= a < |s.views| && a != s.threads[t].op.d ==> s'.deep[a] == s.deep[a])
    && s'.threads[t].op == s.threads[t].op && s'.threads[t].pc == Discard(b, s.threads[t].pc.after)
  }

  lemma TakeAwayOwner(s: State, own: Owners, s': State, t: nat, b: nat)
    requires Inv(s, own) && TakesAway(s, s', t, b)
    ensures b in own && own[b] == ByView(s.threads[t].op.d)
  {
    Now(s, own, t);
  }

  lemma TakeAwayFrame(s: State, own: Owners, s': State, t: nat, b: nat)
    requires Inv(s, own) && TakesAway(s, s', t, b)
    ensures Frame(s, own, s', own[b := ByThread(t)], t, s.threads[t].op.d)
  {
    hide Inv, Keeps, SideOk, PcOk, ViewOk, Exclusive, Settled, Read, Committed, OtherHolder;
    TakeAwayOwner(s, own, s', t, b);
    Now(s, own, t);
    SideFacts(s, own, t, s.threads[t].op.d);
  }

  lemma TakeAwaySide(s: State, own: Owners, s': State, t: nat, b: nat, j: nat)
    requires Inv(s, own) && TakesAway(s, s', t, b) && j in s.sides
    ensures SideOk(s', own[b := ByThread(t)], j)
  {
    hide Inv, Keeps;
    TakeAwayOwner(s, own, s', t, b);
    SideNow(s, own, j);
    KeptOn(s.threads[t].op, s.threads[t].pc, s.threads[t].pc.after);
    KeptThrough(s.threads[t].pc, s'.threads[t].pc);
    assert ViewHolders(s', j) == ViewHolders(s, j);
    assert ThreadHolders(s', j) == ThreadHolders(s, j);
  }

  lemma KeptThrough(pc: Pc, pc': Pc)
    requires pc.Release? && (pc'.Discard? || pc'.Destroy?) && pc'.after == pc.after
    ensures forall k: nat :: Keeps(pc', k) <==> Keeps(pc, k)
  {}

  lemma TakeAwayBuf(s: State, own: Owners, s': State, t: nat, b: nat, c: nat)
    requires Inv(s, own) && TakesAway(s, s', t, b) && c in own
    ensures BufOk(s', own[b := ByThread(t)], c)
  {
    hide Inv, Keeps;
    BufNow(s, own, c);
  }

  lemma TakeAwayKeeps(s: State, own: Owners, s': State, t: nat, b: nat)
    requires Inv(s, own) && TakesAway(s, s', t, b) && InBounds(|s.views|, s.threads[t].op)
    requires s'.threads[t].applied == if Committed(s'.threads[t].pc) then 1 else 0
    requires PcOk(s', own[b := ByThread(t)], t)
    requires Settled(s', s.threads[t].op.d) ==> Read(s', s.threads[t].op.d) == s'.deep[s.threads[t].op.d]
    ensures Inv(s', own[b := ByThread(t)])
  {
    hide Inv, Frame, Keeps, SideOk, BufOk, Settled, Exclusive, Committed, PcOk, Read;
    var own' := own[b := ByThread(t)];
    TakeAwayFrame(s, own, s', t, b);
    TakeAwayOwner(s, own, s', t, b);
    forall j | j in s'.sides ensures SideOk(s', own', j) {
      TakeAwaySide(s, own, s', t, b, j);
    }
    Now(s, own, t);
    forall c | c in own' ensures BufOk(s', own', c) {
      TakeAwayBuf(s, own, s', t, b, c);
    }
    Assemble(s, own, s', own', t);
  }

  // ---------------------------------------------------------------- release

  /** What the lock section of csound_free_array_storage leaves to be done is
      in the hands of the thread. */
  ghost predicate InHand(s: State, own: Owners, t: nat) {
    && t < |s.threads| && !s.threads[t].pc.Fault?
    && (s.threads[t].pc.Destroy? ==>
          && s.threads[t].pc.side in s.sides && s.sides[s.threads[t].pc.side].refs == 0
          && Has(s, own, t, s.sides[s.threads[t].pc.side].data))
    && (s.threads[t].pc.Discard? ==> Has(s, own, t, s.threads[t].pc.buf))
  }

  /** The shape of the state after the release. */
  lemma ReleaseShape(s: State, t: nat)
    requires Sized(s) && t < |s.threads| && s.threads[t].pc.Release? && Shaped(s, t)
    requires !StepRelease(s, t).threads[t].pc.Fault?
    ensures var s', op, after := StepRelease(s, t), s.threads[t].op, s.threads[t].pc.after;
            && |s'.threads| == |s.threads| && |s'.views| == |s.views| == |s'.deep| && s'.threads[t].op == op
            && s'.views == s.views[op.d := CLEARED]
            && s'.deep == (if after.ToEnd? then Apply(s.deep, op) else s.deep)
            && s'.threads[t].applied == s.threads[t].applied + (if after.ToEnd? then 1 else 0)
            && (s'.threads[t].pc == NextPc(op, after) ||
                ((s'.threads[t].pc.Destroy? || s'.threads[t].pc.Discard?) && s'.threads[t].pc.after == after))
            && (forall u :: 0 <= u < |s.threads| && u != t ==> s'.threads[u] == s.threads[u])
  {}

  /** What is true once the view is cleared. */
  lemma ReleaseThen(s: State, own: Owners, t: nat)
    requires Inv(s, own) && t < |s.threads| && s.threads[t].pc.Release? && Shaped(s, t)
    requires !StepRelease(s, t).threads[t].pc.Fault?
    ensures var s', op, after := StepRelease(s, t), s.threads[t].op, s.threads[t].pc.after;
            && |s'.views| == |s.views| == |s'.deep| && InBounds(|s'.views|, op)
            && ThenOk(s', op, after) && !after.ToPrepared? && !after.ToFail?
            && (if after.ToEnd? then s'.deep[op.d] == EMPTY else after.ToAttach? || after.ToAllocate?)
  {
    hide Inv, Exclusive, Settled, Locked, Keeps, StepRelease, Shared;
    Now(s, own, t);
    ReleaseShape(s, t);
    var op, after := s.threads[t].op, s.threads[t].pc.after;
    if after.ToEnd? && op.Copy? {
      SourceReads(s, own, t);
    }
    if after.ToAttach? {
      AttachedStays(s, own, t, after.side);
    }
  }

  lemma ReleasePc(s: State, own: Owners, t: nat, own': Owners)
    requires Inv(s, own) && t < |s.threads| && s.threads[t].pc.Release? && Shaped(s, t)
    requires InHand(StepRelease(s, t), own', t)
    ensures var s', d := StepRelease(s, t), s.threads[t].op.d;
            && s'.views[d] == CLEARED && |s'.deep| == |s'.views| == |s.views| && |s'.threads| == |s.threads|
            && s'.threads[t].op == s.threads[t].op
            && PcOk(s', own', t)
            && s'.threads[t].applied == (if Committed(s'.threads[t].pc) then 1 else 0)
            && (Settled(s', d) ==> Read(s', d) == s'.deep[d])
            && forall a :: Reads(s'.threads[t], a) ==> Reads(s.threads[t], a)
  {
    hide Inv, Exclusive, Settled, Locked, Keeps, StepRelease, ThenOk, ViewOk, Shared;
    Now(s, own, t);
    ReleaseShape(s, t);
    ReleaseThen(s, own, t);
    var s', after := StepRelease(s, t), s.threads[t].pc.after;
    if !after.ToEnd? {
      ChangingNotSettled(s', t, s.threads[t].op.d);
    }
  }

  /** A sidecar already retained survives the release of the old storage. */
  lemma AttachedStays(s: State, own: Owners, t: nat, k: nat)
    requires Inv(s, own) && t < |s.threads| && s.threads[t].pc == Release(ToAttach(k)) && Shaped(s, t)
    requires k in s.sides && s.sides[k].refs > 0
    ensures var s' := StepRelease(s, t);
            k in s'.sides && s'.sides[k].refs > 0 && s'.deep == s.deep && Shared(s', k) == Shared(s, k)
  {
    hide Inv;
    var d := s.threads[t].op.d;
    assert t in ThreadHolders(s, k);
    if s.views[d].link == Side(k) && s.sides[k].refs == 1 {
      SoleHolder(s, own, k, d);
    }
  }

  lemma ReleaseKeeps(s: State, own: Owners, t: nat) returns (own': Owners)
    requires Inv(s, own) && t < |s.threads| && s.threads[t].pc.Release?
    ensures Shaped(s, t) && Inv(StepRelease(s, t), own')
  {
    hide Inv, Exclusive, Settled, Locked, SideOk, PcOk, Read, Committed, Reads, Keeps, Plain, Drops;
    Now(s, own, t);
    var s', d := StepRelease(s, t), s.threads[t].op.d;
    var v := s.views[d];
    if v.link.Side? {
      var k := v.link.id;
      HolderCounts(s, own, k);
      DropApartNow(s, own, t);
      own' := OwnersAfterDrop(s, own, t, k, None);
      ReleaseDrops(s, own, t);
      ReleasePc(s, own, t, own');
      own' := DropKeeps(s, own, s', t, k);
    } else if v.data.Some? {
      own' := own[v.data.value := ByThread(t)];
      ReleasePc(s, own, t, own');
      TakeAwayKeeps(s, own, s', t, v.data.value);
    } else {
      own' := own;
      ReleasePc(s, own, t, own);
      ReleasePlain(s, own, t);
      PlainKeeps(s, own, s', t);
    }
  }

  lemma DropApartNow(s: State, own: Owners, t: nat)
    requires Inv(s, own) && t < |s.threads| && s.threads[t].op.d < |s.views| && s.views[s.threads[t].op.d].link.Side?
    ensures var k := s.views[s.threads[t].op.d].link.id;
            && k in s.sides && s.sides[k].refs > 0 && s.sides[k].data in s.bufs && s.sides[k].data in own
  {
    hide Inv;
    Now(s, own, t);
    HolderCounts(s, own, s.views[s.threads[t].op.d].link.id);
  }

  lemma ReleaseDrops(s: State, own: Owners, t: nat)
    requires Sized(s) && t < |s.threads| && s.threads[t].pc.Release? && Shaped(s, t)
    requires s.views[s.threads[t].op.d].link.Side?
    requires var k := s.views[s.threads[t].op.d].link.id; k in s.sides && s.sides[k].refs > 0
    ensures Drops(s, own, StepRelease(s, t), t, s.views[s.threads[t].op.d].link.id)
  {
    hide Keeps;
    var pc, pc' := s.threads[t].pc, StepRelease(s, t).threads[t].pc;
    KeptOn(s.threads[t].op, pc, pc.after);
    if pc'.Destroy? {
      KeptThrough(pc, pc');
    }
  }

  lemma ReleasePlain(s: State, own: Owners, t: nat)
    requires Sized(s) && t < |s.threads| && s.threads[t].pc.Release? && Shaped(s, t)
    requires s.views[s.threads[t].op.d] == CLEARED
    ensures Plain(s, own, StepRelease(s, t), t)
  {
    hide Keeps;
    var pc := s.threads[t].pc;
    KeptOn(s.threads[t].op, pc, pc.after);
  }

  // ---------------------------------------------------------------- sharing

  ghost predicate Attaches(s: State, t: nat, k: nat) {
    && t < |s.threads| && s.threads[t].pc == Attach(k) && s.threads[t].op.d < |s.views| == |s.deep|
    && k in s.sides && s.sides[k].refs > 0 && s.views[s.threads[t].op.d] == CLEARED
    && InBounds(|s.views|, s.threads[t].op)
  }

  lemma AttachFrame(s: State, own: Owners, t: nat, k: nat)
    requires Inv(s, own) && Attaches(s, t, k)
    ensures Frame(s, own, StepAttach(s, t), own, t, s.threads[t].op.d)
  {
    hide Inv, Keeps, SideOk, PcOk, ViewOk, Exclusive, Settled, Read, Committed, OtherHolder;
    Now(s, own, t);
    SideFacts(s, own, t, s.threads[t].op.d);
  }

  function One(p: bool): nat {
    if p then 1 else 0
  }

  /** A set that differs from another at x only. */
  lemma SizeWithout(a: set<nat>, b: set<nat>, x: nat)
    requires a - {x} == b - {x}
    ensures |a| - One(x in a) == |b| - One(x in b)
  {
    assert x in a ==> a == (a - {x}) + {x};
    assert x in b ==> b == (b - {x}) + {x};
    assert x !in a ==> a == a - {x};
    assert x !in b ==> b == b - {x};
  }

  lemma ThreadHoldersAfter(s: State, s': State, t: nat, j: nat)
    requires t < |s.threads| == |s'.threads|
    requires forall u :: 0 <= u < |s.threads| && u != t ==> s'.threads[u] == s.threads[u]
    ensures |ThreadHolders(s', j)| - One(Keeps(s'.threads[t].pc, j)) ==
            |ThreadHolders(s, j)| - One(Keeps(s.threads[t].pc, j))
  {
    hide Keeps, One;
    assert ThreadHolders(s', j) - {t} == ThreadHolders(s, j) - {t};
    SizeWithout(ThreadHolders(s', j), ThreadHolders(s, j), t);
  }

  lemma ViewHoldersAfter(s: State, s': State, d: nat, j: nat)
    requires d < |s.views| == |s'.views|
    requires forall a :: 0 <= a < |s.views| && a != d ==> s'.views[a] == s.views[a]
    ensures |ViewHolders(s', j)| - One(s'.views[d].link == Side(j)) ==
            |ViewHolders(s, j)| - One(s.views[d].link == Side(j))
  {
    hide One;
    assert ViewHolders(s', j) - {d} == ViewHolders(s, j) - {d};
    SizeWithout(ViewHolders(s', j), ViewHolders(s, j), d);
  }

  lemma AttachHolders(s: State, t: nat, k: nat, j: nat)
    requires Attaches(s, t, k)
    ensures var s' := StepAttach(s, t);
            |ViewHolders(s', j)| + |ThreadHolders(s', j)| == |ViewHolders(s, j)| + |ThreadHolders(s, j)|
  {
    hide ViewHolders, ThreadHolders;
    var s', d := StepAttach(s, t), s.threads[t].op.d;
    ThreadHoldersAfter(s, s', t, j);
    ViewHoldersAfter(s, s', d, j);
  }

  lemma AttachSide(s: State, own: Owners, t: nat, k: nat, j: nat)
    requires Inv(s, own) && Attaches(s, t, k) && j in s.sides
    ensures SideOk(StepAttach(s, t), own, j)
  {
    hide Inv, ViewHolders, ThreadHolders, Keeps;
    SideNow(s, own, j);
    AttachHolders(s, t, k, j);
  }

  lemma AttachBuf(s: State, own: Owners, t: nat, k: nat, c: nat)
    requires Inv(s, own) && Attaches(s, t, k) && c in own
    ensures BufOk(StepAttach(s, t), own, c)
  {
    hide Inv, Keeps;
    BufNow(s, own, c);
  }

  lemma AttachKeeps(s: State, own: Owners, t: nat)
    requires Inv(s, own) && t < |s.threads| && s.threads[t].pc.Attach?
    ensures Shaped(s, t) && Inv(StepAttach(s, t), own)
  {
    hide Inv, Frame, Keeps, BufOk, Settled, Exclusive, Locked;
    Now(s, own, t);
    var s', d, k := StepAttach(s, t), s.threads[t].op.d, s.threads[t].pc.side;
    SideNow(s, own, k);
    AttachFrame(s, own, t, k);
    forall j | j in s'.sides ensures SideOk(s', own, j) {
      AttachSide(s, own, t, k, j);
    }
    forall c | c in own ensures BufOk(s', own, c) {
      AttachBuf(s, own, t, k, c);
    }
    Assemble(s, own, s', own, t);
  }

  /** Taking another reference to the sidecar of the source. */
  ghost predicate Retains(s: State, t: nat, k: nat) {
    && t < |s.threads| && s.threads[t].pc.Share? && s.threads[t].op.Copy?
    && s.threads[t].op.d < |s.views| == |s.deep| && s.threads[t].op.src < |s.views|
    && s.threads[t].op.d != s.threads[t].op.src
    && k in s.sides && s.sides[k].refs > 0 && s.views[s.threads[t].op.src].link == Side(k)
  }

  function Retained(s: State, t: nat, k: nat): State
    requires t < |s.threads| && InBounds(|s.views|, s.threads[t].op) && |s.deep| == |s.views| && k in s.sides
  {
    Commit(AddRef(s, k), t, Release(ToAttach(k)))
  }

  lemma RetainFrame(s: State, own: Owners, t: nat, k: nat)
    requires Inv(s, own) && Retains(s, t, k)
    ensures Frame(s, own, Retained(s, t, k), own, t, s.threads[t].op.d)
  {
    hide Inv, Keeps, SideOk, PcOk, ViewOk, Exclusive, Settled, Read, Committed, OtherHolder;
    Now(s, own, t);
    SideFacts(s, own, t, s.threads[t].op.d);
  }

  lemma RetainSide(s: State, own: Owners, t: nat, k: nat, j: nat)
    requires Inv(s, own) && Retains(s, t, k) && j in s.sides
    ensures SideOk(Retained(s, t, k), own, j)
  {
    hide Inv, ThreadHolders;
    var s' := Retained(s, t, k);
    SideNow(s, own, j);
    ThreadHoldersAfter(s, s', t, j);
    assert ViewHolders(s', j) == ViewHolders(s, j);
  }

  lemma RetainBuf(s: State, own: Owners, t: nat, k: nat, c: nat)
    requires Inv(s, own) && Retains(s, t, k) && c in own
    ensures BufOk(Retained(s, t, k), own, c)
  {
    hide Inv, Keeps;
    BufNow(s, own, c);
  }

  lemma RetainKeeps(s: State, own: Owners, t: nat, k: nat)
    requires Inv(s, own) && Retains(s, t, k)
    ensures Inv(Retained(s, t, k), own)
  {
    hide Inv, Frame, Keeps, BufOk, Settled, Exclusive, Locked, SideOk;
    Now(s, own, t);
    var s', d := Retained(s, t, k), s.threads[t].op.d;
    SourceReads(s, own, t);
    RetainFrame(s, own, t, k);
    forall j | j in s'.sides ensures SideOk(s', own, j) {
      RetainSide(s, own, t, k, j);
    }
    forall c | c in own ensures BufOk(s', own, c) {
      RetainBuf(s, own, t, k, c);
    }
    ChangingNotSettled(s', t, d);
    Assemble(s, own, s', own, t);
  }

  /** Putting a new sidecar k over the private storage of the source. */
  ghost predicate Installs(s: State, t: nat, k: nat, b: nat) {
    && t < |s.threads| && s.threads[t].pc.Share? && s.threads[t].op.Copy?
    && s.threads[t].op.d < |s.views| == |s.deep| && s.threads[t].op.src < |s.views|
    && s.threads[t].op.d != s.threads[t].op.src && k !in s.sides
    && s.views[s.threads[t].op.src].link.Own? && s.views[s.threads[t].op.src].data == Some(b)
  }

  function Installed(s: State, t: nat, k: nat, b: nat): State
    requires t < |s.threads| && InBounds(|s.views|, s.threads[t].op) && |s.deep| == |s.views| && s.threads[t].op.Copy?
  {
    var src := s.threads[t].op.src;
    Commit(s.(sides := s.sides[k := Sidecar(2, b, s.views[src].sizes)],
              views := s.views[src := s.views[src].(link := Side(k))]), t, Release(ToAttach(k)))
  }

  lemma InstallOwner(s: State, own: Owners, t: nat, k: nat, b: nat)
    requires Inv(s, own) && Installs(s, t, k, b)
    ensures b in own && own[b] == ByView(s.threads[t].op.src)
    ensures forall u: nat :: u < |s.threads| && u != t ==> !Writes(s.threads[u], s.threads[t].op.src)
  {
    AtView(s, own, s.threads[t].op.src);
    assert Reads(s.threads[t], s.threads[t].op.src);
    forall u: nat | u < |s.threads| && u != t ensures !Writes(s.threads[u], s.threads[t].op.src) {
      if Busy(s.threads[u]) {
        assert !Reads(s.threads[t], s.threads[u].op.d);
      }
    }
  }

  lemma InstallFrame(s: State, own: Owners, t: nat, k: nat, b: nat)
    requires Inv(s, own) && Installs(s, t, k, b)
    ensures Frame(s, own, Installed(s, t, k, b), own[b := BySide(k)], t, s.threads[t].op.d)
  {
    hide Inv, Keeps, SideOk, PcOk, ViewOk, Exclusive, Settled, Read, Committed, OtherHolder, Writes;
    InstallOwner(s, own, t, k, b);
    Now(s, own, t);
    SideFacts(s, own, t, s.threads[t].op.d);
  }

  lemma InstallSide(s: State, own: Owners, t: nat, k: nat, b: nat, j: nat)
    requires Inv(s, own) && Installs(s, t, k, b) && j in s.sides
    ensures SideOk(Installed(s, t, k, b), own[b := BySide(k)], j)
  {
    hide Inv;
    var s' := Installed(s, t, k, b);
    SideNow(s, own, j);
    InstallOwner(s, own, t, k, b);
    assert ViewHolders(s', j) == ViewHolders(s, j);
    assert ThreadHolders(s', j) == ThreadHolders(s, j);
  }

  lemma InstallThis(s: State, own: Owners, t: nat, k: nat, b: nat)
    requires Inv(s, own) && Installs(s, t, k, b)
    ensures SideOk(Installed(s, t, k, b), own[b := BySide(k)], k)
  {
    hide Inv;
    var s', src := Installed(s, t, k, b), s.threads[t].op.src;
    AtView(s, own, src);
    NoHolders(s, own, k);
    assert ViewHolders(s', k) == {src};
    assert ThreadHolders(s', k) == {t};
  }

  /** Nobody refers to a sidecar that does not exist. */
  lemma NoHolders(s: State, own: Owners, k: nat)
    requires Inv(s, own) && k !in s.sides
    ensures forall a :: 0 <= a < |s.views| ==> s.views[a].link != Side(k)
    ensures forall u :: 0 <= u < |s.threads| ==> !Keeps(s.threads[u].pc, k)
  {
    hide Inv;
    forall a | 0 <= a < |s.views| ensures s.views[a].link != Side(k) {
      AtView(s, own, a);
    }
    forall u | 0 <= u < |s.threads| ensures !Keeps(s.threads[u].pc, k) {
      Now(s, own, u);
    }
  }

  lemma InstallBuf(s: State, own: Owners, t: nat, k: nat, b: nat, c: nat)
    requires Inv(s, own) && Installs(s, t, k, b) && c in own
    ensures BufOk(Installed(s, t, k, b), own[b := BySide(k)], c)
  {
    hide Inv, Keeps;
    InstallOwner(s, own, t, k, b);
    BufNow(s, own, c);
  }

  lemma InstallKeeps(s: State, own: Owners, t: nat, k: nat, b: nat)
    requires Inv(s, own) && Installs(s, t, k, b)
    ensures Inv(Installed(s, t, k, b), own[b := BySide(k)])
  {
    hide Inv, Frame, Keeps, BufOk, Settled, Exclusive, Locked, SideOk;
    Now(s, own, t);
    var s', own', d := Installed(s, t, k, b), own[b := BySide(k)], s.threads[t].op.d;
    SourceReads(s, own, t);
    InstallOwner(s, own, t, k, b);
    InstallFrame(s, own, t, k, b);
    forall j | j in s'.sides ensures SideOk(s', own', j) {
      if j == k {
        InstallThis(s, own, t, k, b);
      } else {
        InstallSide(s, own, t, k, b, j);
      }
    }
    forall c | c in own' ensures BufOk(s', own', c) {
      InstallBuf(s, own, t, k, b, c);
    }
    ChangingNotSettled(s', t, d);
    Assemble(s, own, s', own', t);
  }

  lemma SharePlain(s: State, own: Owners, t: nat, o: Outcome)
    requires Inv(s, own) && t < |s.threads| && s.threads[t].pc.Share? && s.threads[t].op.d < |s.views|
    requires o.v == s.views[s.threads[t].op.d]
    requires if o.commits then o.pc == Idle(true) else o.pc == Compare || o.pc == Share(true) || o.pc == Idle(false)
    requires o.commits ==>
               && s.threads[t].op.Copy? && s.threads[t].op.src < |s.views|
               && Read(s, s.threads[t].op.d) == Read(s, s.threads[t].op.src)
    ensures Sized(s) && Inv(Finish(s, t, o), own)
  {
    hide Inv, Exclusive, Settled, Locked;
    Now(s, own, t);
    SourceReads(s, own, t);
    var d, s' := s.threads[t].op.d, Finish(s, t, o);
    if Settled(s', d) {
      WasSettled(s, s', t, d);
    }
    FinishKeeps(s, own, t, o);
  }

  /** The same, as a step that leaves the view alone. */
  lemma ShareEnds(s: State, own: Owners, t: nat, o: Outcome)
    requires Inv(s, own) && t < |s.threads| && s.threads[t].pc.Share? && InBounds(|s.views|, s.threads[t].op)
    requires |s.deep| == |s.views| && o.v == s.views[s.threads[t].op.d]
    requires if o.commits then o.pc == Idle(true) else o.pc == Compare || o.pc == Share(true) || o.pc == Idle(false)
    requires o.commits ==> s.threads[t].op.Copy? && Read(s, s.threads[t].op.d) == Read(s, s.threads[t].op.src)
    ensures Inv(if o.commits then Commit(s, t, o.pc) else Goto(s, t, o.pc), own)
  {
    hide Inv;
    SharePlain(s, own, t, o);
    assert s.(views := s.views[s.threads[t].op.d := o.v]) == s;
  }

  lemma ShareKeeps(s: State, own: Owners, t: nat, k: nat) returns (own': Owners)
    requires Inv(s, own) && t < |s.threads| && s.threads[t].pc.Share?
    ensures Shaped(s, t) && Inv(StepShare(s, t, k), own')
  {
    hide Inv, Exclusive, Settled, Locked;
    Now(s, own, t);
    SourceReads(s, own, t);
    own' := own;
    var dest, from := s.views[s.threads[t].op.d], s.views[s.threads[t].op.src];
    if from.link.WriteOwned? || from.data.None? {
      ShareEnds(s, own, t, Outcome(dest, Compare, false));
    } else if dest.data == from.data && dest.link.Side? && dest.link == from.link {
      ShareEnds(s, own, t, Outcome(dest, Idle(true), true));
    } else if from.link.Own? {
      if !s.threads[t].pc.candidate {
        ShareEnds(s, own, t, Outcome(dest, Share(true), false));
      } else if k !in s.sides {
        own' := own[from.data.value := BySide(k)];
        InstallKeeps(s, own, t, k, from.data.value);
      }
    } else {
      HolderCounts(s, own, from.link.id);
      if s.sides[from.link.id].refs == MAX_REFS {
        ShareEnds(s, own, t, Outcome(dest, Idle(false), false));
      } else {
        RetainKeeps(s, own, t, from.link.id);
      }
    }
  }

  // ------------------------------------------------------ a new operation

  /** Thread t takes up an operation and nothing else changes. */
  ghost predicate TakesUp(s: State, s': State, t: nat, op: Op) {
    && t < |s.threads| && s.threads[t].pc.Idle? && MayBegin(s, op)
    && s'.views == s.views && s'.sides == s.sides && s'.bufs == s.bufs && s'.deep == s.deep
    && |s'.threads| == |s.threads| && s'.threads[t].op == op
    && (forall u :: 0 <= u < |s.threads| && u != t ==> s'.threads[u] == s.threads[u])
    && !Attaching(s'.threads[t].pc) && HeldBuf(s'.threads[t].pc) == None && !s'.threads[t].pc.Destroy?
    && ((op.Copy? && s'.threads[t].pc.Idle?) || Busy(s'.threads[t]))
  }

  lemma TakeUpFrame(s: State, own: Owners, s': State, t: nat, op: Op)
    requires Inv(s, own) && TakesUp(s, s', t, op)
    ensures Frame(s, own, s', own, t, op.d) && Exclusive(s, t, op) && Sized(s)
  {
    hide Keeps, SideOk, PcOk, ViewOk, BufOk, Settled, Locked, Read, Committed, OtherHolder, Mine;
    SideFacts(s, own, t, op.d);
    assert forall b :: b in own ==> b in s.bufs;
  }

  lemma TakeUpSide(s: State, own: Owners, s': State, t: nat, op: Op, j: nat)
    requires Inv(s, own) && TakesUp(s, s', t, op) && j in s.sides
    ensures SideOk(s', own, j)
  {
    hide Inv, Keeps;
    SideNow(s, own, j);
    NotKept(s.threads[t].pc);
    NotKept(s'.threads[t].pc);
    assert ViewHolders(s', j) == ViewHolders(s, j);
    assert ThreadHolders(s', j) == ThreadHolders(s, j);
  }

  lemma TakeUpBuf(s: State, own: Owners, s': State, t: nat, op: Op, c: nat)
    requires Inv(s, own) && TakesUp(s, s', t, op) && c in own
    ensures BufOk(s', own, c)
  {
    hide Inv, Keeps;
    BufNow(s, own, c);
  }

  lemma TakeUpLocked(s: State, own: Owners, s': State, t: nat, op: Op)
    requires Inv(s, own) && TakesUp(s, s', t, op)
    ensures Sized(s') && Locked(s')
  {
    forall v, u | 0 <= v < |s.threads| && 0 <= u < |s.threads| && v != u && Busy(s'.threads[v])
      ensures !Writes(s'.threads[u], s'.threads[v].op.d) && !Reads(s'.threads[u], s'.threads[v].op.d)
    {
      if v == t {
        assert s'.threads[u] == s.threads[u];
      } else if u == t {
        assert Writes(s.threads[v], s.threads[v].op.d);
      } else {
        assert Busy(s.threads[v]);
      }
    }
  }

  lemma TakeUpSame(s: State, own: Owners, s': State, t: nat, op: Op)
    requires Inv(s, own) && TakesUp(s, s', t, op) && Sized(s')
    ensures Same(s')
  {
    forall a | 0 <= a < |s'.views| && Settled(s', a) ensures Read(s', a) == s'.deep[a] {
      hide Read, Inv;
      WasSettled(s, s', t, a);
      SettledReads(s, own, a);
      assert Read(s', a) == Read(s, a) by { SameRead(s, s', a); }
    }
  }

  lemma SettledReads(s: State, own: Owners, a: nat)
    requires Inv(s, own) && a < |s.views| && Settled(s, a)
    ensures |s.deep| == |s.views| && Read(s, a) == s.deep[a]
  {}

  lemma SameRead(s: State, s': State, a: nat)
    requires s'.views == s.views && s'.bufs == s.bufs && a < |s.views|
    ensures Read(s', a) == Read(s, a)
  {}

  lemma TakeUpKeeps(s: State, own: Owners, s': State, t: nat, op: Op)
    requires Inv(s, own) && TakesUp(s, s', t, op)
    requires |s.deep| == |s.views| && InBounds(|s.views|, op) && PcOk(s', own, t)
    requires s'.threads[t].applied == if Committed(s'.threads[t].pc) then 1 else 0
    ensures Inv(s', own)
  {
    hide Inv, Frame, Exclusive, ViewOk, SideOk, BufOk, PcOk, Same, Locked, Committed, TakesUp, Keeps, Busy;
    TakeUpShape(s, own, s', t, op);
    TakeUpFrame(s, own, s', t, op);
    TakeUpLocked(s, own, s', t, op);
    TakeUpSame(s, own, s', t, op);
    forall j | j in s'.sides ensures SideOk(s', own, j) {
      TakeUpSide(s, own, s', t, op, j);
    }
    forall c | c in own ensures BufOk(s', own, c) {
      TakeUpBuf(s, own, s', t, op, c);
    }
    forall u | 0 <= u < |s'.threads| ensures PcOk(s', own, u) {
      if u != t {
        OtherPc(s, own, s', own, t, op, u);
      }
    }
    AllParts(s', own);
  }

  lemma TakeUpShape(s: State, own: Owners, s': State, t: nat, op: Op)
    requires Inv(s, own) && TakesUp(s, s', t, op)
    ensures |s'.threads| == |s.threads| && s'.sides == s.sides && own.Keys == s'.bufs.Keys && InBounds(|s.views|, op)
    ensures forall a :: 0 <= a < |s'.views| ==> ViewOk(s', own, a)
    ensures forall u :: 0 <= u < |s'.threads| && u != t ==>
              s'.threads[u].applied == if Committed(s'.threads[u].pc) then 1 else 0
  {
    hide SideOk, BufOk, PcOk, Same, Locked, Committed, Busy;
    forall a | 0 <= a < |s'.views| ensures ViewOk(s', own, a) {
      AtView(s, own, a);
    }
  }

  lemma AllParts(s: State, own: Owners)
    requires Sized(s) && Locked(s) && own.Keys == s.bufs.Keys && Same(s)
    requires forall a :: 0 <= a < |s.views| ==> ViewOk(s, own, a)
    requires forall k :: k in s.sides ==> SideOk(s, own, k)
    requires forall b :: b in own ==> BufOk(s, own, b)
    requires forall t :: 0 <= t < |s.threads| ==> PcOk(s, own, t)
    requires forall t :: 0 <= t < |s.threads| ==> s.threads[t].applied == if Committed(s.threads[t].pc) then 1 else 0
    ensures Inv(s, own)
  {}

  lemma BeginKeeps(s: State, own: Owners, t: nat, input: Input)
    requires Inv(s, own) && t < |s.threads| && s.threads[t].pc.Idle?
    ensures Inv(Begin(s, t, input), own)
  {
    hide Inv;
    var s', op := Begin(s, t, input), input.op;
    if MayBegin(s, op) {
      if op.Copy? && op.d == op.src {
        assert s'.deep == s.deep;
      }
      if op.Init? {
        AtView(s, own, op.d);
      }
      TakeUpKeeps(s, own, s', t, op);
    }
  }

  lemma StepKeeps(s: State, own: Owners, t: nat, input: Input) returns (own': Owners)
    requires Inv(s, own) && t < |s.threads|
    ensures Shaped(s, t) && Inv(Step(s, t, input), own')
  {
    hide Inv, Begin, StepShare, StepCompare, StepPrepare, StepClone, StepDetach, StepStore, StepShape, StepRelease;
    hide StepDestroy, StepDiscard, StepAttach, StepAllocate, StepFill, ViewOk, Exclusive, Settled, Read, Committed;
    Now(s, own, t);
    own' := own;
    match s.threads[t].pc {
      case Idle(_) => BeginKeeps(s, own, t, input);
      case Share(_) => own' := ShareKeeps(s, own, t, input.spare);
      case Compare => CompareKeeps(s, own, t);
      case Prepare => own' := PrepareKeeps(s, own, t, input.spare);
      case Clone(_, _, _) => CloneKeeps(s, own, t);
      case Detach(_, _) => own' := DetachKeeps(s, own, t);
      case Store => StoreKeeps(s, own, t);
      case Shape => ShapeKeeps(s, own, t);
      case Release(_) => own' := ReleaseKeeps(s, own, t);
      case Destroy(_, _) => own' := DestroyKeeps(s, own, t);
      case Discard(_, _) => own' := DiscardKeeps(s, own, t);
      case Attach(_) => AttachKeeps(s, own, t);
      case Allocate => own' := AllocateKeeps(s, own, t, input.spare);
      case Fill(_) => FillKeeps(s, own, t);
    }
  }
}
