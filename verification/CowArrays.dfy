/**
 Copy-on-write storage of structured arrays as a step system.  Several threads
 copy, write and free arrays; each lock section of the storage protocol is one
 step, and so is each element copied outside the lock.  Touching memory that has
 been freed, or freeing it again, leads to Fault.

 Beside the real state runs a plain one in which every copy is deep and every
 operation takes effect at once, at its commit step.
 */
module CowArrays {
  import opened Basics

  // ---------------------------------------------------------------- values

  datatype Elem = Blank | Elem(id: int)

  /** What a program reads through an array: its dimensions and its elements. */
  datatype Value = Value(sizes: seq<nat>, elems: seq<Elem>)

  const EMPTY := Value([], [])

  function Product(sizes: seq<nat>): nat {
    if sizes == [] then 1 else sizes[0] * Product(sizes[1..])
  }

  /** The number of elements of an array with these dimensions. */
  function Count(sizes: seq<nat>): nat {
    if sizes == [] then 0 else Product(sizes)
  }

  /** An array owns at least one element slot. */
  function Capacity(sizes: seq<nat>): nat {
    if Count(sizes) == 0 then 1 else Count(sizes)
  }

  function Blanks(n: nat): seq<Elem> {
    seq(n, _ => Blank)
  }

  // ----------------------------------------------------------------- state

  /** The storage field: null, the write-owned marker, or a shared sidecar. */
  datatype Link = Own | WriteOwned | Side(id: nat)

  /** An array as its holder sees it. */
  datatype View = View(data: Option<nat>, sizes: seq<nat>, link: Link)

  const CLEARED := View(None, [], Own)

  /** A reference-counted sidecar over one element buffer. */
  datatype Sidecar = Sidecar(refs: nat, data: nat, sizes: seq<nat>)

  /** An operation on array d; alloc says whether it may allocate. */
  datatype Op =
    | Copy(d: nat, src: nat, share: bool, alloc: bool)
    | Write(d: nat, i: nat, v: Elem, alloc: bool)
    | Free(d: nat)
    | Init(d: nat, sizes: seq<nat>)

  /** What follows when old storage has been let go. */
  datatype Then = ToAttach(side: nat) | ToPrepared | ToAllocate | ToEnd | ToFail

  datatype Pc =
    | Idle(ok: bool)                          // the last operation succeeded or not
    | Share(candidate: bool)                  // entering the lock of csound_array_share
    | Compare                                 // testing for two views of one value
    | Prepare                                 // entering the lock of prepare_write
    | Clone(side: nat, buf: nat, n: nat)      // n elements copied, outside the lock
    | Detach(side: nat, buf: nat)             // entering the second lock of prepare_write
    | Store                                   // about to write the element
    | Shape                                   // choosing how to copy independently
    | Release(after: Then)                     // entering csound_free_array_storage
    | Destroy(side: nat, after: Then)          // about to destroy a sidecar
    | Discard(buf: nat, after: Then)           // about to free a private buffer
    | Attach(side: nat)                       // about to fill in the shared view
    | Allocate                                // about to allocate a private buffer
    | Fill(n: nat)                            // n elements copied independently
    | Fault                                   // touched memory that is not there

  /** applied counts how often the current operation took effect. */
  datatype Thread = Thread(op: Op, pc: Pc, applied: nat)

  datatype State = State(
    views: seq<View>, sides: map<nat, Sidecar>, bufs: map<nat, seq<Elem>>,
    threads: seq<Thread>, deep: seq<Value>)

  /** A thread that may begin an operation, and an address to allocate at. */
  datatype Input = Input(op: Op, spare: nat)

  const MAX_REFS: nat := 0x7FFF_FFFF

  // ------------------------------------------------------ the deep-copy model

  /** The operation in a model where each copy is deep and atomic. */
  function Apply(deep: seq<Value>, op: Op): (r: seq<Value>)
    requires InBounds(|deep|, op)
    ensures |r| == |deep|
  {
    match op
    case Copy(d, src, _, _) => deep[d := deep[src]]
    case Write(d, i, v, _) =>
      if i < |deep[d].elems| then deep[d := deep[d].(elems := deep[d].elems[i := v])] else deep
    case Free(d) => deep[d := EMPTY]
    case Init(d, sizes) => deep[d := Value(sizes, Blanks(Count(sizes)))]
  }

  predicate InBounds(n: nat, op: Op) {
    op.d < n && (op.Copy? ==> op.src < n)
  }

  // ----------------------------------------------------------------- locks

  /** Between its first and last step an operation has its array to itself. */
  predicate Busy(th: Thread) {
    !th.pc.Idle? && !th.pc.Fault?
  }

  /** The old storage goes for a sidecar already retained. */
  predicate Attaching(pc: Pc) {
    pc.Attach? || ((pc.Release? || pc.Destroy? || pc.Discard?) && pc.after.ToAttach?)
  }

  /** The thread keeps others from writing array a, which it copies from. */
  predicate Reads(th: Thread, a: nat) {
    Busy(th) && th.op.Copy? && th.op.src == a && !Attaching(th.pc)
  }

  predicate Writes(th: Thread, a: nat) {
    Busy(th) && th.op.d == a
  }

  predicate MayBegin(s: State, op: Op) {
    && InBounds(|s.views|, op) && |s.deep| == |s.views|
    && (forall u :: 0 <= u < |s.threads| ==> !Writes(s.threads[u], op.d) && !Reads(s.threads[u], op.d))
    && (op.Copy? ==> forall u :: 0 <= u < |s.threads| ==> !Writes(s.threads[u], op.src))
    && (op.Init? ==> op.sizes != [] && s.views[op.d].data.None?)
  }

  // ----------------------------------------------------------------- steps

  function Goto(s: State, t: nat, pc: Pc): State
    requires t < |s.threads|
  {
    s.(threads := s.threads[t := s.threads[t].(pc := pc)])
  }

  /** Goes on to pc with the operation taking effect in the deep model. */
  function Commit(s: State, t: nat, pc: Pc): State
    requires t < |s.threads| && InBounds(|s.deep|, s.threads[t].op)
  {
    var th := s.threads[t];
    s.(threads := s.threads[t := Thread(th.op, pc, th.applied + 1)], deep := Apply(s.deep, th.op))
  }

  function NextPc(op: Op, after: Then): Pc {
    match after
    case ToAttach(k) => Attach(k)
    case ToPrepared => if op.Copy? then Shape else Store
    case ToAllocate => Allocate
    case ToEnd => Idle(true)
    case ToFail => Idle(false)
  }

  function MayAllocate(op: Op): bool {
    match op
    case Copy(_, _, _, alloc) => alloc
    case Write(_, _, _, alloc) => alloc
    case _ => true
  }

  function Start(s: State, t: nat, op: Op): State
    requires t < |s.threads| && InBounds(|s.views|, op) && |s.deep| == |s.views|
  {
    var s1 := s.(threads := s.threads[t := Thread(op, Idle(false), 0)]);
    match op
    case Copy(d, src, share, _) =>
      if d == src then Commit(s1, t, Idle(true))
      else Goto(s1, t, if share then Share(false) else Compare)
    case Write(_, _, _, _) => Goto(s1, t, Prepare)
    case Free(_) => Goto(s1, t, Release(ToEnd))
    case Init(_, _) => Goto(s1, t, Allocate)
  }

  function Begin(s: State, t: nat, input: Input): State
    requires t < |s.threads|
  {
    if MayBegin(s, input.op) then Start(s, t, input.op) else s
  }

  /** The lock section of csound_array_share. */
  function StepShare(s: State, t: nat, spare: nat): State
    requires t < |s.threads| && InBounds(|s.views|, s.threads[t].op) && |s.deep| == |s.views|
    requires s.threads[t].pc.Share? && s.threads[t].op.Copy?
  {
    var d, src := s.threads[t].op.d, s.threads[t].op.src;
    var dest, from := s.views[d], s.views[src];
    if from.link.WriteOwned? || from.data.None? then Goto(s, t, Compare)
    else if dest.data == from.data && dest.link.Side? && dest.link == from.link then Commit(s, t, Idle(true))
    else if from.link.Own? then
      if !s.threads[t].pc.candidate then Goto(s, t, Share(true))
      else if spare in s.sides then s
      else
        Commit(s.(sides := s.sides[spare := Sidecar(2, from.data.value, from.sizes)],
                  views := s.views[src := from.(link := Side(spare))]), t, Release(ToAttach(spare)))
    else
      var k := from.link.id;
      if k !in s.sides then Goto(s, t, Fault)
      else if s.sides[k].refs == 0 || s.sides[k].refs == MAX_REFS then Goto(s, t, Idle(false))
      else Commit(AddRef(s, k), t, Release(ToAttach(k)))
  }

  function AddRef(s: State, k: nat): State
    requires k in s.sides
  {
    s.(sides := s.sides[k := s.sides[k].(refs := s.sides[k].refs + 1)])
  }

  function DropRef(s: State, k: nat): State
    requires k in s.sides && s.sides[k].refs > 0
  {
    s.(sides := s.sides[k := s.sides[k].(refs := s.sides[k].refs - 1)])
  }

  /** Two views of one logical value need no copying. */
  function StepCompare(s: State, t: nat): State
    requires t < |s.threads| && InBounds(|s.views|, s.threads[t].op) && |s.deep| == |s.views|
    requires s.threads[t].op.Copy?
  {
    var dest, from := s.views[s.threads[t].op.d], s.views[s.threads[t].op.src];
    if dest.data.Some? && dest.data == from.data && dest.sizes == from.sizes
    then Commit(s, t, Idle(true))
    else Goto(s, t, Prepare)
  }

  /** The first lock section of csound_array_prepare_write_impl. */
  function StepPrepare(s: State, t: nat, spare: nat): State
    requires t < |s.threads| && InBounds(|s.views|, s.threads[t].op)
  {
    var op := s.threads[t].op;
    var v, go := s.views[op.d], NextPc(op, ToPrepared);
    match v.link
    case Own =>
      if !MayAllocate(op) && v.data.Some?
      then Goto(s.(views := s.views[op.d := v.(link := WriteOwned)]), t, go)
      else Goto(s, t, go)
    case WriteOwned => Goto(s, t, go)
    case Side(k) =>
      if k !in s.sides then Goto(s, t, Fault)
      else if s.sides[k].refs == 0 then Goto(s, t, Idle(false))
      else if s.sides[k].refs == 1 then
        Goto(s.(sides := s.sides - {k},
                views := s.views[op.d := View(Some(s.sides[k].data), s.sides[k].sizes,
                                              if MayAllocate(op) then Own else WriteOwned)]), t, go)
      else if !MayAllocate(op) then Goto(s, t, Idle(false))
      else if s.sides[k].data !in s.bufs then Goto(s, t, Fault)
      else if spare in s.bufs then s
      else Goto(s.(bufs := s.bufs[spare := Blanks(|s.bufs[s.sides[k].data]|)]), t, Clone(k, spare, 0))
  }

  /** One element of the clone, read from the shared buffer without the lock. */
  function StepClone(s: State, t: nat): State
    requires t < |s.threads| && s.threads[t].pc.Clone?
  {
    var Clone(k, b, n) := s.threads[t].pc;
    if k !in s.sides || s.sides[k].data !in s.bufs || b !in s.bufs then Goto(s, t, Fault)
    else
      var from, to := s.bufs[s.sides[k].data], s.bufs[b];
      if n >= |from| then Goto(s, t, Detach(k, b))
      else if n >= |to| then Goto(s, t, Fault)
      else Goto(s.(bufs := s.bufs[b := to[n := from[n]]]), t, Clone(k, b, n + 1))
  }

  /** The second lock section: install the clone and give the reference up. */
  function StepDetach(s: State, t: nat): State
    requires t < |s.threads| && InBounds(|s.views|, s.threads[t].op) && s.threads[t].pc.Detach?
  {
    var op, k, b := s.threads[t].op, s.threads[t].pc.side, s.threads[t].pc.buf;
    if k !in s.sides then Goto(s, t, Fault)
    else if s.views[op.d].link != Side(k) || s.sides[k].refs == 0 then Goto(s, t, Discard(b, ToFail))
    else
      var s1 := DropRef(s, k).(views := s.views[op.d := View(Some(b), s.views[op.d].sizes, Own)]);
      Goto(s1, t, if s1.sides[k].refs == 0 then Destroy(k, ToPrepared) else NextPc(op, ToPrepared))
  }

  /** The lock section of csound_free_array_storage. */
  function StepRelease(s: State, t: nat): State
    requires t < |s.threads| && InBounds(|s.views|, s.threads[t].op) && |s.deep| == |s.views|
    requires s.threads[t].pc.Release?
  {
    var op, after := s.threads[t].op, s.threads[t].pc.after;
    var v, s1 := s.views[op.d], s.(views := s.views[op.d := CLEARED]);
    match v.link
    case Side(k) =>
      if k !in s.sides || s.sides[k].refs == 0 then Goto(s, t, Fault)
      else
        var s2 := DropRef(s1, k);
        Released(s2, t, after, if s2.sides[k].refs == 0 then Destroy(k, after) else NextPc(op, after))
    case _ =>
      Released(s1, t, after, if v.data.Some? then Discard(v.data.value, after) else NextPc(op, after))
  }

  /** Freeing an array takes effect when its view is cleared. */
  function Released(s: State, t: nat, after: Then, pc: Pc): State
    requires t < |s.threads| && InBounds(|s.deep|, s.threads[t].op)
  {
    if after.ToEnd? then Commit(s, t, pc) else Goto(s, t, pc)
  }

  function StepDestroy(s: State, t: nat): State
    requires t < |s.threads| && s.threads[t].pc.Destroy?
  {
    var k := s.threads[t].pc.side;
    if k !in s.sides || s.sides[k].data !in s.bufs then Goto(s, t, Fault)
    else
      Goto(s.(bufs := s.bufs - {s.sides[k].data}, sides := s.sides - {k}), t,
           NextPc(s.threads[t].op, s.threads[t].pc.after))
  }

  function StepDiscard(s: State, t: nat): State
    requires t < |s.threads| && s.threads[t].pc.Discard?
  {
    var b := s.threads[t].pc.buf;
    if b !in s.bufs then Goto(s, t, Fault)
    else Goto(s.(bufs := s.bufs - {b}), t, NextPc(s.threads[t].op, s.threads[t].pc.after))
  }

  function StepAttach(s: State, t: nat): State
    requires t < |s.threads| && InBounds(|s.views|, s.threads[t].op) && s.threads[t].pc.Attach?
  {
    var d, k := s.threads[t].op.d, s.threads[t].pc.side;
    if k !in s.sides then Goto(s, t, Fault)
    else
      Goto(s.(views := s.views[d := View(Some(s.sides[k].data), s.sides[k].sizes, Side(k))]), t, Idle(true))
  }

  function StepStore(s: State, t: nat): State
    requires t < |s.threads| && InBounds(|s.views|, s.threads[t].op) && |s.deep| == |s.views|
    requires s.threads[t].op.Write?
  {
    var Write(d, i, x, _) := s.threads[t].op;
    var v := s.views[d];
    if Count(v.sizes) <= i then Commit(s, t, Idle(true))
    else if v.data.None? || v.data.value !in s.bufs || |s.bufs[v.data.value]| <= i then Goto(s, t, Fault)
    else Commit(s.(bufs := s.bufs[v.data.value := s.bufs[v.data.value][i := x]]), t, Idle(true))
  }

  /** A step that changes no more than the view of its array: the new view, where
      to go on, and whether the operation takes effect. */
  datatype Outcome = Outcome(v: View, pc: Pc, commits: bool)

  /** After prepare_write in csound_array_copy: reuse the buffer or replace it. */
  function ShapeOutcome(s: State, dest: View, from: View, alloc: bool): Outcome {
    if !alloc && Count(from.sizes) == 0 then
      if |dest.sizes| != |from.sizes| then Outcome(dest, Idle(false), false)
      else Outcome(dest.(sizes := from.sizes), Idle(true), true)
    else if dest.data.Some? && dest.data.value !in s.bufs then Outcome(dest, Fault, false)
    else if from.data.Some? && (dest.data.None? || Capacity(from.sizes) > |s.bufs[dest.data.value]|) then
      Outcome(dest, if alloc then Release(ToAllocate) else Idle(false), false)
    else if from.data.None? then
      Outcome(dest, if alloc || dest.data.None? then Release(ToEnd) else Idle(false), false)
    else if !alloc && |dest.sizes| != |from.sizes| then Outcome(dest, Idle(false), false)
    else Outcome(dest.(sizes := from.sizes), Fill(0), false)
  }

  function StepShape(s: State, t: nat): State
    requires t < |s.threads| && InBounds(|s.views|, s.threads[t].op) && |s.deep| == |s.views|
    requires s.threads[t].op.Copy?
  {
    var Copy(d, src, _, alloc) := s.threads[t].op;
    Finish(s, t, ShapeOutcome(s, s.views[d], s.views[src], alloc))
  }

  function Finish(s: State, t: nat, o: Outcome): State
    requires t < |s.threads| && InBounds(|s.views|, s.threads[t].op) && |s.deep| == |s.views|
  {
    var s1 := s.(views := s.views[s.threads[t].op.d := o.v]);
    if o.commits then Commit(s1, t, o.pc) else Goto(s1, t, o.pc)
  }

  function StepAllocate(s: State, t: nat, spare: nat): State
    requires t < |s.threads| && InBounds(|s.views|, s.threads[t].op) && |s.deep| == |s.views|
    requires s.threads[t].op.Copy? || s.threads[t].op.Init?
  {
    var op := s.threads[t].op;
    var sizes := if op.Init? then op.sizes else s.views[op.src].sizes;
    if spare in s.bufs then s
    else
      var s1 := s.(bufs := s.bufs[spare := Blanks(Capacity(sizes))],
                   views := s.views[op.d := View(Some(spare), sizes, Own)]);
      if op.Init? then Commit(s1, t, Idle(true)) else Goto(s1, t, Fill(0))
  }

  function StepFill(s: State, t: nat): State
    requires t < |s.threads| && InBounds(|s.views|, s.threads[t].op) && |s.deep| == |s.views|
    requires s.threads[t].op.Copy? && s.threads[t].pc.Fill?
  {
    var dest, from := s.views[s.threads[t].op.d], s.views[s.threads[t].op.src];
    var n := s.threads[t].pc.n;
    if n >= Count(from.sizes) then Commit(s, t, Idle(true))
    else if dest.data.None? || from.data.None? then Goto(s, t, Fault)
    else
      var to, of := dest.data.value, from.data.value;
      if to !in s.bufs || of !in s.bufs || n >= |s.bufs[to]| || n >= |s.bufs[of]| then Goto(s, t, Fault)
      else Goto(s.(bufs := s.bufs[to := s.bufs[to][n := s.bufs[of][n]]]), t, Fill(n + 1))
  }

  predicate Shaped(s: State, t: nat) {
    && t < |s.threads| && |s.deep| == |s.views| && InBounds(|s.views|, s.threads[t].op)
    && match s.threads[t].pc
       case Share(_) => s.threads[t].op.Copy?
       case Compare => s.threads[t].op.Copy?
       case Store => s.threads[t].op.Write?
       case Shape => s.threads[t].op.Copy?
       case Allocate => s.threads[t].op.Copy? || s.threads[t].op.Init?
       case Fill(_) => s.threads[t].op.Copy?
       case _ => true
  }

  function Step(s: State, t: nat, input: Input): State
    requires Shaped(s, t)
  {
    match s.threads[t].pc
    case Idle(_) => Begin(s, t, input)
    case Share(_) => StepShare(s, t, input.spare)
    case Compare => StepCompare(s, t)
    case Prepare => StepPrepare(s, t, input.spare)
    case Clone(_, _, _) => StepClone(s, t)
    case Detach(_, _) => StepDetach(s, t)
    case Store => StepStore(s, t)
    case Shape => StepShape(s, t)
    case Release(_) => StepRelease(s, t)
    case Destroy(_, _) => StepDestroy(s, t)
    case Discard(_, _) => StepDiscard(s, t)
    case Attach(_) => StepAttach(s, t)
    case Allocate => StepAllocate(s, t, input.spare)
    case Fill(_) => StepFill(s, t)
    case Fault => s
  }
}
