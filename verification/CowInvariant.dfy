/**
 What every step of the storage protocol keeps: each buffer has one owner, the
 count of each sidecar is the number of its holders, and every array that no
 operation is in the middle of changing reads as in the deep-copy model.
 */
module CowInvariant {
  import opened Basics
  import opened CowArrays

  /** Who may write or free a buffer. */
  datatype Owner = ByView(a: nat) | BySide(k: nat) | ByThread(t: nat)

  /** The ownership of the live buffers; it is not part of the state. */
  type Owners = map<nat, Owner>

  // -------------------------------------------------------------- contents

  /** What is read through array a. */
  function Read(s: State, a: nat): Value
    requires a < |s.views|
  {
    var v := s.views[a];
    if v.data.Some? && v.data.value in s.bufs && Count(v.sizes) <= |s.bufs[v.data.value]|
    then Value(v.sizes, s.bufs[v.data.value][..Count(v.sizes)])
    else EMPTY
  }

  /** The value a sidecar shares. */
  function Shared(s: State, k: nat): Value
    requires k in s.sides
  {
    var c := s.sides[k];
    if c.data in s.bufs && Count(c.sizes) <= |s.bufs[c.data]|
    then Value(c.sizes, s.bufs[c.data][..Count(c.sizes)])
    else EMPTY
  }

  // --------------------------------------------------------------- holders

  /** The thread has retained sidecar k for an array it has not attached yet. */
  predicate Keeps(pc: Pc, k: nat) {
    Attaching(pc) && (if pc.Attach? then pc.side == k else pc.after.side == k)
  }

  function ViewHolders(s: State, k: nat): set<nat> {
    set a: nat | a < |s.views| && s.views[a].link == Side(k)
  }

  function ThreadHolders(s: State, k: nat): set<nat> {
    set t: nat | t < |s.threads| && Keeps(s.threads[t].pc, k)
  }

  // ------------------------------------------------------------- invariant

  ghost predicate ViewOk(s: State, own: Owners, a: nat)
    requires a < |s.views|
  {
    var v := s.views[a];
    match v.data
    case None => v == CLEARED
    case Some(b) =>
      && v.sizes != [] && b in s.bufs && b in own && Capacity(v.sizes) <= |s.bufs[b]|
      && if v.link.Side?
         then v.link.id in s.sides && s.sides[v.link.id].data == b && s.sides[v.link.id].sizes == v.sizes &&
              own[b] == BySide(v.link.id)
         else own[b] == ByView(a)
  }

  ghost predicate SideOk(s: State, own: Owners, k: nat)
    requires k in s.sides
  {
    var c := s.sides[k];
    && c.sizes != [] && c.data in s.bufs && c.data in own && Capacity(c.sizes) <= |s.bufs[c.data]|
    && c.refs == |ViewHolders(s, k)| + |ThreadHolders(s, k)|
    && if c.refs > 0 then own[c.data] == BySide(k)
       else own[c.data].ByThread? && own[c.data].t < |s.threads| &&
            s.threads[own[c.data].t].pc.Destroy? && s.threads[own[c.data].t].pc.side == k
  }

  /** No buffer is lost: its owner does hold it. */
  ghost predicate BufOk(s: State, own: Owners, b: nat)
    requires b in own
  {
    match own[b]
    case ByView(a) => a < |s.views| && s.views[a].data == Some(b) && !s.views[a].link.Side?
    case BySide(k) => k in s.sides && s.sides[k].data == b
    case ByThread(t) =>
      && t < |s.threads|
      && match s.threads[t].pc
         case Clone(_, buf, _) => buf == b
         case Detach(_, buf) => buf == b
         case Discard(buf, _) => buf == b
         case Destroy(k, _) => k in s.sides && s.sides[k].data == b
         case _ => false
  }

  /** Another thread owns buffer b for the time being. */
  ghost predicate Has(s: State, own: Owners, t: nat, b: nat) {
    b in s.bufs && b in own && own[b] == ByThread(t)
  }

  /** What follows once old storage is gone. */
  ghost predicate ThenOk(s: State, op: Op, after: Then)
    requires InBounds(|s.views|, op) && |s.deep| == |s.views|
  {
    match after
    case ToAttach(k) => s.views[op.d] == CLEARED && k in s.sides && s.sides[k].refs > 0 && Shared(s, k) == s.deep[op.d]
    case ToPrepared => (op.Write? || (op.Copy? && op.src != op.d)) && !s.views[op.d].link.Side?
    case ToAllocate => op.Copy? && op.src != op.d && s.views[op.d] == CLEARED && s.views[op.src].data.Some?
    case ToEnd => s.views[op.d] == CLEARED
    case ToFail => false
  }

  ghost predicate PcOk(s: State, own: Owners, t: nat)
    requires t < |s.threads| && |s.deep| == |s.views| && InBounds(|s.views|, s.threads[t].op)
  {
    var op := s.threads[t].op;
    var d := op.d;
    var v := s.views[d];
    match s.threads[t].pc
    case Idle(_) => true
    case Share(_) => op.Copy? && op.src != d
    case Compare => op.Copy? && op.src != d
    case Prepare => op.Write? || (op.Copy? && op.src != d)
    case Clone(k, b, n) =>
      && (op.Write? || (op.Copy? && op.src != d))
      && v.link == Side(k) && k in s.sides && s.sides[k].data in s.bufs && Has(s, own, t, b)
      && n <= |s.bufs[b]| == |s.bufs[s.sides[k].data]|
      && s.bufs[b][..n] == s.bufs[s.sides[k].data][..n]
    case Detach(k, b) =>
      && (op.Write? || (op.Copy? && op.src != d))
      && v.link == Side(k) && k in s.sides && s.sides[k].data in s.bufs && Has(s, own, t, b)
      && s.bufs[b] == s.bufs[s.sides[k].data]
    case Store => op.Write? && !v.link.Side?
    case Shape => op.Copy? && op.src != d && !v.link.Side?
    case Release(after) =>
      && (match after
          case ToAttach(k) => k in s.sides && s.sides[k].refs > 0 && Shared(s, k) == s.deep[d]
          case ToAllocate => op.Copy? && op.src != d && s.views[op.src].data.Some?
          case ToEnd => op.Free? || (op.Copy? && op.src != d && s.views[op.src].data.None?)
          case _ => false)
    case Destroy(k, after) =>
      k in s.sides && s.sides[k].refs == 0 && Has(s, own, t, s.sides[k].data) && ThenOk(s, op, after)
    case Discard(b, after) => Has(s, own, t, b) && ThenOk(s, op, after)
    case Attach(k) => ThenOk(s, op, ToAttach(k))
    case Allocate => if op.Init? then v == CLEARED && op.sizes != [] else ThenOk(s, op, ToAllocate)
    case Fill(n) =>
      && op.Copy? && op.src != d && v.data.Some? && s.views[op.src].data.Some? && !v.link.Side?
      && v.sizes == s.views[op.src].sizes && v.data.value in s.bufs && s.views[op.src].data.value in s.bufs
      && n <= Count(v.sizes) <= |s.bufs[v.data.value]| && Count(v.sizes) <= |s.bufs[s.views[op.src].data.value]|
      && s.bufs[v.data.value][..n] == s.bufs[s.views[op.src].data.value][..n]
    case Fault => false
  }

  /** The operation has taken effect. */
  predicate Committed(pc: Pc) {
    match pc
    case Idle(ok) => ok
    case Release(after) => after.ToAttach?
    case Destroy(_, after) => after.ToAttach? || after.ToEnd?
    case Discard(_, after) => after.ToAttach? || after.ToEnd?
    case Attach(_) => true
    case _ => false
  }

  /** The thread is in the middle of changing array a. */
  predicate Changing(th: Thread, a: nat) {
    && th.op.d == a
    && match th.pc
       case Release(after) => after.ToAttach?
       case Destroy(_, after) => after.ToAttach? || after.ToAllocate?
       case Discard(_, after) => after.ToAttach? || after.ToAllocate?
       case Attach(_) => true
       case Allocate => true
       case Fill(_) => true
       case _ => false
  }

  ghost predicate Settled(s: State, a: nat) {
    forall t :: 0 <= t < |s.threads| ==> !Changing(s.threads[t], a)
  }

  ghost predicate Sized(s: State) {
    && |s.deep| == |s.views|
    && forall t :: 0 <= t < |s.threads| ==> InBounds(|s.views|, s.threads[t].op)
  }

  /** An array one operation writes is not written or read by another. */
  ghost predicate Locked(s: State) {
    forall t, u :: 0 <= t < |s.threads| && 0 <= u < |s.threads| && t != u && Busy(s.threads[t]) ==>
      !Writes(s.threads[u], s.threads[t].op.d) && !Reads(s.threads[u], s.threads[t].op.d)
  }

  ghost predicate Same(s: State)
    requires Sized(s)
  {
    forall a :: 0 <= a < |s.views| && Settled(s, a) ==> Read(s, a) == s.deep[a]
  }

  ghost predicate Inv(s: State, own: Owners) {
    && Sized(s) && Locked(s)
    && own.Keys == s.bufs.Keys
    && (forall a :: 0 <= a < |s.views| ==> ViewOk(s, own, a))
    && (forall k :: k in s.sides ==> SideOk(s, own, k))
    && (forall b :: b in own ==> BufOk(s, own, b))
    && (forall t :: 0 <= t < |s.threads| ==> PcOk(s, own, t))
    && (forall t :: 0 <= t < |s.threads| ==> s.threads[t].applied == if Committed(s.threads[t].pc) then 1 else 0)
    && Same(s)
  }

  // ----------------------------------------------------------------- frames

  /** Only thread t, which works on array d, may write or free the buffer. */
  ghost predicate Mine(own: Owners, t: nat, d: nat, b: nat) {
    b in own && (own[b] == ByThread(t) || own[b] == ByView(d))
  }

  /** Sidecar k has a holder that thread t, at work on array d, does not speak for. */
  ghost predicate OtherHolder(s: State, t: nat, d: nat, k: nat) {
    || (exists a :: 0 <= a < |s.views| && a != d && s.views[a].link == Side(k))
    || (exists u :: 0 <= u < |s.threads| && u != t && Keeps(s.threads[u].pc, k))
  }

  /** Nobody else writes what the operation touches or reads what it writes. */
  ghost predicate Exclusive(s: State, t: nat, op: Op) {
    forall u :: 0 <= u < |s.threads| && u != t ==>
      && !Writes(s.threads[u], op.d) && !Reads(s.threads[u], op.d)
  }

  /** The owner is another array whose link does not change. */
  ghost predicate KeepsOwner(s: State, s': State, d: nat, owner: Owner) {
    && owner.ByView? && owner.a != d && owner.a < |s.views| == |s'.views|
    && s'.views[owner.a].link == s.views[owner.a].link
  }

  /** A step of thread t on array d leaves alone what others rely on. */
  ghost predicate Frame(s: State, own: Owners, s': State, own': Owners, t: nat, d: nat) {
    FrameViews(s, s', t, d) && FrameBufs(s, own, s', own', t, d) && FrameSides(s, own, s', own', t, d)
  }

  /** Other threads stay as they are, and other arrays show the same. */
  ghost predicate FrameViews(s: State, s': State, t: nat, d: nat) {
    && t < |s.threads| && d < |s.views|
    && |s'.views| == |s.views| && |s'.deep| == |s.deep| && |s'.threads| == |s.threads|
    && (forall u :: 0 <= u < |s.threads| && u != t ==> s'.threads[u] == s.threads[u])
    && (forall a :: 0 <= a < |s.views| && a != d && a < |s.deep| ==>
          && s'.deep[a] == s.deep[a]
          && s'.views[a].data == s.views[a].data && s'.views[a].sizes == s.views[a].sizes
          && (s'.views[a].link == s.views[a].link ||
              (s.views[a].link.Own? && forall u :: 0 <= u < |s.threads| && u != t ==> !Writes(s.threads[u], a))))
  }

  /** Buffers of others stay as they are and keep their owners. */
  ghost predicate FrameBufs(s: State, own: Owners, s': State, own': Owners, t: nat, d: nat) {
    && (forall b :: b in own && !Mine(own, t, d, b) ==>
          b in s.bufs && b in s'.bufs && b in own' && s'.bufs[b] == s.bufs[b])
    && (forall b :: b in own && own[b].ByThread? && own[b].t != t ==> b in own' && own'[b] == own[b])
    && (forall b :: b in own && KeepsOwner(s, s', d, own[b]) ==> b in own' && own'[b] == own[b])
  }

  /** Sidecars that others hold, or are about to destroy, stay. */
  ghost predicate FrameSides(s: State, own: Owners, s': State, own': Owners, t: nat, d: nat) {
    && (forall k :: k in s.sides && OtherHolder(s, t, d, k) ==>
          && k in s'.sides && s'.sides[k].refs > 0
          && (s.sides[k].data in own ==> s.sides[k].data in own' && own'[s.sides[k].data] == own[s.sides[k].data])
          && s'.sides[k].data == s.sides[k].data && s'.sides[k].sizes == s.sides[k].sizes)
    && (forall k :: k in s.sides && s.sides[k].refs == 0 && s.sides[k].data in own ==>
          own[s.sides[k].data] != ByThread(t) ==> k in s'.sides && s'.sides[k] == s.sides[k])
  }

  /** A buffer some other thread relies on is not touched. */
  lemma OtherView(s: State, own: Owners, s': State, own': Owners, t: nat, d: nat, a: nat)
    requires Inv(s, own) && Frame(s, own, s', own', t, d) && a < |s.views| && a != d && s.views[a].data.Some?
    ensures s'.views[a].data == s.views[a].data && s'.views[a].sizes == s.views[a].sizes
    ensures var b := s.views[a].data.value; b in s.bufs && b in s'.bufs && s'.bufs[b] == s.bufs[b]
    ensures Read(s', a) == Read(s, a)
  {
    assert ViewOk(s, own, a);
  }

  lemma OtherSide(s: State, own: Owners, s': State, own': Owners, t: nat, d: nat, k: nat)
    requires Inv(s, own) && Frame(s, own, s', own', t, d) && k in s.sides && OtherHolder(s, t, d, k) &&
             s.sides[k].refs > 0
    ensures k in s'.sides && s'.sides[k].refs > 0
    ensures s'.sides[k].data == s.sides[k].data && s'.sides[k].sizes == s.sides[k].sizes
    ensures var b := s.sides[k].data; b in s.bufs && b in s'.bufs && s'.bufs[b] == s.bufs[b]
    ensures Shared(s', k) == Shared(s, k)
  {
    AtSide(s, own, k);
    hide Inv, OtherHolder, ViewHolders, ThreadHolders;
  }

  lemma AtSide(s: State, own: Owners, k: nat)
    requires Inv(s, own) && k in s.sides
    ensures SideOk(s, own, k)
  {}

  lemma OtherThen(s: State, own: Owners, s': State, own': Owners, t: nat, op: Op, u: nat, after: Then)
    requires Inv(s, own) && InBounds(|s.views|, op) && Frame(s, own, s', own', t, op.d) && Exclusive(s, t, op)
    requires u < |s.threads| && u != t && Busy(s.threads[u])
    requires ThenOk(s, s.threads[u].op, after)
    requires after.ToAttach? ==> Keeps(s.threads[u].pc, after.side)
    requires after.ToAllocate? ==> !Attaching(s.threads[u].pc)
    ensures |s'.deep| == |s'.views| && InBounds(|s'.views|, s'.threads[u].op) && ThenOk(s', s.threads[u].op, after)
  {
    var d := s.threads[u].op.d;
    assert Writes(s.threads[u], d) && d != op.d;
    if after.ToAttach? {
      OtherSide(s, own, s', own', t, op.d, after.side);
    } else if after.ToAllocate? {
      assert Reads(s.threads[u], s.threads[u].op.src);
    }
  }

  lemma OtherClone(s: State, own: Owners, s': State, own': Owners, t: nat, op: Op, u: nat)
    requires Inv(s, own) && InBounds(|s.views|, op) && Frame(s, own, s', own', t, op.d) && Exclusive(s, t, op)
    requires u < |s.threads| && u != t && (s.threads[u].pc.Clone? || s.threads[u].pc.Detach?)
    ensures |s'.deep| == |s'.views| && InBounds(|s'.views|, s'.threads[u].op) && PcOk(s', own', u)
  {
    hide Inv, Frame;
    FrameSizes(s, own, s', own', t, op, u);
    var d, pc := s.threads[u].op.d, s.threads[u].pc;
    OtherShared(s, own, s', own', t, op.d, d);
    OtherView(s, own, s', own', t, op.d, d);
    OtherBuf(s, own, s', own', t, op.d, u, pc.buf);
  }

  lemma AtView(s: State, own: Owners, a: nat)
    requires Inv(s, own) && a < |s.views|
    ensures |s.deep| == |s.views| && ViewOk(s, own, a)
  {}

  lemma OtherShared(s: State, own: Owners, s': State, own': Owners, t: nat, d: nat, a: nat)
    requires Inv(s, own) && Frame(s, own, s', own', t, d) && a < |s.views| && a != d && s.views[a].link.Side?
    ensures var k := s.views[a].link.id;
            && k in s.sides && k in s'.sides && s.views[a].data == Some(s.sides[k].data)
            && s'.sides[k].data == s.sides[k].data && s'.sides[k].sizes == s.sides[k].sizes
  {
    hide Inv;
    AtView(s, own, a);
    assert OtherHolder(s, t, d, s.views[a].link.id);
  }

  lemma OtherBuf(s: State, own: Owners, s': State, own': Owners, t: nat, d: nat, u: nat, b: nat)
    requires Inv(s, own) && Frame(s, own, s', own', t, d) && u != t && Has(s, own, u, b)
    ensures Has(s', own', u, b) && s'.bufs[b] == s.bufs[b]
  {}

  lemma OtherDead(s: State, own: Owners, s': State, own': Owners, t: nat, d: nat, u: nat, k: nat)
    requires Inv(s, own) && Frame(s, own, s', own', t, d) && u != t && k in s.sides && s.sides[k].refs == 0
    requires Has(s, own, u, s.sides[k].data)
    ensures k in s'.sides && s'.sides[k] == s.sides[k]
  {}

  lemma OtherFill(s: State, own: Owners, s': State, own': Owners, t: nat, op: Op, u: nat)
    requires Inv(s, own) && InBounds(|s.views|, op) && Frame(s, own, s', own', t, op.d) && Exclusive(s, t, op)
    requires u < |s.threads| && u != t && s.threads[u].pc.Fill?
    ensures |s'.deep| == |s'.views| && InBounds(|s'.views|, s'.threads[u].op) && PcOk(s', own', u)
  {
    assert PcOk(s, own, u);
    var d, src := s.threads[u].op.d, s.threads[u].op.src;
    assert Writes(s.threads[u], d) && Reads(s.threads[u], src);
    OtherView(s, own, s', own', t, op.d, d);
    OtherView(s, own, s', own', t, op.d, src);
  }

  lemma OtherLetGo(s: State, own: Owners, s': State, own': Owners, t: nat, op: Op, u: nat)
    requires Inv(s, own) && InBounds(|s.views|, op) && Frame(s, own, s', own', t, op.d) && Exclusive(s, t, op)
    requires u < |s.threads| && u != t && (s.threads[u].pc.Destroy? || s.threads[u].pc.Discard?)
    ensures |s'.deep| == |s'.views| && InBounds(|s'.views|, s'.threads[u].op) && PcOk(s', own', u)
  {
    hide Inv, Frame, ThenOk, ViewOk, Shared;
    FrameSizes(s, own, s', own', t, op, u);
    var pc := s.threads[u].pc;
    OtherThen(s, own, s', own', t, op, u, pc.after);
    if pc.Destroy? {
      OtherBuf(s, own, s', own', t, op.d, u, s.sides[pc.side].data);
      OtherDead(s, own, s', own', t, op.d, u, pc.side);
    } else {
      OtherBuf(s, own, s', own', t, op.d, u, pc.buf);
    }
  }

  lemma OtherRelease(s: State, own: Owners, s': State, own': Owners, t: nat, op: Op, u: nat)
    requires Inv(s, own) && InBounds(|s.views|, op) && Frame(s, own, s', own', t, op.d) && Exclusive(s, t, op)
    requires u < |s.threads| && u != t && s.threads[u].pc.Release?
    ensures |s'.deep| == |s'.views| && InBounds(|s'.views|, s'.threads[u].op) && PcOk(s', own', u)
  {
    hide Inv, Frame;
    FrameSizes(s, own, s', own', t, op, u);
    var after := s.threads[u].pc.after;
    if after.ToAttach? {
      OtherSide(s, own, s', own', t, op.d, after.side);
    }
  }

  /** What another thread relies on is still there. */
  lemma OtherPc(s: State, own: Owners, s': State, own': Owners, t: nat, op: Op, u: nat)
    requires Inv(s, own) && InBounds(|s.views|, op) && Frame(s, own, s', own', t, op.d) && Exclusive(s, t, op)
    requires u < |s.threads| && u != t
    ensures |s'.deep| == |s'.views| && InBounds(|s'.views|, s'.threads[u].op) && PcOk(s', own', u)
  {
    hide Inv, Frame, ThenOk, ViewOk, Shared, Has;
    FrameSizes(s, own, s', own', t, op, u);
    match s.threads[u].pc
    case Clone(_, _, _) => OtherClone(s, own, s', own', t, op, u);
    case Detach(_, _) => OtherClone(s, own, s', own', t, op, u);
    case Destroy(_, _) => OtherLetGo(s, own, s', own', t, op, u);
    case Discard(_, _) => OtherLetGo(s, own, s', own', t, op, u);
    case Attach(k) => OtherThen(s, own, s', own', t, op, u, ToAttach(k));
    case Allocate =>
      if !s.threads[u].op.Init? {
        OtherThen(s, own, s', own', t, op, u, ToAllocate);
      }
    case Fill(_) => OtherFill(s, own, s', own', t, op, u);
    case Release(_) => OtherRelease(s, own, s', own', t, op, u);
    case _ =>
  }

  lemma FrameSizes(s: State, own: Owners, s': State, own': Owners, t: nat, op: Op, u: nat)
    requires Inv(s, own) && InBounds(|s.views|, op) && Frame(s, own, s', own', t, op.d) && Exclusive(s, t, op)
    requires u < |s.threads| && u != t
    ensures Sized(s) && |s'.deep| == |s'.views| == |s.views| && s'.threads[u] == s.threads[u] && PcOk(s, own, u)
    ensures Busy(s.threads[u]) ==>
              && s.threads[u].op.d != op.d && Writes(s.threads[u], s.threads[u].op.d)
              && s'.deep[s.threads[u].op.d] == s.deep[s.threads[u].op.d]
              && s'.views[s.threads[u].op.d] == s.views[s.threads[u].op.d]
    ensures forall a :: 0 <= a < |s.views| && Reads(s.threads[u], a) ==>
              a != op.d && s'.views[a].data == s.views[a].data && s'.views[a].sizes == s.views[a].sizes
  {
    if Busy(s.threads[u]) {
      assert Writes(s.threads[u], s.threads[u].op.d);
    }
  }

  lemma OtherViewOk(s: State, own: Owners, s': State, own': Owners, t: nat, d: nat, a: nat)
    requires Inv(s, own) && Frame(s, own, s', own', t, d) && a < |s.views| && a != d
    requires s'.views[a].link == s.views[a].link
    ensures ViewOk(s', own', a)
  {
    hide Inv;
    AtView(s, own, a);
    if s.views[a].link.Side? {
      assert OtherHolder(s, t, d, s.views[a].link.id);
    }
  }

  lemma OtherSame(s: State, own: Owners, s': State, own': Owners, t: nat, d: nat, a: nat)
    requires Inv(s, own) && Frame(s, own, s', own', t, d) && a < |s.views| && a != d && Settled(s', a)
    requires !Changing(s.threads[t], a)
    ensures |s'.deep| == |s'.views| == |s.views| && Read(s', a) == s'.deep[a]
  {
    assert Settled(s, a) by {
      forall u | 0 <= u < |s.threads| ensures !Changing(s.threads[u], a) {
        assert u != t ==> s'.threads[u] == s.threads[u];
      }
    }
    if s.views[a].data.Some? {
      OtherView(s, own, s', own', t, d, a);
    }
  }

  /** All the parts of the invariant together. */
  lemma Assemble(s: State, own: Owners, s': State, own': Owners, t: nat)
    requires Inv(s, own) && t < |s.threads| && Busy(s.threads[t])
    requires Frame(s, own, s', own', t, s.threads[t].op.d) && Exclusive(s, t, s.threads[t].op)
    requires s'.threads[t].op == s.threads[t].op
    requires forall a :: Reads(s'.threads[t], a) ==> Reads(s.threads[t], a)
    requires s'.threads[t].applied == if Committed(s'.threads[t].pc) then 1 else 0
    requires InBounds(|s'.views|, s'.threads[t].op) && PcOk(s', own', t)
    requires forall a :: 0 <= a < |s.views| && (a == s.threads[t].op.d || s'.views[a].link != s.views[a].link) ==>
               ViewOk(s', own', a)
    requires forall k :: k in s'.sides ==> SideOk(s', own', k)
    requires own'.Keys == s'.bufs.Keys && forall b :: b in own' ==> BufOk(s', own', b)
    requires Settled(s', s.threads[t].op.d) ==> Read(s', s.threads[t].op.d) == s'.deep[s.threads[t].op.d]
    ensures Inv(s', own')
  {
    hide Frame, Exclusive, ViewOk, SideOk, BufOk, PcOk, Changing, Read, Committed, Settled, Reads, Writes, Busy;
    var d := s.threads[t].op.d;
    SizedKeeps(s, own, s', own', t);
    forall a | 0 <= a < |s.views| ensures ViewOk(s', own', a) {
      if a != d && s'.views[a].link == s.views[a].link {
        OtherViewOk(s, own, s', own', t, d, a);
      }
    }
    forall u | 0 <= u < |s.threads| ensures PcOk(s', own', u) {
      if u != t {
        OtherPc(s, own, s', own', t, s.threads[t].op, u);
      }
    }
    forall a | 0 <= a < |s.views| && Settled(s', a) ensures Read(s', a) == s'.deep[a] {
      if a != d {
        NotChanging(s.threads[t], a);
        OtherSame(s, own, s', own', t, d, a);
      }
    }
  }

  lemma NotChanging(th: Thread, a: nat)
    requires th.op.d != a
    ensures !Changing(th, a)
  {}

  lemma SizedKeeps(s: State, own: Owners, s': State, own': Owners, t: nat)
    requires Inv(s, own) && t < |s.threads| && Busy(s.threads[t])
    requires Frame(s, own, s', own', t, s.threads[t].op.d) && s'.threads[t].op == s.threads[t].op
    requires forall a :: Reads(s'.threads[t], a) ==> Reads(s.threads[t], a)
    requires s'.threads[t].applied == if Committed(s'.threads[t].pc) then 1 else 0
    ensures Sized(s) && Sized(s') && Locked(s') && |s'.views| == |s.views| && |s'.threads| == |s.threads|
    ensures forall u :: 0 <= u < |s'.threads| ==> s'.threads[u].applied == if Committed(s'.threads[u].pc) then 1 else 0
  {
    forall v, u | 0 <= v < |s.threads| && 0 <= u < |s.threads| && v != u && Busy(s'.threads[v])
      ensures !Writes(s'.threads[u], s'.threads[v].op.d) && !Reads(s'.threads[u], s'.threads[v].op.d)
    {
      assert Busy(s.threads[v]);
    }
  }
}
