/**
 Argument strings: counting and splitting the concatenated descriptors, and going
 back from the internal to the external form.
 */
module TypeLists {
  import opened Basics
  import opened TypeStrings

  const INT32_MAX := 0x7fff_ffff

  /** The text up to the place is read as these descriptors. */
  ghost predicate ReadsUpTo(s: string, ds: seq<Descriptor>, end: nat) {
    if ds == [] then end == 0
    else
      var last := ds[|ds| - 1];
      && |Text(last)| <= end
      && Reads(s, end - |Text(last)|, last, end) && ReadsUpTo(s, ds[..|ds| - 1], end - |Text(last)|)
  }

  ghost predicate Parses(s: string, ds: seq<Descriptor>) {
    ReadsUpTo(s, ds, |s|)
  }

  function TextOf(ds: seq<Descriptor>): string {
    if ds == [] then "" else TextOf(ds[..|ds| - 1]) + Text(ds[|ds| - 1])
  }

  /** No internal array comes right after a descriptor that would take its first
      '[' for one of its own. */
  ghost predicate Separated(ds: seq<Descriptor>) {
    forall k :: 0 < k < |ds| ==> ds[k - 1].internal || !ds[k].internal
  }

  ghost predicate AllValid(ds: seq<Descriptor>) {
    forall k :: 0 <= k < |ds| ==> ValidDescriptor(ds[k])
  }

  function TypesIn(ds: seq<Descriptor>): (ts: seq<Type>)
    ensures |ts| == |ds| && forall k :: 0 <= k < |ds| ==> ts[k] == ds[k].typ
  {
    if ds == [] then [] else TypesIn(ds[..|ds| - 1]) + [ds[|ds| - 1].typ]
  }

  /** The types that an argument string lists, if it is well formed. */
  ghost function ArgTypes(s: string): Option<seq<Type>> {
    if ds: seq<Descriptor> :| Parses(s, ds) then Some(TypesIn(ds)) else None
  }

  function Internals(ts: seq<Type>): (parts: seq<string>)
    ensures |parts| == |ts| && forall k :: 0 <= k < |ts| ==> parts[k] == Internal(ts[k])
  {
    if ts == [] then [] else Internals(ts[..|ts| - 1]) + [Internal(ts[|ts| - 1])]
  }

  // ---- an argument string is read in one way only ----

  lemma OneBase(s: string, start: nat, a: Base, b: Base)
    requires ValidBase(a) && ValidBase(b) && Stands(s, start, BaseText(a)) && Stands(s, start, BaseText(b))
    ensures a == b
  {
    StandsAt(s, start, BaseText(a), 0);
    if At(s, start) == ':' {
      var name := a.name;
      var end := start + 1 + |name|;
      StandsBoth(s, start, ":" + name, ";");
      StandsBoth(s, start, ":", name);
      StandsAt(s, end, ";", 0);
      forall k | start < k < end ensures Plain(s[k]) {
        StandsAt(s, start + 1, name, k - start - 1);
      }
      NameEnds(s, start, b, end);
    } else {
      PrimitiveOnly(s, start, b);
    }
  }

  lemma MarksOf(s: string, start: nat, d: Descriptor, next: nat) returns (opens: nat)
    requires Reads(s, start, d, next)
    ensures Marks(s, start, opens)
  {
    var base := BaseText(d.typ.base);
    if d.internal {
      opens := d.typ.dims;
      StandsBoth(s, start, Opens(opens) + base, "]");
      StandsBoth(s, start, Opens(opens), base);
      StandsAt(s, start + opens, base, 0);
      forall k | start <= k < start + opens ensures s[k] == '[' {
        StandsAt(s, start, Opens(opens), k - start);
      }
    } else {
      opens := 0;
      StandsBoth(s, start, base, Pairs(d.typ.dims));
      StandsAt(s, start, base, 0);
    }
  }

  lemma SameBase(s: string, start: nat, opens: nat, a: Descriptor, next: nat, b: Descriptor, next': nat)
    requires Marks(s, start, opens) && Reads(s, start, a, next) && Reads(s, start, b, next')
    ensures a.internal == b.internal == (opens > 0) && a.typ.base == b.typ.base
    ensures a.internal ==> a.typ.dims == b.typ.dims
  {
    hide Stands, Reads, Pairs, Opens, BaseText, ValidBase, At, Marks;
    PartsOf(s, start, opens, a, next);
    PartsOf(s, start, opens, b, next');
    OneBase(s, start + opens, a.typ.base, b.typ.base);
  }

  lemma SameDims(s: string, start: nat, a: Descriptor, next: nat, b: Descriptor, next': nat)
    requires Marks(s, start, 0) && Reads(s, start, a, next) && Reads(s, start, b, next')
    requires a.typ.base == b.typ.base
    ensures a.typ.dims == b.typ.dims
  {
    hide Stands, Reads, Pairs, Opens, BaseText, ValidBase, At, Marks;
    PartsOf(s, start, 0, a, next);
    PartsOf(s, start, 0, b, next');
    PairsEnd(s, start + |BaseText(a.typ.base)|, a.typ.dims, b.typ.dims);
  }

  lemma OneDescriptor(s: string, start: nat, a: Descriptor, next: nat, b: Descriptor, next': nat)
    requires Reads(s, start, a, next) && Reads(s, start, b, next')
    ensures a == b && next == next'
  {
    var opens := MarksOf(s, start, a, next);
    assert next == start + |Text(a)| && next' == start + |Text(b)|;
    hide Stands, Reads, Pairs, Opens, BaseText, ValidBase, At, Marks, Text;
    SameBase(s, start, opens, a, next, b, next');
    if !a.internal {
      SameDims(s, start, a, next, b, next');
    }
  }

  lemma {:induction false} EndIs(s: string, ds: seq<Descriptor>, end: nat)
    requires ReadsUpTo(s, ds, end)
    ensures end == |TextOf(ds)| <= |s|
  {
    hide Text, ValidDescriptor, At;
    if ds != [] {
      EndIs(s, ds[..|ds| - 1], end - |Text(ds[|ds| - 1])|);
    }
  }

  lemma {:induction false} SameReading(s: string, a: seq<Descriptor>, end: nat, b: seq<Descriptor>, end': nat)
    requires ReadsUpTo(s, a, end) && ReadsUpTo(s, b, end') && |a| <= |b|
    ensures a == b[..|a|] && ReadsUpTo(s, b[..|a|], end)
    decreases |b|
  {
    hide Text, Reads;
    if |a| < |b| {
      var last := |b| - 1;
      SameReading(s, a, end, b[..last], end' - |Text(b[last])|);
      assert b[..last][..|a|] == b[..|a|];
    } else if a != [] {
      var last := |a| - 1;
      var at, at' := end - |Text(a[last])|, end' - |Text(b[last])|;
      SameReading(s, a[..last], at, b[..last], at');
      assert a[..last] == b[..last];
      EndIs(s, a[..last], at);
      EndIs(s, b[..last], at');
      OneDescriptor(s, at, a[last], end, b[last], end');
      assert a == a[..last] + [a[last]] && b == b[..last] + [b[last]];
      assert b[..|a|] == a;
    }
  }

  lemma TextSnoc(ds: seq<Descriptor>, d: Descriptor)
    ensures TextOf(ds + [d]) == TextOf(ds) + Text(d)
  {
    hide Text;
    assert (ds + [d])[..|ds|] == ds;
  }

  lemma Regroup<T>(a: seq<T>, b: seq<T>, c: seq<T>)
    ensures a + b + c == a + (b + c)
  {}

  lemma {:induction false} TextAppend(a: seq<Descriptor>, b: seq<Descriptor>)
    ensures TextOf(a + b) == TextOf(a) + TextOf(b)
  {
    if b == [] {
      assert a + b == a;
    } else {
      hide TextOf, Text;
      var front, last := b[..|b| - 1], b[|b| - 1];
      assert b == front + [last];
      Regroup(a, front, [last]);
      TextAppend(a, front);
      TextSnoc(front, last);
      TextSnoc(a + front, last);
      Regroup(TextOf(a), TextOf(front), Text(last));
    }
  }

  /** Every complete reading passes through a partial one. */
  lemma GoesOn(s: string, part: seq<Descriptor>, at: nat, ds: seq<Descriptor>)
    requires ReadsUpTo(s, part, at) && at < |s| && Parses(s, ds)
    ensures |part| < |ds| && ds[..|part|] == part && Reads(s, at, ds[|part|], at + |Text(ds[|part|])|)
  {
    hide Text, Reads, TextOf;
    EndIs(s, part, at);
    if |ds| <= |part| {
      assert part == part[..|ds|] + part[|ds|..];
      TextAppend(part[..|ds|], part[|ds|..]);
      SameReading(s, ds, |s|, part, at);
      EndIs(s, part[..|ds|], |s|);
    } else {
      SameReading(s, part, at, ds, |s|);
      ReadNext(s, ds, |s|, |part|);
      EndIs(s, ds[..|part|], at);
    }
  }

  lemma {:induction false} ReadNext(s: string, ds: seq<Descriptor>, end: nat, k: nat)
    requires ReadsUpTo(s, ds, end) && k < |ds|
    ensures var at := |TextOf(ds[..k])|; Reads(s, at, ds[k], at + |Text(ds[k])|)
  {
    hide Text, Reads, TextOf;
    var last := |ds| - 1;
    var before := end - |Text(ds[last])|;
    if k < last {
      ReadNext(s, ds[..last], before, k);
      assert ds[..last][..k] == ds[..k];
    } else {
      EndIs(s, ds[..last], before);
    }
  }

  lemma OneReading(s: string, a: seq<Descriptor>, b: seq<Descriptor>)
    requires Parses(s, a) && Parses(s, b)
    ensures a == b
  {
    hide ReadsUpTo;
    if |a| <= |b| {
      SameReading(s, a, |s|, b, |s|);
      SameLength(s, a, b);
    } else {
      SameReading(s, b, |s|, a, |s|);
      SameLength(s, b, a);
    }
  }

  /** Descriptors are not empty, so a complete reading has nothing after it. */
  lemma SameLength(s: string, a: seq<Descriptor>, b: seq<Descriptor>)
    requires Parses(s, a) && Parses(s, b) && |a| <= |b| && a == b[..|a|]
    ensures |a| == |b|
  {
    EndIs(s, a, |s|);
    EndIs(s, b, |s|);
    if |a| < |b| {
      assert b == a + b[|a|..];
      TextAppend(a, b[|a|..]);
      SomeText(b[|a|..]);
    }
  }

  lemma SomeText(ds: seq<Descriptor>)
    requires ds != []
    ensures TextOf(ds) != ""
  {
    var d := ds[|ds| - 1];
    assert BaseText(d.typ.base) != "";
    assert Text(d) != "";
  }

  lemma ArgTypesAre(s: string, ds: seq<Descriptor>)
    requires Parses(s, ds)
    ensures ArgTypes(s) == Some(TypesIn(ds))
  {
    var x: seq<Descriptor> :| Parses(s, x) && ArgTypes(s) == Some(TypesIn(x));
    OneReading(s, x, ds);
  }

  lemma NoArgTypes(s: string, part: seq<Descriptor>, at: nat)
    requires ReadsUpTo(s, part, at) && at < |s| && NothingReads(s, at)
    ensures ArgTypes(s) == None
  {
    forall ds | Parses(s, ds) ensures false {
      GoesOn(s, part, at, ds);
    }
  }

  // ---- which texts are read, and as what ----

  lemma FirstMark(d: Descriptor)
    requires ValidDescriptor(d)
    ensures Text(d) != "" && (Text(d)[0] == '[' <==> d.internal)
  {
    var base := BaseText(d.typ.base);
    assert base[0] != '[';
    if d.internal {
      assert Text(d) == Opens(d.typ.dims) + base + "]";
    }
  }

  /** The text up to a place is that of separated valid descriptors, and the last of them
      is read no further than that. */
  ghost predicate Fits(s: string, ds: seq<Descriptor>, end: nat)
    requires end <= |s|
  {
    && s[..end] == TextOf(ds) && AllValid(ds) && Separated(ds)
    && (ds != [] && !ds[|ds| - 1].internal ==> At(s, end) != '[')
  }

  /** One descriptor more fits exactly when it is read behind those before it. */
  lemma OneMoreFits(s: string, ds: seq<Descriptor>, end: nat)
    requires end <= |s| && ds != []
    ensures var last := ds[|ds| - 1];
            Fits(s, ds, end) <==>
              && |Text(last)| <= end && Reads(s, end - |Text(last)|, last, end)
              && Fits(s, ds[..|ds| - 1], end - |Text(last)|)
  {
    hide Text, ValidDescriptor;
    var front, last := ds[..|ds| - 1], ds[|ds| - 1];
    var n := |Text(last)|;
    if n <= end && ValidDescriptor(last) {
      var at := end - n;
      FirstMark(last);
      assert s[..end] == s[..at] + s[at..end];
      TextSplits(s[..at], s[at..end], TextOf(front), Text(last));
      SeparatedMore(ds);
    }
  }

  lemma TextSplits(a: string, b: string, c: string, d: string)
    requires |b| == |d|
    ensures a + b == c + d <==> a == c && b == d
  {
    if a + b == c + d {
      assert (a + b)[..|a|] == a && (a + b)[|a|..] == b;
    }
  }

  lemma SeparatedMore(ds: seq<Descriptor>)
    requires ds != []
    ensures var front, last := ds[..|ds| - 1], ds[|ds| - 1];
            Separated(ds) <==> Separated(front) && (front == [] || front[|front| - 1].internal || !last.internal)
  {
    var n := |ds| - 1;
    if Separated(ds) && n > 0 {
      assert ds[n - 1].internal || !ds[n].internal;
    }
  }

  /** What has been read is the text of descriptors with no internal array after one
      that would take its first mark. */
  lemma {:induction false} ReadExactly(s: string, ds: seq<Descriptor>, end: nat)
    requires end <= |s|
    ensures ReadsUpTo(s, ds, end) <==> Fits(s, ds, end)
  {
    hide Text, ValidDescriptor, Reads;
    if ds == [] {
      assert s[..end] == "" <==> end == 0;
    } else {
      hide Fits;
      OneMoreFits(s, ds, end);
      var n := |Text(ds[|ds| - 1])|;
      if n <= end {
        ReadExactly(s, ds[..|ds| - 1], end - n);
      }
    }
  }

  lemma ParsesExactly(ds: seq<Descriptor>)
    requires AllValid(ds) && Separated(ds)
    ensures Parses(TextOf(ds), ds)
  {
    var s := TextOf(ds);
    assert s[..|s|] == s;
    ReadExactly(s, ds, |s|);
  }

  /** A scalar, or an array in external form, takes the mark of an internal array that
      follows for its own: nothing reads there. */
  lemma TakenMark(s: string, start: nat, d: Descriptor, next: Descriptor)
    requires ValidDescriptor(d) && ValidDescriptor(next) && !d.internal && next.internal
    requires Stands(s, start, Text(d)) && Stands(s, start + |Text(d)|, Text(next))
    ensures NothingReads(s, start)
  {
    var base, n := BaseText(d.typ.base), d.typ.dims;
    StandsBoth(s, start, base, Pairs(n));
    StandsAt(s, start, base, 0);
    InternalStart(next);
    var at := start + |Text(d)|;
    StandsAt(s, at, Text(next), 0);
    StandsAt(s, at, Text(next), 1);
    forall b | ValidBase(b) && Stands(s, start, BaseText(b)) ensures b == d.typ.base {
      OneBase(s, start, b, d.typ.base);
    }
    HalfPair(s, start, d.typ.base, n);
  }

  lemma InternalStart(d: Descriptor)
    requires ValidDescriptor(d) && d.internal
    ensures |Text(d)| >= 2 && Text(d)[0] == '[' && Text(d)[1] != ']'
  {
    var n, base := d.typ.dims, BaseText(d.typ.base);
    assert Text(d) == Opens(n) + base + "]";
    assert base[0] != ']';
    if n > 1 {
      assert Text(d)[1] == Opens(n)[1];
    } else {
      assert Text(d)[1] == base[0];
    }
  }

  lemma {:induction false} FirstClash(ds: seq<Descriptor>) returns (k: nat)
    requires !Separated(ds)
    ensures 0 < k < |ds| && !ds[k - 1].internal && ds[k].internal && Separated(ds[..k])
  {
    var front := ds[..|ds| - 1];
    if Separated(front) {
      k := |ds| - 1;
    } else {
      k := FirstClash(front);
      assert front[..k] == ds[..k];
    }
  }

  lemma AroundPair(ds: seq<Descriptor>, k: nat)
    requires 0 < k < |ds|
    ensures TextOf(ds) == TextOf(ds[..k - 1]) + Text(ds[k - 1]) + Text(ds[k]) + TextOf(ds[k + 1..])
  {
    hide Text, TextOf;
    var front, a, b, rest := ds[..k - 1], ds[k - 1], ds[k], ds[k + 1..];
    Around(ds, k);
    TextAppend(front + [a] + [b], rest);
    TextSnoc(front + [a], b);
    TextSnoc(front, a);
  }

  lemma Around<T>(s: seq<T>, k: nat)
    requires 0 < k < |s|
    ensures s == s[..k - 1] + [s[k - 1]] + [s[k]] + s[k + 1..]
  {
  }

  lemma ClashFails(ds: seq<Descriptor>, k: nat)
    requires AllValid(ds) && 0 < k < |ds| && !ds[k - 1].internal && ds[k].internal && Separated(ds[..k])
    ensures ArgTypes(TextOf(ds)) == None
  {
    hide Text, ValidDescriptor, NothingReads, ArgTypes, ReadsUpTo, TextOf;
    var s, front, taker, taken := TextOf(ds), ds[..k - 1], ds[k - 1], ds[k];
    var at := |TextOf(front)|;
    AroundPair(ds, k);
    FirstMark(taker);
    InPlace(TextOf(front), Text(taker), Text(taken), TextOf(ds[k + 1..]));
    assert Separated(front) by {
      assert forall i :: 0 <= i < |front| ==> front[i] == ds[..k][i];
    }
    ReadExactly(s, front, at);
    TakenMark(s, at, taker, taken);
    NoArgTypes(s, front, at);
  }

  lemma InPlace(a: string, b: string, c: string, d: string)
    requires b != ""
    ensures var s := a + b + c + d;
            s[..|a|] == a && At(s, |a|) == b[0] && Stands(s, |a|, b) && Stands(s, |a| + |b|, c)
  {
  }

  /** Descriptors of both forms, written one after the other, are read back as the
      same types, unless an internal array follows a descriptor that is not one;
      then the whole string is refused. */
  lemma MixedForms(ds: seq<Descriptor>)
    requires AllValid(ds)
    ensures ArgTypes(TextOf(ds)) == if Separated(ds) then Some(TypesIn(ds)) else None
  {
    hide ValidDescriptor, ReadsUpTo, TextOf, ArgTypes;
    if Separated(ds) {
      ParsesExactly(ds);
      ArgTypesAre(TextOf(ds), ds);
    } else {
      var k := FirstClash(ds);
      ClashFails(ds, k);
    }
  }

  /** Only such texts are accepted at all. */
  lemma AcceptedOnly(s: string)
    ensures ArgTypes(s).Some? <==> exists ds :: AllValid(ds) && Separated(ds) && s == TextOf(ds)
  {
    if ds :| Parses(s, ds) {
      ReadExactly(s, ds, |s|);
      assert s[..|s|] == s;
    }
    if ds :| AllValid(ds) && Separated(ds) && s == TextOf(ds) {
      MixedForms(ds);
    }
  }

  /** The types one after the other, all in one form. */
  function Forms(ts: seq<Type>, internal: bool): (ds: seq<Descriptor>)
    ensures |ds| == |ts|
    ensures forall k :: 0 <= k < |ts| ==> ds[k] == Descriptor(ts[k], internal && ts[k].dims > 0)
  {
    if ts == [] then []
    else Forms(ts[..|ts| - 1], internal) + [Descriptor(ts[|ts| - 1], internal && ts[|ts| - 1].dims > 0)]
  }

  /** Any list of types in external form is read back. */
  lemma ExternalsReadBack(ts: seq<Type>)
    requires forall k :: 0 <= k < |ts| ==> ValidBase(ts[k].base)
    ensures ArgTypes(TextOf(Forms(ts, false))) == Some(ts)
  {
    hide ArgTypes, TextOf, ValidBase;
    MixedForms(Forms(ts, false));
    assert TypesIn(Forms(ts, false)) == ts;
  }

  /** A list in internal form is read back just when no array follows a scalar. */
  lemma InternalsReadBack(ts: seq<Type>)
    requires forall k :: 0 <= k < |ts| ==> ValidBase(ts[k].base)
    ensures ArgTypes(TextOf(Forms(ts, true))) ==
            if forall k :: 0 < k < |ts| && ts[k].dims > 0 ==> ts[k - 1].dims > 0 then Some(ts) else None
  {
    hide ArgTypes, TextOf, ValidBase;
    MixedForms(Forms(ts, true));
    assert TypesIn(Forms(ts, true)) == ts;
  }

  // ---- counting and splitting ----

  /** The number of arguments; -1 for a string that is not well formed. */
  method ArgsRequired(s: string) returns (count: int, ghost ds: seq<Descriptor>)
    ensures count >= 0 ==> Parses(s, ds) && |ds| == count
    ensures count == match ArgTypes(s) {
                       case None => -1
                       case Some(ts) => if |ts| <= INT32_MAX then |ts| else -1
                     }
  {
    hide Reads, NothingReads, ArgTypes;
    var t := 0;
    count, ds := 0, [];
    while t < |s|
      invariant t <= |s| && ReadsUpTo(s, ds, t) && count == |ds| <= INT32_MAX
      decreases |s| - t
    {
      var next, typ, typeLen, dimensions, d := NextArgType(s, t);
      if next.None? {
        NoArgTypes(s, ds, t);
        return -1, ds;
      }
      ReadsOneMore(s, ds, t, d, next.value);
      if count == INT32_MAX {
        TooMany(s, ds, t);
        return -1, ds;
      }
      ds := ds + [d];
      t := next.value;
      count := count + 1;
    }
    ArgTypesAre(s, ds);
  }

  lemma ReadsOneMore(s: string, ds: seq<Descriptor>, t: nat, d: Descriptor, next: nat)
    requires ReadsUpTo(s, ds, t) && Reads(s, t, d, next)
    ensures ReadsUpTo(s, ds + [d], next) && t < next <= |s|
  {
    hide Text, ValidDescriptor, Stands, At;
    assert Reads(s, t, d, next) && next == t + |Text(d)|;
    FirstMark(d);
    assert (ds + [d])[..|ds|] == ds;
    assert next <= |s| by {
      StandsInside(s, t, Text(d));
    }
  }

  lemma StandsInside(s: string, start: nat, text: string)
    requires Stands(s, start, text)
    ensures start + |text| <= |s|
  {
  }

  lemma TooMany(s: string, part: seq<Descriptor>, t: nat)
    requires ReadsUpTo(s, part, t) && t < |s| && |part| == INT32_MAX
    ensures match ArgTypes(s) { case None => true case Some(ts) => |ts| > INT32_MAX }
  {
    hide ReadsUpTo, Parses, Reads, Text;
    forall ds | Parses(s, ds) ensures |ds| > INT32_MAX {
      GoesOn(s, part, t, ds);
    }
  }

  /** The arguments one by one, in internal form; none of them for a string that is
      not well formed. */
  method SplitArgs(s: string) returns (args: Option<seq<string>>)
    ensures args == match ArgTypes(s) {
                      case None => None
                      case Some(ts) => if |ts| <= INT32_MAX then Some(Internals(ts)) else None
                    }
  {
    hide Reads, NothingReads, ArgTypes, Internal, Internals, TypesIn, Text, BaseText, Stands, Opens, ReadsUpTo, Parses;
    var argCount, ds := ArgsRequired(s);
    if argCount < 0 {
      return None;
    }
    ArgTypesAre(s, ds);
    var parts: seq<string> := [];
    var start: nat := 0;
    NothingYet(s, ds);
    var i := 0;
    while i < argCount
      invariant 0 <= i == |parts| <= argCount == |ds| && start <= |s|
      invariant ReadsUpTo(s, ds[..i], start)
      invariant forall k :: 0 <= k < i ==> parts[k] == Internal(ds[k].typ)
    {
      var next, typ, len, dimensions, d := NextArgType(s, start);
      StillReads(s, ds, i, start);
      NextIs(s, ds, i, start, d, next.value);
      StandsInside(s, typ, BaseText(d.typ.base));
      var part := Opens(dimensions) + s[typ..typ + len];
      if dimensions > 0 {
        part := part + "]";
      }
      Copied(s, typ, d.typ, part);
      parts := parts + [part];
      start := next.value;
      i := i + 1;
    }
    PartsOfAll(ds, parts);
    args := Some(parts);
  }

  lemma PartsOfAll(ds: seq<Descriptor>, parts: seq<string>)
    requires |parts| == |ds| && forall k :: 0 <= k < |ds| ==> parts[k] == Internal(ds[k].typ)
    ensures parts == Internals(TypesIn(ds))
  {
    hide Internal;
  }

  lemma StillReads(s: string, ds: seq<Descriptor>, i: nat, start: nat)
    requires Parses(s, ds) && i < |ds| && ReadsUpTo(s, ds[..i], start) && start <= |s|
    ensures Reads(s, start, ds[i], start + |Text(ds[i])|) && !NothingReads(s, start)
  {
    hide ReadsUpTo, Reads, Text, TextOf;
    EndIs(s, ds[..i], start);
    ReadNext(s, ds, |s|, i);
  }

  lemma NothingYet(s: string, ds: seq<Descriptor>)
    ensures ReadsUpTo(s, ds[..0], 0)
  {
  }

  lemma NextIs(s: string, ds: seq<Descriptor>, i: nat, start: nat, d: Descriptor, next: nat)
    requires i < |ds| && ReadsUpTo(s, ds[..i], start)
    requires Reads(s, start, ds[i], start + |Text(ds[i])|) && Reads(s, start, d, next)
    ensures d == ds[i] && ReadsUpTo(s, ds[..i + 1], next) && next <= |s|
  {
    hide ReadsUpTo, Reads, Text;
    OneDescriptor(s, start, d, next, ds[i], start + |Text(ds[i])|);
    ReadsOneMore(s, ds[..i], start, d, next);
    assert ds[..i + 1] == ds[..i] + [d];
  }

  lemma Copied(s: string, typ: nat, t: Type, part: string)
    requires Stands(s, typ, BaseText(t.base))
    requires part == Opens(t.dims) + s[typ..typ + |BaseText(t.base)|] + if t.dims > 0 then "]" else ""
    ensures part == Internal(t)
  {
    assert Opens(0) == "";
  }
}
