/**
 Type descriptors as text.  A type is a base with a number of dimensions; a base
 is one character or a name between ':' and ';'.  The external form puts "[]"
 pairs after the base, the internal form of an array puts '[' marks before it and
 one ']' after it.
 */
module TypeStrings {
  import opened Basics

  datatype Base = Primitive(code: char) | Named(name: string)

  datatype Type = Type(base: Base, dims: nat)

  /** One descriptor in an argument string, in either form. */
  datatype Descriptor = Descriptor(typ: Type, internal: bool)

  predicate Space(c: char) {
    c == ' ' || '\t' <= c <= '\r'
  }

  /** The characters that can make up a base. */
  predicate Plain(c: char) {
    c != '\0' && c !in ":;[]" && !Space(c)
  }

  ghost predicate ValidBase(b: Base) {
    match b
    case Primitive(c) => Plain(c)
    case Named(name) => name != [] && forall k :: 0 <= k < |name| ==> Plain(name[k])
  }

  ghost predicate ValidDescriptor(d: Descriptor) {
    ValidBase(d.typ.base) && (d.internal ==> d.typ.dims > 0)
  }

  function BaseText(b: Base): (text: string)
    ensures text != []
  {
    match b
    case Primitive(c) => [c]
    case Named(name) => ":" + name + ";"
  }

  function Opens(n: nat): (text: string)
    ensures |text| == n && forall k :: 0 <= k < n ==> text[k] == '['
  {
    if n == 0 then "" else Opens(n - 1) + "["
  }

  function Pairs(n: nat): (text: string)
    ensures |text| == 2 * n
    ensures forall k :: 0 <= k < n ==> text[2 * k] == '[' && text[2 * k + 1] == ']'
  {
    if n == 0 then "" else Pairs(n - 1) + "[]"
  }

  function External(t: Type): string {
    BaseText(t.base) + Pairs(t.dims)
  }

  function Internal(t: Type): string {
    if t.dims == 0 then BaseText(t.base) else Opens(t.dims) + BaseText(t.base) + "]"
  }

  function Text(d: Descriptor): string {
    if d.internal then Internal(d.typ) else External(d.typ)
  }

  /** The character at a place; the terminator past the end. */
  function At(s: string, i: nat): char {
    if i < |s| then s[i] else '\0'
  }

  ghost predicate Stands(s: string, start: nat, text: string) {
    start + |text| <= |s| && s[start..start + |text|] == text
  }

  /** The descriptor stands at the place and takes every "[]" that follows it. */
  ghost predicate Reads(s: string, start: nat, d: Descriptor, next: nat) {
    && ValidDescriptor(d) && Stands(s, start, Text(d)) && next == start + |Text(d)|
    && (!d.internal ==> At(s, next) != '[')
  }

  /** The base that stands at a place is this one, if it is any. */
  ghost predicate OnlyBase(s: string, start: nat, base: Base) {
    forall b :: ValidBase(b) && Stands(s, start, BaseText(b)) ==> b == base
  }

  ghost predicate NothingReads(s: string, start: nat) {
    forall d, next :: !Reads(s, start, d, next)
  }

  /** All the '[' marks at a place. */
  ghost predicate Marks(s: string, start: nat, opens: nat) {
    && start + opens <= |s| && At(s, start + opens) != '['
    && forall k :: start <= k < start + opens ==> s[k] == '['
  }

  // ---- reading one descriptor ----

  lemma StandsBoth(s: string, start: nat, a: string, b: string)
    ensures Stands(s, start, a + b) <==> Stands(s, start, a) && Stands(s, start + |a|, b)
  {
    var middle := start + |a|;
    var end := middle + |b|;
    if end <= |s| {
      assert s[start..end] == s[start..middle] + s[middle..end];
      assert s[start..end][..|a|] == s[start..middle] && s[start..end][|a|..] == s[middle..end];
      assert (a + b)[..|a|] == a && (a + b)[|a|..] == b;
    }
  }

  lemma StandsAt(s: string, start: nat, text: string, k: nat)
    requires Stands(s, start, text) && k < |text|
    ensures At(s, start + k) == text[k]
  {
    assert s[start..start + |text|][k] == s[start + k];
  }

  /** The '[' marks before a base are all counted. */
  lemma MarksEnd(s: string, start: nat, opens: nat, n: nat)
    requires start + opens <= |s| && At(s, start + opens) != '['
    requires forall k :: start <= k < start + opens ==> s[k] == '['
    requires Stands(s, start, Opens(n)) && At(s, start + n) != '['
    ensures n == opens
  {
    if opens < n {
      StandsAt(s, start, Opens(n), opens);
    }
  }

  lemma PartsOfInternal(s: string, start: nat, opens: nat, t: Type)
    requires ValidBase(t.base) && t.dims > 0 && Stands(s, start, Opens(t.dims) + BaseText(t.base) + "]")
    requires start + opens <= |s| && At(s, start + opens) != '['
    requires forall k :: start <= k < start + opens ==> s[k] == '['
    ensures t.dims == opens && Stands(s, start + opens, BaseText(t.base))
    ensures At(s, start + opens + |BaseText(t.base)|) == ']'
  {
    hide Stands, At, Opens;
    var base, n := BaseText(t.base), t.dims;
    StandsBoth(s, start, Opens(n) + base, "]");
    StandsBoth(s, start, Opens(n), base);
    StandsAt(s, start + n, base, 0);
    MarksEnd(s, start, opens, n);
    StandsAt(s, start + n + |base|, "]", 0);
  }

  lemma PartsOfExternal(s: string, start: nat, opens: nat, t: Type)
    requires ValidBase(t.base) && Stands(s, start, BaseText(t.base) + Pairs(t.dims))
    requires start + opens <= |s| && At(s, start + opens) != '['
    requires forall k :: start <= k < start + opens ==> s[k] == '['
    ensures opens == 0 && Stands(s, start, BaseText(t.base))
    ensures Stands(s, start + |BaseText(t.base)|, Pairs(t.dims))
  {
    hide Stands, Pairs;
    StandsBoth(s, start, BaseText(t.base), Pairs(t.dims));
    StandsAt(s, start, BaseText(t.base), 0);
  }

  /** The parts of a descriptor that stands after a known number of '['. */
  lemma PartsOf(s: string, start: nat, opens: nat, d: Descriptor, next: nat)
    requires Reads(s, start, d, next) && Marks(s, start, opens)
    ensures d.internal == (opens > 0) && (d.internal ==> d.typ.dims == opens)
    ensures ValidBase(d.typ.base) && Stands(s, start + opens, BaseText(d.typ.base))
    ensures var after := start + opens + |BaseText(d.typ.base)|;
            if d.internal then At(s, after) == ']' && next == after + 1
            else Stands(s, after, Pairs(d.typ.dims)) && next == after + 2 * d.typ.dims && At(s, next) != '['
  {
    hide Stands, At, Pairs, Opens, BaseText, ValidBase;
    if d.internal {
      PartsOfInternal(s, start, opens, d.typ);
    } else {
      PartsOfExternal(s, start, opens, d.typ);
    }
  }

  /** A name ends at the first character that cannot be in it. */
  lemma NameEnds(s: string, start: nat, b: Base, t: nat)
    requires ValidBase(b) && Stands(s, start, BaseText(b)) && At(s, start) == ':'
    requires start + 1 <= t <= |s| && !Plain(At(s, t))
    requires forall k :: start < k < t ==> Plain(s[k])
    ensures At(s, t) == ';' && t > start + 1 && b == Named(s[start + 1..t])
  {
    var text := BaseText(b);
    StandsAt(s, start, text, 0);
    var name := b.name;
    StandsBoth(s, start, ":" + name, ";");
    StandsBoth(s, start, ":", name);
    var end := start + 1 + |name|;
    StandsAt(s, end, ";", 0);
    forall k | start < k < end ensures Plain(At(s, k)) {
      StandsAt(s, start + 1, name, k - start - 1);
    }
    assert t == end;
  }

  lemma PrimitiveOnly(s: string, start: nat, b: Base)
    requires ValidBase(b) && Stands(s, start, BaseText(b)) && At(s, start) != ':'
    ensures Plain(At(s, start)) && b == Primitive(s[start])
  {
    StandsAt(s, start, BaseText(b), 0);
  }

  /** Pairs end at the first place where there is no further pair. */
  lemma PairsEnd(s: string, start: nat, n: nat, m: nat)
    requires Stands(s, start, Pairs(n)) && Stands(s, start, Pairs(m)) && At(s, start + 2 * m) != '['
    ensures n <= m
    ensures At(s, start + 2 * n) != '[' ==> n == m
    ensures At(s, start + 2 * n) == '[' ==> At(s, start + 2 * n + 1) == ']'
  {
    if m < n {
      StandsAt(s, start, Pairs(n), 2 * m);
    }
    if n < m {
      StandsAt(s, start, Pairs(m), 2 * n);
      StandsAt(s, start, Pairs(m), 2 * n + 1);
    }
  }

  lemma NoPairs(s: string, start: nat)
    requires start <= |s|
    ensures Stands(s, start, Pairs(0))
  {
  }

  lemma OnePairMore(s: string, start: nat, n: nat)
    requires Stands(s, start, Pairs(n)) && At(s, start + 2 * n) == '[' && At(s, start + 2 * n + 1) == ']'
    ensures Stands(s, start, Pairs(n + 1))
  {
    var t := start + 2 * n;
    assert s[t..t + 2] == "[]";
    StandsBoth(s, start, Pairs(n), "[]");
  }

  /** An array in internal form put together from its parts. */
  lemma InternalStands(s: string, start: nat, t: Type)
    requires t.dims > 0 && ValidBase(t.base) && start + t.dims <= |s|
    requires forall k :: start <= k < start + t.dims ==> s[k] == '['
    requires Stands(s, start + t.dims, BaseText(t.base))
    requires At(s, start + t.dims + |BaseText(t.base)|) == ']'
    ensures Reads(s, start, Descriptor(t, true), start + t.dims + |BaseText(t.base)| + 1)
  {
    MarksStand(s, start, t.dims);
    OneStands(s, start + t.dims + |BaseText(t.base)|, ']');
    hide Stands, At, Opens, BaseText, ValidBase;
    StandsBoth(s, start, Opens(t.dims), BaseText(t.base));
    StandsBoth(s, start, Opens(t.dims) + BaseText(t.base), "]");
  }

  lemma MarksStand(s: string, start: nat, n: nat)
    requires start + n <= |s| && forall k :: start <= k < start + n ==> s[k] == '['
    ensures Stands(s, start, Opens(n))
  {
    assert s[start..start + n] == Opens(n);
  }

  lemma OneStands(s: string, start: nat, c: char)
    requires At(s, start) == c != '\0'
    ensures Stands(s, start, [c])
  {
  }

  lemma ExternalStands(s: string, start: nat, t: Type)
    requires ValidBase(t.base) && Stands(s, start, BaseText(t.base))
    requires Stands(s, start + |BaseText(t.base)|, Pairs(t.dims))
    requires At(s, start + |BaseText(t.base)| + 2 * t.dims) != '['
    ensures Reads(s, start, Descriptor(t, false), start + |BaseText(t.base)| + 2 * t.dims)
  {
    StandsBoth(s, start, BaseText(t.base), Pairs(t.dims));
  }

  /** Reads the base: one character, or a quoted name. */
  method NextBase(s: string, start: nat) returns (next: Option<nat>, ghost base: Base)
    requires start <= |s| && At(s, start) != '['
    ensures next.Some? ==> ValidBase(base) && Stands(s, start, BaseText(base)) && next.value == start + |BaseText(base)|
    ensures next.None? ==> forall b :: ValidBase(b) ==> !Stands(s, start, BaseText(b))
    ensures OnlyBase(s, start, base)
  {
    var t := start;
    base := Primitive('\0');
    if At(s, t) == ':' {
      t := t + 1;
      if At(s, t) == ';' {
        forall b | ValidBase(b) && Stands(s, start, BaseText(b)) ensures false {
          NameEnds(s, start, b, t);
        }
        return None, base;
      }
      while At(s, t) != ';'
        invariant start + 1 <= t <= |s| && (t == start + 1 ==> At(s, t) != ';')
        invariant forall k :: start < k < t ==> Plain(s[k])
        decreases |s| - t
      {
        var c := At(s, t);
        if c == '\0' || c == ':' || c == '[' || c == ']' || Space(c) {
          forall b | ValidBase(b) && Stands(s, start, BaseText(b)) ensures false {
            NameEnds(s, start, b, t);
          }
          return None, base;
        }
        t := t + 1;
      }
      base := Named(s[start + 1..t]);
      assert s[start..t + 1] == [s[start]] + s[start + 1..t] + [s[t]];
      forall b | ValidBase(b) && Stands(s, start, BaseText(b)) ensures b == base {
        NameEnds(s, start, b, t);
      }
      t := t + 1;
    } else {
      var c := At(s, t);
      forall b | ValidBase(b) && Stands(s, start, BaseText(b)) ensures Plain(c) && b == Primitive(c) {
        PrimitiveOnly(s, start, b);
      }
      if c == '\0' || c == ']' || c == ';' || Space(c) {
        return None, base;
      }
      base := Primitive(c);
      t := t + 1;
    }
    next := Some(t);
  }

  lemma NoBase(s: string, start: nat, opens: nat)
    requires Marks(s, start, opens)
    requires forall b :: ValidBase(b) ==> !Stands(s, start + opens, BaseText(b))
    ensures NothingReads(s, start)
  {
    hide Stands, Reads, Pairs, Opens, BaseText, ValidBase, At, Marks;
    forall d, next | Reads(s, start, d, next) ensures false {
      PartsOf(s, start, opens, d, next);
    }
  }

  lemma NotClosed(s: string, start: nat, opens: nat, base: Base)
    requires Marks(s, start, opens) && opens > 0 && OnlyBase(s, start + opens, base)
    requires At(s, start + opens + |BaseText(base)|) != ']'
    ensures NothingReads(s, start)
  {
    hide Stands, Reads, Pairs, Opens, BaseText, ValidBase, At, Marks;
    forall d, next | Reads(s, start, d, next) ensures false {
      PartsOf(s, start, opens, d, next);
    }
  }

  lemma HalfPair(s: string, start: nat, base: Base, n: nat)
    requires Marks(s, start, 0) && OnlyBase(s, start, base)
    requires Stands(s, start + |BaseText(base)|, Pairs(n))
    requires var t := start + |BaseText(base)| + 2 * n; At(s, t) == '[' && At(s, t + 1) != ']'
    ensures NothingReads(s, start)
  {
    hide Stands, Reads, Pairs, Opens, BaseText, ValidBase, At, Marks;
    forall d, next | Reads(s, start, d, next) ensures false {
      PartsOf(s, start, 0, d, next);
      PairsEnd(s, start + |BaseText(base)|, n, d.typ.dims);
    }
  }

  /** Reads one descriptor, or fails when none stands there; where its base is, how
      long that is and the dimensions are what the callers copy. */
  method NextArgType(s: string, start: nat)
    returns (next: Option<nat>, typ: nat, typeLen: nat, dimensions: nat, ghost d: Descriptor)
    requires start <= |s|
    ensures next.Some? ==>
              && Reads(s, start, d, next.value) && dimensions == d.typ.dims
              && Stands(s, typ, BaseText(d.typ.base)) && typeLen == |BaseText(d.typ.base)|
    ensures next.None? ==> NothingReads(s, start)
  {
    hide Stands, Reads, Pairs, Opens, BaseText, ValidBase;
    var t := start;
    var internal := At(s, t) == '[';
    dimensions, typeLen := 0, 0;
    d := Descriptor(Type(Primitive('\0'), 0), internal);
    while At(s, t) == '['
      invariant t == start + dimensions <= |s| && (At(s, start) == '[' <==> internal)
      invariant forall k :: start <= k < t ==> s[k] == '['
      decreases |s| - t
    {
      dimensions := dimensions + 1;
      t := t + 1;
    }
    typ := t;
    assert Marks(s, start, dimensions) && (internal <==> dimensions > 0);
    var after, base := NextBase(s, t);
    if after.None? {
      NoBase(s, start, dimensions);
      return None, typ, typeLen, dimensions, d;
    }
    t := after.value;
    typeLen := t - typ;
    if internal {
      if At(s, t) != ']' {
        NotClosed(s, start, dimensions, base);
        return None, typ, typeLen, dimensions, d;
      }
      d := Descriptor(Type(base, dimensions), true);
      InternalStands(s, start, d.typ);
      return Some(t + 1), typ, typeLen, dimensions, d;
    }
    NoPairs(s, t);
    while At(s, t) == '['
      invariant t == after.value + 2 * dimensions <= |s| && Stands(s, after.value, Pairs(dimensions))
      decreases |s| - t
    {
      if At(s, t + 1) != ']' {
        HalfPair(s, start, base, dimensions);
        return None, typ, typeLen, dimensions, d;
      }
      OnePairMore(s, after.value, dimensions);
      dimensions := dimensions + 1;
      t := t + 2;
    }
    d := Descriptor(Type(base, dimensions), false);
    ExternalStands(s, start, d.typ);
    next := Some(t);
  }
}
