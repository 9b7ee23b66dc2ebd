/**
 From the internal form of a type back to the external one, and the other way for
 arrays of one-character types.
 */
module TypeForms {
  import opened TypeStrings

  predicate Quote(c: char) {
    c == ':' || c == ';'
  }

  function Unquoted(s: string): string {
    if s == "" then ""
    else Unquoted(s[..|s| - 1]) + if Quote(s[|s| - 1]) then "" else [s[|s| - 1]]
  }

  /** A base without its quotes. */
  function Letters(b: Base): string {
    match b
    case Primitive(c) => [c]
    case Named(name) => name
  }

  /** The internal form without its quotes, as synthetic arguments carry it. */
  function Bare(t: Type): string {
    if t.dims == 0 then Letters(t.base) else Opens(t.dims) + Letters(t.base) + "]"
  }

  /** One letter is taken for a primitive type. */
  function Read(letters: string): Base
    requires letters != ""
  {
    if |letters| == 1 then Primitive(letters[0]) else Named(letters)
  }

  lemma {:induction false} UnquotedAppend(a: string, b: string)
    ensures Unquoted(a + b) == Unquoted(a) + Unquoted(b)
  {
    if b == "" {
      assert a + b == a;
    } else {
      var front := b[..|b| - 1];
      UnquotedAppend(a, front);
      assert (a + b)[..|a + b| - 1] == a + front;
    }
  }

  lemma {:induction false} UnquotedSame(s: string)
    requires forall k :: 0 <= k < |s| ==> !Quote(s[k])
    ensures Unquoted(s) == s
  {
    if s != "" {
      UnquotedSame(s[..|s| - 1]);
      assert s == s[..|s| - 1] + [s[|s| - 1]];
    }
  }

  lemma UnquotedBase(b: Base)
    requires ValidBase(b)
    ensures Unquoted(BaseText(b)) == Letters(b)
  {
    if b.Named? {
      UnquotedAppend(":" + b.name, ";");
      UnquotedAppend(":", b.name);
      UnquotedSame(b.name);
      assert Unquoted(":") == Unquoted("") == "" && Unquoted(";") == "";
    } else {
      UnquotedSame(BaseText(b));
    }
  }

  lemma UnquotedForm(t: Type)
    requires ValidBase(t.base)
    ensures Unquoted(Internal(t)) == Bare(t) == Unquoted(Bare(t))
  {
    BareShape(t);
    UnquotedBase(t.base);
    UnquotedSame(Bare(t));
    if t.dims > 0 {
      hide Opens, BaseText, Letters, Unquoted;
      UnquotedAppend(Opens(t.dims) + BaseText(t.base), "]");
      UnquotedAppend(Opens(t.dims), BaseText(t.base));
      UnquotedSame(Opens(t.dims));
      UnquotedSame("]");
    }
  }

  method RemoveTypeQuoting(s: string) returns (typ: string)
    ensures typ == Unquoted(s)
  {
    typ := "";
    var n := 0;
    while n < |s|
      invariant 0 <= n <= |s| && typ == Unquoted(s[..n])
    {
      assert s[..n + 1][..n] == s[..n];
      if !Quote(s[n]) {
        typ := typ + [s[n]];
      }
      n := n + 1;
    }
    assert s[..n] == s;
  }

  /** The first text contains a ';' directly followed by a '['. */
  predicate QuotedArray(s: string) {
    exists k :: 0 <= k < |s| - 1 && s[k] == ';' && s[k + 1] == '['
  }

  /** The base letters stand between the marks and the closing bracket. */
  lemma BareShape(t: Type)
    requires ValidBase(t.base)
    ensures var s, letters := Bare(t), Letters(t.base);
            && letters != "" && (forall k :: 0 <= k < |letters| ==> Plain(letters[k]))
            && |s| == t.dims + |letters| + (if t.dims > 0 then 1 else 0)
            && (forall k :: 0 <= k < t.dims ==> s[k] == '[')
            && s[t.dims..t.dims + |letters|] == letters
            && (forall k :: t.dims <= k < t.dims + |letters| ==> Plain(s[k]))
  {
    if t.dims > 0 {
      assert Bare(t)[t.dims..t.dims + |Letters(t.base)|] == Letters(t.base);
    }
  }

  lemma FirstPair(n: nat)
    ensures n > 0 ==> Pairs(n)[0] == '[' && Pairs(n)[1] == ']'
  {
    if n > 0 {
      assert Pairs(n)[2 * 0] == '[' && Pairs(n)[2 * 0 + 1] == ']';
    }
  }

  /** Which of the early exits is taken. */
  lemma EarlyExit(t: Type, arg: string)
    requires ValidBase(t.base) && |arg| > 1
    requires arg == Internal(t) || arg == External(t) || arg == Bare(t)
    ensures arg != ""
    ensures arg[0] == ':' && QuotedArray(arg) ==> arg == External(t)
    ensures arg[0] != '[' && arg[0] != ':' && '[' in arg ==> arg == External(t)
    ensures arg == Internal(t) || arg == Bare(t)
            || (arg[0] == ':' && QuotedArray(arg)) || (arg[0] != '[' && arg[0] != ':' && '[' in arg)
  {
    BareShape(t);
    var base := BaseText(t.base);
    if arg == External(t) {
      if t.dims == 0 {
        assert arg == Internal(t);
      } else {
        FirstPair(t.dims);
        assert arg[|base|] == Pairs(t.dims)[0];
        if t.base.Named? {
          assert arg[|base| - 1] == ';';
        }
      }
    } else if t.dims > 0 {
      assert arg[0] == '[';
    } else {
      assert forall k :: 0 <= k < |arg| - 1 ==> k == 0 || Plain(arg[k]);
      assert '[' !in arg;
    }
  }

  /** What is left of a type after splitting and converting back. */
  function ThereAndBack(t: Type): Type
    requires ValidBase(t.base)
  {
    if t.dims == 0 then t else Type(Read(Letters(t.base)), t.dims)
  }

  /** The external form of a type given in its internal form.  The marks and the
      closing bracket give way to pairs, and a name gets its quotes back; a name of one
      letter in an array does not, since it looks like a primitive type by then.  The
      external form of a type stays as it is. */
  method ConvertInternalToExternal(arg: string, ghost t: Type) returns (r: string)
    requires ValidBase(t.base)
    requires arg == Internal(t) || arg == External(t) || arg == Bare(t)
    ensures arg == External(t) ==> r == External(t)
    ensures arg == Internal(t) ==> r == External(ThereAndBack(t))
    ensures arg == Bare(t) ==> r == External(Type(Read(Letters(t.base)), t.dims))
  {
    hide Internal, External, Bare, Letters, ValidBase, Read, BaseText, Pairs, Unquoted, PairAt;
    Different(t);
    if |arg| == 1 {
      OneCharacter(t, arg);
      return arg;
    }
    var typ := RemoveTypeQuoting(arg);
    EarlyExit(t, arg);
    MarksIn(t);
    if arg[0] == ':' && QuotedArray(arg) {
      return arg;
    }
    if arg[0] != '[' && arg[0] != ':' && '[' in arg {
      return arg;
    }
    UnquotedForm(t);
    NothingToCut(t);
    typ := CutAtPair(typ);
    if '[' !in typ {
      r := ":" + typ + ";";
      QuotedAgain(t, arg, r);
      return;
    }
    InBare(t);
    var dimensions := 0;
    while typ[dimensions] == '['
      invariant 0 <= dimensions <= t.dims
      decreases |typ| - dimensions
    {
      dimensions := dimensions + 1;
    }
    var name := typ[dimensions..|typ| - 1];
    if |name| > 1 {
      r := ":" + name + ";";
    } else {
      r := [typ[dimensions]];
    }
    ReadText(name, r);
    r := AddPairs(r, dimensions);
    ExternalIs(name, dimensions);
  }

  method AddPairs(base: string, dimensions: nat) returns (r: string)
    ensures r == base + Pairs(dimensions)
  {
    r := base;
    var i := 0;
    while i < dimensions
      invariant 0 <= i <= dimensions && r == base + Pairs(i)
    {
      r := r + "[]";
      i := i + 1;
    }
  }

  lemma ReadText(name: string, text: string)
    requires name != "" && text == if |name| > 1 then ":" + name + ";" else [name[0]]
    ensures text == BaseText(Read(name))
  {
  }

  lemma ExternalIs(name: string, dims: nat)
    requires name != ""
    ensures External(Type(Read(name), dims)) == BaseText(Read(name)) + Pairs(dims)
  {
  }

  lemma OneCharacter(t: Type, arg: string)
    requires ValidBase(t.base) && |arg| == 1
    requires arg == Internal(t) || arg == External(t) || arg == Bare(t)
    ensures t.dims == 0 && arg == Letters(t.base) && arg == External(Type(Read(Letters(t.base)), t.dims))
  {
    BareShape(t);
    assert Pairs(0) == "";
  }

  /** Forms of an array differ in their first character. */
  lemma Different(t: Type)
    requires ValidBase(t.base)
    ensures External(t) != "" && Internal(t) != "" && Bare(t) != "" && (t.dims == 0 ==> Bare(t)[0] != ':')
    ensures (t.dims > 0 ==> Internal(t)[0] == '[' && Bare(t)[0] == '[' && External(t)[0] != '[')
    ensures t.dims == 0 ==> External(t) == Internal(t)
  {
    BareShape(t);
    assert Pairs(0) == "";
    if t.dims > 0 {
      assert Internal(t)[0] == Opens(t.dims)[0];
      assert External(t)[0] == BaseText(t.base)[0];
    }
  }

  lemma MarksIn(t: Type)
    requires ValidBase(t.base)
    ensures '[' in Bare(t) <==> t.dims > 0
  {
    BareShape(t);
    if t.dims > 0 {
      assert Bare(t)[0] == '[';
    } else {
      assert forall k :: 0 <= k < |Bare(t)| ==> Plain(Bare(t)[k]);
    }
  }

  /** What the loops over an array find in its text. */
  lemma InBare(t: Type)
    requires ValidBase(t.base) && t.dims > 0
    ensures |Bare(t)| > t.dims + 1 && Bare(t)[t.dims] != '[' && Bare(t)[t.dims] == Letters(t.base)[0]
    ensures forall k :: 0 <= k < t.dims ==> Bare(t)[k] == '['
    ensures Bare(t)[t.dims..|Bare(t)| - 1] == Letters(t.base) != ""
  {
    BareShape(t);
    assert Bare(t)[t.dims..t.dims + |Letters(t.base)|][0] == Bare(t)[t.dims];
  }

  predicate PairAt(s: string, k: nat) {
    At(s, k) == '[' && At(s, k + 1) == ']'
  }

  /** Drops everything from the first "[]" after the first character. */
  method CutAtPair(s: string) returns (r: string)
    ensures r <= s && (|r| < |s| ==> 0 < |r| && PairAt(s, |r|))
    ensures forall k :: 1 <= k < |r| ==> !PairAt(s, k)
    ensures (forall k :: 1 <= k < |s| ==> !PairAt(s, k)) ==> r == s
  {
    r := s;
    var scan := 1;
    while scan < |s|
      invariant r == s && 1 <= scan && (scan <= |s| || s == "" || scan == 1)
      invariant forall k :: 1 <= k < scan && k < |s| ==> !PairAt(s, k)
      decreases |s| - scan
    {
      if scan + 1 < |s| && s[scan] == '[' && s[scan + 1] == ']' {
        assert PairAt(s, scan);
        return s[..scan];
      }
      scan := scan + 1;
    }
  }

  /** No "[]" occurs between the first character and the end. */
  lemma NothingToCut(t: Type)
    requires ValidBase(t.base)
    ensures forall k :: 0 <= k < |Bare(t)| ==> !PairAt(Bare(t), k)
  {
    BareShape(t);
  }

  lemma QuotedAgain(t: Type, arg: string, r: string)
    requires ValidBase(t.base) && t.dims == 0 && |arg| > 1 && r == ":" + Bare(t) + ";"
    requires arg == Internal(t) || arg == External(t) || arg == Bare(t)
    ensures arg == External(t) ==> r == External(t)
    ensures arg == Bare(t) ==> r == External(Type(Read(Letters(t.base)), 0))
  {
    assert Pairs(0) == "";
  }

  lemma ReadBase(t: Type)
    requires ValidBase(t.base)
    ensures Read(Letters(t.base)) == t.base <==> !(t.base.Named? && |t.base.name| == 1)
  {
  }

  /** The conversion back undoes a split except on an array of a type with a name of
      one letter; that one comes out as an array of the primitive type of that
      letter, a different type with the same text from then on. */
  lemma BackExactly(t: Type)
    requires ValidBase(t.base)
    ensures External(ThereAndBack(t)) == External(t) <==> !(t.dims > 0 && t.base.Named? && |t.base.name| == 1)
  {
    if t.dims > 0 && t.base.Named? && |t.base.name| == 1 {
      assert External(t)[0] == ':' && External(ThereAndBack(t))[0] == t.base.name[0];
    } else {
      ReadBase(t);
    }
  }

  /** The marks go in front for an array of a one-character type; every other text is
      returned as it is. */
  method ConvertExternalToInternal(arg: string, ghost t: Type) returns (r: string)
    requires ValidBase(t.base) && arg == External(t)
    ensures r == if t.base.Primitive? then Internal(t) else External(t)
  {
    Different(t);
    if At(arg, 1) != '[' {
      NotAnArray(t);
      return arg;
    }
    AnArray(t);
    var dimensions := (|arg| - 1) / 2;
    var i := 0;
    r := "";
    while i < dimensions
      invariant 0 <= i <= dimensions == t.dims && r == Opens(i)
    {
      r := r + "[";
      i := i + 1;
    }
    r := r + [arg[0]] + "]";
  }

  lemma NotAnArray(t: Type)
    requires ValidBase(t.base) && At(External(t), 1) != '['
    ensures t.base.Primitive? ==> t.dims == 0
  {
    FirstPair(t.dims);
  }

  lemma AnArray(t: Type)
    requires ValidBase(t.base) && At(External(t), 1) == '['
    ensures t.base.Primitive? && t.dims > 0 && External(t) == [t.base.code] + Pairs(t.dims)
  {
    SecondLetter(t);
  }

  lemma SecondLetter(t: Type)
    requires ValidBase(t.base)
    ensures t.base.Named? ==> At(External(t), 1) == t.base.name[0] != '['
  {
  }
}
