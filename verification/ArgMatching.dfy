/**
 Do the arguments of a call fit the input types of an opcode?  The decision is made
 by a matcher over split descriptors, and by a faster one on plain characters when
 there is nothing to split.  Both are held against one description of what fits.
 */
module ArgMatching {
  import opened Basics
  import opened TypeStrings
  import opened TypeLists

  const VARGMAX := 1999

  const POLY_IN_TYPES: seq<(string, string)> := [
    ("x", "kacpri"), ("T", "Sicpr"), ("U", "Sikcpr"), ("i", "cpri"), ("k", "cprki"), ("K", "cprki"), ("B", "Bb")
  ]

  const OPTIONAL_IN_TYPES: seq<(string, string)> := [
    ("o", "icpr"), ("p", "icpr"), ("q", "icpr"), ("v", "icpr"), ("j", "icpr"), ("h", "icpr"),
    ("O", "kicpr"), ("J", "kicpr"), ("V", "kicpr"), ("P", "kicpr")
  ]

  const VAR_ARG_IN_TYPES: seq<(string, string)> := [
    ("m", "icrpb"), ("M", "icrpkabB"), ("N", "icrpkaSbB"), ("n", "icrpb"),
    ("W", "S"), ("y", "a"), ("z", "kicrpbB"), ("Z", "kaicrpbB")
  ]

  predicate Optional(arg: string) {
    |arg| == 1 && arg[0] in "opqvjhOJVP?"
  }

  predicate Variadic(arg: string) {
    |arg| == 1 && arg[0] in "mMNnWyzZ*"
  }

  // ---- one argument ----

  /** The codes of the found types that a required code stands for. */
  function StandsFor(required: string): string {
    if required == "x" then "kacpri"
    else if required == "T" then "Sicpr"
    else if required == "U" then "Sikcpr"
    else if required == "i" then "cpri"
    else if required in ["k", "K"] then "cprki"
    else if required == "B" then "Bb"
    else if required in ["o", "p", "q", "v", "j", "h"] then "icpr"
    else if required in ["O", "J", "V", "P"] then "kicpr"
    else if required in ["m", "n"] then "icrpb"
    else if required == "M" then "icrpkabB"
    else if required == "N" then "icrpkaSbB"
    else if required == "W" then "S"
    else if required == "y" then "a"
    else if required == "z" then "kicrpbB"
    else if required == "Z" then "kaicrpbB"
    else ""
  }

  function SkipMarks(s: string): string {
    if s != "" && s[0] == '[' then SkipMarks(s[1..]) else s
  }

  function Normalized(s: string): string {
    if |s| >= 2 && s[0] == ':' && s[|s| - 1] == ';' then s[1..|s| - 1] else s
  }

  predicate Anything(s: string) {
    s != "" && s[0] in ".?*"
  }

  /** Arrays of any rank fit when the elements are of the same type, and init-rate
      elements fit control-rate ones. */
  predicate ArrayFits(found: string, required: string) {
    var f, r := SkipMarks(found), SkipMarks(required);
    Anything(r) || (r == "k]" && f == "i]") || f == r
  }

  predicate Accepts(found: string, required: string) {
    && found != "" && required != ""
    && (|| Normalized(found) == Normalized(required)
        || (found[0] == 'k' && required[0] == 'B')
        || Anything(required)
        || (if found[0] == '[' || required[0] == '[' then found[0] == required[0] && ArrayFits(found, required)
            else found[0] in StandsFor(required)))
  }

  ghost predicate Listed(table: seq<(string, string)>, code: string) {
    exists k :: 0 <= k < |table| && table[k].0 == code
  }

  /** The entry of a table for a code. */
  method InTable(table: seq<(string, string)>, required: string, found: char)
    returns (listed: bool, accepted: bool)
    ensures listed <==> Listed(table, required)
    ensures listed ==> exists k :: 0 <= k < |table| && table[k].0 == required && accepted == (found in table[k].1)
  {
    for i := 0 to |table|
      invariant forall k :: 0 <= k < i ==> table[k].0 != required
    {
      if required == table[i].0 {
        return true, found in table[i].1;
      }
    }
    return false, false;
  }

  lemma PolyCodes(k: nat)
    requires k < |POLY_IN_TYPES|
    ensures StandsFor(POLY_IN_TYPES[k].0) == POLY_IN_TYPES[k].1
  {
  }

  lemma OptionalCodes(k: nat)
    requires k < |OPTIONAL_IN_TYPES|
    ensures StandsFor(OPTIONAL_IN_TYPES[k].0) == OPTIONAL_IN_TYPES[k].1
  {
  }

  lemma VariadicCodes(k: nat)
    requires k < |VAR_ARG_IN_TYPES|
    ensures StandsFor(VAR_ARG_IN_TYPES[k].0) == VAR_ARG_IN_TYPES[k].1
  {
  }

  lemma PolyListed(code: string)
    requires code in ["x", "T", "U", "i", "k", "K", "B"]
    ensures Listed(POLY_IN_TYPES, code)
  {
    var k :| 0 <= k < 7 && code == ["x", "T", "U", "i", "k", "K", "B"][k];
    assert POLY_IN_TYPES[k].0 == code;
  }

  lemma OptionalListed(code: string)
    requires code in ["o", "p", "q", "v", "j", "h", "O", "J", "V", "P"]
    ensures Optional(code) && Listed(OPTIONAL_IN_TYPES, code)
  {
    var k :| 0 <= k < 10 && code == ["o", "p", "q", "v", "j", "h", "O", "J", "V", "P"][k];
    assert OPTIONAL_IN_TYPES[k].0 == code;
  }

  lemma VariadicListed(code: string)
    requires code in ["m", "M", "N", "n", "W", "y", "z", "Z"]
    ensures Variadic(code) && Listed(VAR_ARG_IN_TYPES, code)
  {
    var k :| 0 <= k < 8 && code == ["m", "M", "N", "n", "W", "y", "z", "Z"][k];
    assert VAR_ARG_IN_TYPES[k].0 == code;
  }

  /** A code that stands for something is in one of the tables. */
  lemma Coded(code: string)
    requires StandsFor(code) != ""
    ensures Listed(POLY_IN_TYPES, code) || (Optional(code) && Listed(OPTIONAL_IN_TYPES, code))
            || (Variadic(code) && Listed(VAR_ARG_IN_TYPES, code))
  {
    hide Listed, Optional, Variadic;
    if code in ["x", "T", "U", "i", "k", "K", "B"] {
      PolyListed(code);
    } else if code in ["o", "p", "q", "v", "j", "h", "O", "J", "V", "P"] {
      OptionalListed(code);
    } else {
      VariadicListed(code);
    }
  }

  /** The quotes of a named type do not count; nothing else is taken off a name. */
  lemma QuotesDoNotCount(name: string, other: string)
    requires name != "" && name[0] != ':' && other != "" && other[0] != ':'
    ensures Accepts(":" + name + ";", name) && Accepts(name, ":" + name + ";")
    ensures Normalized(":" + name + ";") == Normalized(":" + other + ";") <==> name == other
    ensures Normalized(":" + name + ";") == Normalized(other) <==> name == other
  {
    var quoted, quotedOther := ":" + name + ";", ":" + other + ";";
    assert quoted[1..|quoted| - 1] == name && quotedOther[1..|quotedOther| - 1] == other;
  }

  method CheckInArg(found: string, required: string) returns (ok: bool)
    ensures ok <==> Accepts(found, required)
  {
    if found == "" || required == "" {
      return false;
    }
    if found == required {
      return true;
    }
    if |found| > 1 || |required| > 1 {
      if Normalized(found) == Normalized(required) {
        return true;
      }
    }
    if found[0] == 'k' && required[0] == 'B' {
      return true;
    }
    if required[0] == '.' || required[0] == '?' || required[0] == '*' {
      return true;
    }
    if found[0] == '[' || required[0] == '[' {
      if found[0] != required[0] {
        return false;
      }
      ok := CheckArrayArgIn(found, required);
      return;
    }
    ok := LookedUp(found[0], required);
  }

  method CheckArrayArgIn(found: string, required: string) returns (ok: bool)
    ensures ok <==> ArrayFits(found, required)
  {
    var f, r := found, required;
    while r != "" && r[0] == '['
      invariant SkipMarks(r) == SkipMarks(required)
      decreases |r|
    {
      r := r[1..];
    }
    if r != "" && (r[0] == '.' || r[0] == '?' || r[0] == '*') {
      return true;
    }
    while f != "" && f[0] == '['
      invariant SkipMarks(f) == SkipMarks(found)
      decreases |f|
    {
      f := f[1..];
    }
    if r == "k]" && f == "i]" {
      return true;
    }
    ok := f == r;
  }

  /** The three tables one after the other. */
  method LookedUp(found: char, required: string) returns (ok: bool)
    ensures ok <==> found in StandsFor(required)
  {
    hide StandsFor;
    var listed: bool;
    listed, ok := InTable(POLY_IN_TYPES, required, found);
    if listed {
      forall k | 0 <= k < |POLY_IN_TYPES| ensures StandsFor(POLY_IN_TYPES[k].0) == POLY_IN_TYPES[k].1 {
        PolyCodes(k);
      }
      return;
    }
    if Optional(required) {
      listed, ok := InTable(OPTIONAL_IN_TYPES, required, found);
      if listed {
        forall k | 0 <= k < |OPTIONAL_IN_TYPES|
          ensures StandsFor(OPTIONAL_IN_TYPES[k].0) == OPTIONAL_IN_TYPES[k].1
        {
          OptionalCodes(k);
        }
        return;
      }
    }
    if found in StandsFor(required) {
      Coded(required);
    }
    if !Variadic(required) {
      return false;
    }
    listed, ok := InTable(VAR_ARG_IN_TYPES, required, found);
    forall k | 0 <= k < |VAR_ARG_IN_TYPES| ensures StandsFor(VAR_ARG_IN_TYPES[k].0) == VAR_ARG_IN_TYPES[k].1 {
      VariadicCodes(k);
    }
    if !listed {
      ok := false;
    }
  }

  // ---- what is accepted, told from the tables ----

  /** A table gives the required code this found one. */
  ghost predicate Gives(table: seq<(string, string)>, found: char, required: string) {
    exists k :: 0 <= k < |table| && table[k].0 == required && found in table[k].1
  }

  /** A one-character argument fits a one-character code exactly if it is the same, or the
      code takes anything, or k stands where B is asked for, or a table says so. */
  lemma ScalarFitsExactly(f: char, q: char)
    requires f !in ":;[]" && q !in ":;[]"
    ensures Accepts([f], [q]) <==>
              || f == q || q in ".?*" || (f == 'k' && q == 'B')
              || Gives(POLY_IN_TYPES, f, [q]) || Gives(OPTIONAL_IN_TYPES, f, [q]) || Gives(VAR_ARG_IN_TYPES, f, [q])
  {
    hide StandsFor, Gives;
    StandsForExactly(f, [q]);
    assert Normalized([f]) == [f] && Normalized([q]) == [q];
  }

  lemma StandsForExactly(f: char, code: string)
    ensures f in StandsFor(code) <==>
            Gives(POLY_IN_TYPES, f, code) || Gives(OPTIONAL_IN_TYPES, f, code) || Gives(VAR_ARG_IN_TYPES, f, code)
  {
    hide StandsFor, Optional, Variadic;
    forall k | 0 <= k < |POLY_IN_TYPES| ensures StandsFor(POLY_IN_TYPES[k].0) == POLY_IN_TYPES[k].1 {
      PolyCodes(k);
    }
    forall k | 0 <= k < |OPTIONAL_IN_TYPES| ensures StandsFor(OPTIONAL_IN_TYPES[k].0) == OPTIONAL_IN_TYPES[k].1 {
      OptionalCodes(k);
    }
    forall k | 0 <= k < |VAR_ARG_IN_TYPES| ensures StandsFor(VAR_ARG_IN_TYPES[k].0) == VAR_ARG_IN_TYPES[k].1 {
      VariadicCodes(k);
    }
    if f in StandsFor(code) {
      Coded(code);
    }
  }

  lemma {:induction false} MarksSkipped(n: nat, rest: string)
    requires rest != "" && rest[0] != '['
    ensures SkipMarks(Opens(n) + rest) == rest
  {
    if n == 0 {
      assert Opens(0) + rest == rest;
    } else {
      var s := Opens(n) + rest;
      assert s[0] == '[';
      assert s[1..] == Opens(n - 1) + rest;
      MarksSkipped(n - 1, rest);
    }
  }

  /** An array fits an array, of whatever rank, exactly if the elements are of the same type,
      or of type i where k is asked for, or if the element type takes anything. */
  lemma ArrayFitsExactly(t: Type, u: Type)
    requires ValidBase(t.base) && ValidBase(u.base) && t.dims > 0 && u.dims > 0
    ensures Accepts(Internal(t), Internal(u)) <==>
              || t.base == u.base || (t.base == Primitive('i') && u.base == Primitive('k'))
              || (u.base.Primitive? && u.base.code in ".?*")
  {
    var f, r := BaseText(t.base) + "]", BaseText(u.base) + "]";
    assert Internal(t) == Opens(t.dims) + f && Internal(u) == Opens(u.dims) + r;
    MarksSkipped(t.dims, f);
    MarksSkipped(u.dims, r);
    SameBase(t.base, u.base);
    assert Normalized(Internal(t)) == Internal(t) && Normalized(Internal(u)) == Internal(u);
    if Internal(t) == Internal(u) {
      assert SkipMarks(Internal(t)) == SkipMarks(Internal(u));
    }
  }

  lemma SameBase(a: Base, b: Base)
    requires ValidBase(a) && ValidBase(b)
    ensures BaseText(a) + "]" == BaseText(b) + "]" <==> a == b
    ensures BaseText(a) + "]" == "k]" <==> a == Primitive('k')
    ensures BaseText(a) + "]" == "i]" <==> a == Primitive('i')
    ensures BaseText(a) + "]" != "" && (BaseText(a) + "]")[0] != '['
    ensures (BaseText(a) + "]")[0] in ".?*" <==> a.Primitive? && a.code in ".?*"
  {
    var x, y := BaseText(a) + "]", BaseText(b) + "]";
    assert x[..|x| - 1] == BaseText(a) && y[..|y| - 1] == BaseText(b);
    if a.Named? && b.Named? && x == y {
      assert BaseText(a)[1..|BaseText(a)| - 1] == a.name && BaseText(b)[1..|BaseText(b)| - 1] == b.name;
    }
    assert BaseText(a)[0] == if a.Named? then ':' else a.code;
    assert BaseText(b)[0] == if b.Named? then ':' else b.code;
  }

  /** An array fits a required type that is not one only if that takes anything. */
  lemma ArrayOrNot(t: Type, u: Type)
    requires ValidBase(t.base) && ValidBase(u.base) && (t.dims > 0) != (u.dims > 0)
    ensures Accepts(Internal(t), Internal(u)) <==> u.dims == 0 && u.base.Primitive? && u.base.code in ".?*"
  {
    FormStart(t);
    FormStart(u);
  }

  lemma FormStart(t: Type)
    requires ValidBase(t.base)
    ensures Internal(t) != "" && (Internal(t)[0] == '[' <==> t.dims > 0)
    ensures t.dims > 0 ==> Normalized(Internal(t)) == Internal(t)
    ensures t.dims == 0 ==> Normalized(Internal(t)) != "" && Normalized(Internal(t))[0] != '['
    ensures t.dims == 0 ==> (Internal(t)[0] in ".?*" <==> t.base.Primitive? && t.base.code in ".?*")
    ensures t.dims == 0 && Internal(t)[0] == 'B' <==> t == Type(Primitive('B'), 0)
  {
  }

  // ---- a list of arguments ----

  function FirstVariadic(required: seq<string>): (v: nat)
    ensures v <= |required| && (v < |required| ==> Variadic(required[v]))
    ensures forall k :: 0 <= k < v ==> !Variadic(required[k])
  {
    if required == [] || Variadic(required[0]) then 0 else 1 + FirstVariadic(required[1..])
  }

  /** The required argument that a found one is held against: its own, or the first
      variadic one from there on. */
  function Against(i: nat, v: nat): nat {
    if i < v then i else v
  }

  /** What fits.  The first variadic argument takes all that is left, and what is
      required after it is then not looked at; otherwise what was left out must be
      optional or variadic.  More arguments than required fit only when the last
      required one is variadic. */
  ghost predicate Fits(found: seq<string>, required: seq<string>) {
    var v := FirstVariadic(required);
    && |found| < VARGMAX
    && (|found| > |required| ==> required != [] && Variadic(required[|required| - 1]))
    && (forall i :: 0 <= i < |found| ==> Against(i, v) < |required| && Accepts(found[i], required[Against(i, v)]))
    && (|| v < |found|
        || (v == 0 && required != [])
        || forall j :: |found| <= j < |required| ==> Optional(required[j]) || Variadic(required[j]))
  }

  /** The characters as arguments. */
  function Singles(s: string): (args: seq<string>)
    ensures |args| == |s| && forall k :: 0 <= k < |s| ==> args[k] == [s[k]]
  {
    if s == "" then [] else Singles(s[..|s| - 1]) + [[s[|s| - 1]]]
  }

  ghost function ScalarAnswer(found: string, required: string): int {
    if |found| >= VARGMAX then -1 else if Fits(Singles(found), Singles(required)) then 1 else 0
  }

  /** The matcher for scalars: 1 when they fit, otherwise 0, or -1 for too many. */
  method CheckScalarInArgs(found: string, required: string) returns (r: int)
    ensures r == ScalarAnswer(found, required)
  {
    hide Accepts, Optional, Variadic;
    ghost var fs, rs := Singles(found), Singles(required);
    ghost var v := FirstVariadic(rs);
    if |found| >= VARGMAX {
      return -1;
    }
    if |found| > |required| {
      if required == "" || !Variadic([required[|required| - 1]]) {
        return 0;
      }
    }
    if |found| == 0 && required != "" {
      if Variadic([required[0]]) {
        return 1;
      }
    }
    var at, i := 0, 0;
    var varArg := false;
    while i < |found|
      invariant 0 <= i <= |found| && at == Against(i, v) <= |required|
      invariant varArg == (v < i)
      invariant forall j :: 0 <= j < i ==> Against(j, v) < |rs| && Accepts(fs[j], rs[Against(j, v)])
    {
      var requiredArg := [required[at]];
      var ok := CheckInArg([found[i]], requiredArg);
      if !ok {
        assert !Accepts(fs[i], rs[Against(i, v)]);
        return 0;
      }
      varArg := Variadic(requiredArg);
      if !varArg {
        at := at + 1;
      }
      i := i + 1;
    }
    if varArg {
      return 1;
    }
    assert at == |found|;
    while at < |required|
      invariant |found| <= at <= |required|
      invariant forall j :: |found| <= j < at ==> Optional(rs[j]) || Variadic(rs[j])
    {
      var requiredArg := [required[at]];
      if !Optional(requiredArg) && !Variadic(requiredArg) {
        assert !(Optional(rs[at]) || Variadic(rs[at]));
        return 0;
      }
      at := at + 1;
    }
    return 1;
  }

  /** The answer by way of the split descriptors. */
  ghost function SplitAnswer(found: string, required: string): int {
    if ArgTypes(found).None? || ArgTypes(required).None? then 0
    else
      var f, q := Internals(ArgTypes(found).value), Internals(ArgTypes(required).value);
      if |f| > INT32_MAX || |q| > INT32_MAX then 0
      else if q == [] then (if f == [] then 1 else 0)
      else if |f| >= VARGMAX then -1
      else if Fits(f, q) then 1
      else 0
  }

  /** The matcher over split descriptors; no list of found arguments is an empty one. */
  method CheckSplitInArgs(found: string, required: string) returns (r: int)
    ensures r == SplitAnswer(found, required)
  {
    hide ArgTypes, Fits, Variadic, Optional, Accepts, Parses;
    var foundCount, _ := ArgsRequired(found);
    var requiredCount, _ := ArgsRequired(required);
    if foundCount < 0 || requiredCount < 0 {
      return 0;
    }
    if requiredCount == 0 {
      return if foundCount == 0 then 1 else 0;
    }
    if foundCount >= VARGMAX {
      return -1;
    }
    var requiredArgs := SplitArgs(required);
    var foundArgs := SplitArgs(found);
    r := MatchLists(foundArgs.value, requiredArgs.value);
  }

  /** The loops of the matcher over split descriptors. */
  method MatchLists(found: seq<string>, required: seq<string>) returns (r: int)
    requires |found| < VARGMAX && required != []
    ensures r == if Fits(found, required) then 1 else 0
  {
    hide Accepts, Optional, Variadic;
    ghost var v := FirstVariadic(required);
    if |found| > |required| && !Variadic(required[|required| - 1]) {
      return 0;
    }
    var argTypeIndex := 0;
    var varArg: Option<string> := None;
    if |found| == 0 {
      if Variadic(required[0]) {
        varArg := Some(required[0]);
      }
    } else {
      var i := 0;
      while i < |found|
        invariant 0 <= i <= |found| && argTypeIndex <= |required|
        invariant if varArg.None? then argTypeIndex == i <= v
                  else v < i && v < |required| && varArg.value == required[v]
        invariant forall j :: 0 <= j < i ==> Against(j, v) < |required| && Accepts(found[j], required[Against(j, v)])
      {
        var argRequired: string;
        if varArg.Some? {
          argRequired := varArg.value;
        } else {
          argRequired := required[argTypeIndex];
          argTypeIndex := argTypeIndex + 1;
        }
        var ok := CheckInArg(found[i], argRequired);
        if !ok {
          assert !Accepts(found[i], required[Against(i, v)]);
          return 0;
        }
        if varArg.None? && Variadic(argRequired) {
          varArg := Some(argRequired);
        }
        i := i + 1;
      }
    }
    if varArg.None? {
      while argTypeIndex < |required|
        invariant |found| <= argTypeIndex <= |required|
        invariant forall j :: |found| <= j < argTypeIndex ==> Optional(required[j]) || Variadic(required[j])
      {
        var c := required[argTypeIndex];
        if !Optional(c) && !Variadic(c) {
          return 0;
        }
        argTypeIndex := argTypeIndex + 1;
      }
    }
    return 1;
  }

  // ---- what may be left out ----

  /** The codes that may be left out are those of the table of optional types and "?";
      those that take any number of arguments are those of the table of variadic types
      and "*".  The source keeps them twice, as strings and as tables. */
  lemma CodesAsListed(code: string)
    ensures Optional(code) <==> Listed(OPTIONAL_IN_TYPES, code) || code == "?"
    ensures Variadic(code) <==> Listed(VAR_ARG_IN_TYPES, code) || code == "*"
  {
    if Listed(OPTIONAL_IN_TYPES, code) {
      var k :| 0 <= k < |OPTIONAL_IN_TYPES| && OPTIONAL_IN_TYPES[k].0 == code;
      OptionalKey(k);
    }
    if Listed(VAR_ARG_IN_TYPES, code) {
      var k :| 0 <= k < |VAR_ARG_IN_TYPES| && VAR_ARG_IN_TYPES[k].0 == code;
      VariadicKey(k);
    }
    if Optional(code) && code != "?" {
      assert code == [code[0]] && code in ["o", "p", "q", "v", "j", "h", "O", "J", "V", "P"];
      OptionalListed(code);
    }
    if Variadic(code) && code != "*" {
      assert code == [code[0]] && code in ["m", "M", "N", "n", "W", "y", "z", "Z"];
      VariadicListed(code);
    }
  }

  lemma OptionalKey(k: nat)
    requires k < |OPTIONAL_IN_TYPES|
    ensures Optional(OPTIONAL_IN_TYPES[k].0)
  {
  }

  lemma VariadicKey(k: nat)
    requires k < |VAR_ARG_IN_TYPES|
    ensures Variadic(VAR_ARG_IN_TYPES[k].0)
  {
  }

  /** A required list without a variadic code fits exactly when no argument is too many,
      each one given is accepted by its own code, and all codes left over are optional ones
      or "?": an argument of a concrete type can never be left out. */
  lemma OmittedExactly(found: seq<string>, required: seq<string>)
    requires forall j :: 0 <= j < |required| ==> !Listed(VAR_ARG_IN_TYPES, required[j]) && required[j] != "*"
    ensures Fits(found, required) <==>
              && |found| < VARGMAX && |found| <= |required|
              && (forall i :: 0 <= i < |found| ==> Accepts(found[i], required[i]))
              && (forall j :: |found| <= j < |required| ==>
                    Listed(OPTIONAL_IN_TYPES, required[j]) || required[j] == "?")
  {
    hide Accepts, Optional, Variadic, Listed;
    forall j | 0 <= j < |required|
      ensures !Variadic(required[j])
      ensures Optional(required[j]) <==> Listed(OPTIONAL_IN_TYPES, required[j]) || required[j] == "?"
    {
      CodesAsListed(required[j]);
    }
    assert FirstVariadic(required) == |required|;
  }

  /** Where the first variadic code stands, all arguments from there on are held against it
      and nothing behind it is asked for, unless it is left out itself: then the codes behind
      it must be such as may be left out, except at the start of the list. */
  lemma VariadicExactly(found: seq<string>, required: seq<string>, v: nat)
    requires v < |required| && (Listed(VAR_ARG_IN_TYPES, required[v]) || required[v] == "*")
    requires forall j :: 0 <= j < v ==> !Listed(VAR_ARG_IN_TYPES, required[j]) && required[j] != "*"
    ensures Fits(found, required) <==>
              && |found| < VARGMAX
              && (|found| > |required| ==>
                    Listed(VAR_ARG_IN_TYPES, required[|required| - 1]) || required[|required| - 1] == "*")
              && (forall i :: 0 <= i < |found| ==> Accepts(found[i], required[if i < v then i else v]))
              && (0 < v && |found| <= v ==>
                    forall j :: |found| <= j < |required| ==>
                      || Listed(OPTIONAL_IN_TYPES, required[j]) || required[j] == "?"
                      || Listed(VAR_ARG_IN_TYPES, required[j]) || required[j] == "*")
  {
    hide Accepts, Optional, Variadic, Listed;
    forall j | 0 <= j < |required|
      ensures Variadic(required[j]) <==> Listed(VAR_ARG_IN_TYPES, required[j]) || required[j] == "*"
      ensures Optional(required[j]) <==> Listed(OPTIONAL_IN_TYPES, required[j]) || required[j] == "?"
    {
      CodesAsListed(required[j]);
    }
    assert FirstVariadic(required) == v;
  }

  // ---- the fast matcher answers like the general one ----

  /** Brackets, quotes and spaces. */
  const SPECIAL := "[]:; \t\n\r\U{0C}\U{0B}"

  /** None of the characters that need the general matcher. */
  predicate Scalars(s: string) {
    forall k :: 0 <= k < |s| ==> s[k] != '\0' && s[k] !in SPECIAL
  }

  /** Those are the characters that the parser does not take for a code. */
  lemma ScalarsArePlain(s: string)
    ensures Scalars(s) <==> forall k :: 0 <= k < |s| ==> Plain(s[k])
  {
    forall k | 0 <= k < |s|
      ensures Plain(s[k]) <==> s[k] != '\0' && s[k] !in SPECIAL
    {
      PlainExactly(s[k]);
    }
  }

  lemma PlainExactly(c: char)
    ensures Plain(c) <==> c != '\0' && c !in SPECIAL
  {
    var marks := SPECIAL;
    assert |marks| == 10 && marks[0] == '[' && marks[1] == ']' && marks[2] == ':' && marks[3] == ';';
    assert marks[4] == ' ' && marks[5] == '\t' && marks[6] == '\n' && marks[7] == '\r';
    assert marks[8] == '\U{0C}' && marks[9] == '\U{0B}';
    if Space(c) {
      assert c == ' ' || c as int - '\t' as int < 5;
    }
  }

  function ScalarTypes(s: string): (ts: seq<Type>)
    ensures |ts| == |s| && forall k :: 0 <= k < |s| ==> ts[k] == Type(Primitive(s[k]), 0)
  {
    if s == "" then [] else ScalarTypes(s[..|s| - 1]) + [Type(Primitive(s[|s| - 1]), 0)]
  }

  lemma {:induction false} ScalarText(s: string)
    ensures TextOf(Forms(ScalarTypes(s), false)) == s
  {
    if s != "" {
      var front, last := s[..|s| - 1], s[|s| - 1];
      ScalarText(front);
      var t := Type(Primitive(last), 0);
      assert ScalarTypes(s) == ScalarTypes(front) + [t];
      assert (ScalarTypes(front) + [t])[..|s| - 1] == ScalarTypes(front);
      TextSnoc(Forms(ScalarTypes(front), false), Descriptor(t, false));
      OneLetter(last);
    }
  }

  lemma OneLetter(c: char)
    ensures Text(Descriptor(Type(Primitive(c), 0), false)) == [c] == Internal(Type(Primitive(c), 0))
  {
    assert Pairs(0) == "";
  }

  /** Splitting plain characters takes them one by one. */
  lemma ScalarsSplit(s: string)
    requires Scalars(s)
    ensures ArgTypes(s).Some? && Internals(ArgTypes(s).value) == Singles(s)
  {
    hide ArgTypes, TextOf;
    ScalarsArePlain(s);
    ScalarText(s);
    ExternalsReadBack(ScalarTypes(s));
    assert Internals(ScalarTypes(s)) == Singles(s) by {
      forall k | 0 <= k < |s| ensures Internals(ScalarTypes(s))[k] == Singles(s)[k] {
        OneLetter(s[k]);
      }
    }
  }

  /** The fast matcher accepts just what the general one does; even the codes agree,
      except that for too many arguments against none at all it says -1 and not 0. */
  lemma FastAsGeneral(found: string, required: string)
    requires Scalars(found) && Scalars(required)
    ensures SplitAnswer(found, required) > 0 <==> ScalarAnswer(found, required) > 0 && |required| <= INT32_MAX
    ensures |found| <= INT32_MAX && |required| <= INT32_MAX ==>
              (SplitAnswer(found, required) == ScalarAnswer(found, required) <==>
                  !(required == "" && |found| >= VARGMAX))
  {
    hide ArgTypes, Accepts, Variadic, Optional, Scalars;
    ScalarsSplit(found);
    ScalarsSplit(required);
  }

  /** The decision on a call; a missing list counts as empty.  Which matcher is used
      does not show in what is accepted. */
  method CheckInArgs(inArgsFound: Option<string>, opInArgs: Option<string>) returns (r: int)
    ensures var found := if inArgsFound.None? then "" else inArgsFound.value;
            if opInArgs.None? then r == (if found == "" then 1 else 0)
            else |opInArgs.value| <= INT32_MAX ==> (r > 0 <==> SplitAnswer(found, opInArgs.value) > 0)
  {
    hide SplitAnswer, ScalarAnswer;
    var found := if inArgsFound.None? then "" else inArgsFound.value;
    if found == "" && (opInArgs.None? || opInArgs.value == "") {
      NoArguments();
      return 1;
    }
    if opInArgs.None? {
      return 0;
    }
    if Scalars(found) && Scalars(opInArgs.value) {
      FastAsGeneral(found, opInArgs.value);
      r := CheckScalarInArgs(found, opInArgs.value);
      return;
    }
    r := CheckSplitInArgs(found, opInArgs.value);
  }

  lemma NoArguments()
    ensures SplitAnswer("", "") == 1
  {
    hide ArgTypes;
    ScalarsSplit("");
  }
}
