/**
 The sets of global names that decide the edges of the task graph: a linked list
 with head, tail and count, and a vector that gives the elements by number.
 csp_set_remove is not part of this model.
 */
module ParSet {

  class Element {
    const data: string
    var next: Element?

    constructor (data: string)
      ensures this.data == data && next == null
    {
      this.data := data;
      next := null;
    }
  }

  ghost predicate NoRepeats(s: seq<string>) {
    forall i, j :: 0 <= i < j < |s| ==> s[i] != s[j]
  }

  /** A list with x added at the end unless it is already there. */
  function Added(s: seq<string>, x: string): seq<string> {
    if x in s then s else s + [x]
  }

  /** A list with all of t added in turn. */
  function AllAdded(s: seq<string>, t: seq<string>): seq<string>
    decreases |t|
  {
    if t == [] then s else Added(AllAdded(s, t[..|t| - 1]), t[|t| - 1])
  }

  /** The names of s that are also in t, in the order of s. */
  function Common(s: seq<string>, t: seq<string>): seq<string>
    decreases |s|
  {
    if s == [] then []
    else if s[|s| - 1] in t then Common(s[..|s| - 1], t) + [s[|s| - 1]]
    else Common(s[..|s| - 1], t)
  }

  function Names(s: seq<string>): set<string> {
    set x | x in s
  }

  lemma NamesOfAdded(s: seq<string>, x: string)
    ensures Names(s + [x]) == Names(s) + {x}
  {
    forall y ensures y in Names(s + [x]) <==> y in Names(s) + {x} {
      assert y in s + [x] <==> y in s || y == x;
    }
  }

  /** Union adds the names of both lists, once each. */
  lemma {:induction false} AllAddedIsUnion(s: seq<string>, t: seq<string>)
    requires NoRepeats(s)
    ensures NoRepeats(AllAdded(s, t)) && Names(AllAdded(s, t)) == Names(s) + Names(t)
  {
    if t != [] {
      var front, x := t[..|t| - 1], t[|t| - 1];
      AllAddedIsUnion(s, front);
      assert t == front + [x];
      NamesOfAdded(front, x);
      NamesOfAdded(AllAdded(s, front), x);
      assert x in AllAdded(s, front) <==> x in Names(AllAdded(s, front));
    }
  }

  /** Intersection keeps the names in both lists, once each. */
  lemma {:induction false} CommonIsIntersection(s: seq<string>, t: seq<string>)
    requires NoRepeats(s)
    ensures NoRepeats(Common(s, t)) && Names(Common(s, t)) == Names(s) * Names(t)
  {
    if s != [] {
      var front, x := s[..|s| - 1], s[|s| - 1];
      CommonIsIntersection(front, t);
      assert s == front + [x];
      NamesOfAdded(front, x);
      NamesOfAdded(Common(front, t), x);
      assert x !in Names(front);
      assert x in Common(front, t) <==> x in Names(Common(front, t));
    }
  }

  function Data(es: seq<Element>): (s: seq<string>)
    ensures |s| == |es|
  {
    seq(|es|, i requires 0 <= i < |es| => es[i].data)
  }

  /** The element at a position of a list, or the null that ends it. */
  function At(es: seq<Element>, i: nat): Element? {
    if i < |es| then es[i] else null
  }

  class ParSet {
    var head: Element?
    var tail: Element?
    var count: nat
    var cache: array?<Element>
    ghost var elements: seq<Element>

    ghost predicate Linked()
      reads this, elements
    {
      && count == |elements|
      && head == At(elements, 0)
      && tail == (if elements == [] then null else elements[|elements| - 1])
      && (forall i :: 0 <= i < |elements| ==> elements[i].next == At(elements, i + 1))
      && (forall i, j :: 0 <= i < j < |elements| ==> elements[i] != elements[j])
    }

    ghost predicate Valid()
      reads this, elements, cache
      ensures Valid() ==> Linked() && |Contents()| == count && NoRepeats(Contents())
    {
      && Linked() && NoRepeats(Contents())
      && (count > 0 ==> cache != null && cache[..] == elements)
    }

    /** The names in the order of the list. */
    ghost function Contents(): seq<string>
      reads this
    {
      Data(elements)
    }

    ghost function Footprint(): set<object>
      reads this
    {
      (set e: object | e in elements) + {this as object} + (if cache == null then {} else {cache as object})
    }

    constructor ()
      ensures Valid() && Contents() == [] && fresh(Footprint())
    {
      head, tail, count, cache := null, null, 0, null;
      elements := [];
    }

    /** Follows the list from the head. */
    method Exists(x: string) returns (found: bool)
      requires Linked()
      ensures found <==> x in Contents()
    {
      var ele := head;
      ghost var i := 0;
      found := false;
      while ele != null
        invariant 0 <= i <= |elements|
        invariant ele == At(elements, i)
        invariant x !in Contents()[..i]
        decreases |elements| - i
      {
        if ele.data == x {
          found := true;
          assert Contents()[i] == x;
          break;
        }
        ele := ele.next;
        i := i + 1;
      }
    }

    method UpdateCache()
      requires Linked()
      modifies this`cache
      ensures count > 0 ==> cache != null && fresh(cache) && cache[..] == elements
      ensures count == 0 ==> cache == null
    {
      cache := null;
      if count > 0 {
        var first := head;
        var vector := new Element[count](_ => first);
        var ele, ctr := head, 0;
        while ele != null
          invariant 0 <= ctr <= |elements| == vector.Length
          invariant ele == At(elements, ctr)
          invariant vector[..ctr] == elements[..ctr]
          decreases |elements| - ctr
        {
          vector[ctr] := ele;
          ctr := ctr + 1;
          ele := ele.next;
        }
        cache := vector;
      }
    }

    method Add(x: string)
      requires Valid()
      modifies Footprint()
      ensures Valid() && Contents() == Added(old(Contents()), x)
      ensures forall o <- Footprint() :: o in old(Footprint()) || fresh(o)
    {
      var found := Exists(x);
      if found {
        return;
      }
      Append(x);
      UpdateCache();
    }

    method Append(x: string)
      requires Linked()
      modifies this, tail
      ensures Linked() && Contents() == old(Contents()) + [x] && cache == old(cache)
      ensures forall e <- elements :: e in old(elements) || fresh(e)
    {
      var ele := new Element(x);
      if head == null {
        head, tail := ele, ele;
      } else {
        tail.next := ele;
        tail := ele;
      }
      elements := elements + [ele];
      count := count + 1;
    }

    method GetNum(num: nat) returns (data: string)
      requires Valid() && num < count
      ensures data == Contents()[num]
    {
      assert cache[..][num] == elements[num];
      data := cache[num].data;
    }
  }

  method Union(first: ParSet, second: ParSet) returns (result: ParSet)
    requires first.Valid() && second.Valid()
    ensures result.Valid() && fresh(result.Footprint())
    ensures result.Contents() == AllAdded(first.Contents(), second.Contents())
  {
    hide ParSet.Valid, ParSet.Linked, ParSet.Footprint, ParSet.Contents;
    result := new ParSet();
    var ctr := 0;
    while ctr < first.count
      invariant 0 <= ctr <= first.count && first.Valid() && second.Valid()
      invariant result.Valid() && fresh(result.Footprint())
      invariant result.Contents() == first.Contents()[..ctr]
    {
      var data := first.GetNum(ctr);
      assert data !in first.Contents()[..ctr];
      result.Add(data);
      ctr := ctr + 1;
    }
    ctr := 0;
    assert result.Contents() == first.Contents();
    while ctr < second.count
      invariant 0 <= ctr <= second.count && second.Valid()
      invariant result.Valid() && fresh(result.Footprint())
      invariant first.Contents() == old(first.Contents()) && second.Contents() == old(second.Contents())
      invariant result.Contents() == AllAdded(first.Contents(), second.Contents()[..ctr])
    {
      var data := second.GetNum(ctr);
      result.Add(data);
      ctr := ctr + 1;
      assert second.Contents()[..ctr][..ctr - 1] == second.Contents()[..ctr - 1];
    }
    assert second.Contents()[..ctr] == second.Contents();
  }

  method Intersection(first: ParSet, second: ParSet) returns (result: ParSet)
    requires first.Valid() && second.Valid()
    ensures result.Valid() && fresh(result.Footprint())
    ensures result.Contents() == Common(first.Contents(), second.Contents())
  {
    hide ParSet.Valid, ParSet.Linked, ParSet.Footprint, ParSet.Contents;
    result := new ParSet();
    var ctr := 0;
    while ctr < first.count
      invariant 0 <= ctr <= first.count && first.Valid() && second.Valid()
      invariant result.Valid() && fresh(result.Footprint())
      invariant first.Contents() == old(first.Contents()) && second.Contents() == old(second.Contents())
      invariant result.Contents() == Common(first.Contents()[..ctr], second.Contents())
    {
      var data := first.GetNum(ctr);
      var found := second.Exists(data);
      if found {
        NotYetCommon(first.Contents(), second.Contents(), ctr);
        result.Add(data);
      }
      ctr := ctr + 1;
      assert first.Contents()[..ctr][..ctr - 1] == first.Contents()[..ctr - 1];
    }
    assert first.Contents()[..ctr] == first.Contents();
  }

  lemma NotYetCommon(s: seq<string>, t: seq<string>, i: nat)
    requires i < |s| && NoRepeats(s)
    ensures s[i] !in Common(s[..i], t)
  {
    CommonIsIntersection(s[..i], t);
    assert s[i] !in Names(s[..i]);
    assert s[i] in Common(s[..i], t) <==> s[i] in Names(Common(s[..i], t));
  }

  /** The test of dag_build: it counts the common names and then their elements,
      and is nonzero exactly when the two sets meet. */
  method DagIntersect(current: ParSet, later: ParSet) returns (res: nat)
    requires current.Valid() && later.Valid()
    ensures res == 2 * |Names(current.Contents()) * Names(later.Contents())|
    ensures res != 0 <==> Names(current.Contents()) * Names(later.Contents()) != {}
  {
    var ans := Intersection(current, later);
    CommonIsIntersection(current.Contents(), later.Contents());
    SizeOfNames(ans.Contents());
    ghost var both := Names(current.Contents()) * Names(later.Contents());
    assert both == {} <==> |both| == 0;
    res := ans.count;
    var ele := ans.head;
    ghost var i := 0;
    while ele != null
      invariant 0 <= i <= |ans.elements| && res == ans.count + i && ans.Valid()
      invariant ele == At(ans.elements, i)
      decreases |ans.elements| - i
    {
      ele := ele.next;
      res := res + 1;
      i := i + 1;
    }
  }

  lemma {:induction false} SizeOfNames(s: seq<string>)
    requires NoRepeats(s)
    ensures |Names(s)| == |s|
  {
    if s != [] {
      var front, last := s[..|s| - 1], s[|s| - 1];
      SizeOfNames(front);
      assert s == front + [last];
      assert Names(s) == Names(front) + {last};
    }
  }
}
