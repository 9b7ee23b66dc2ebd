/**
 The chained hash table of names.  It behaves as a finite map through all its
 resizes; putting the items back during a resize never starts another one.
 A bucket is the list of its items from the head on.
 */
module HashTable {
  import opened Basics
  import Counting

  datatype Item<V> = Item(key: string, value: V)

  /** Shift by four and exclusive or, in 32 bits, over the characters. */
  function NameHash(key: string, h: bv32): bv32 {
    if key == [] then h else NameHash(key[1..], (h << 4) ^ CharBits(key[0]))
  }

  /** A character as the low bits of a word. */
  function CharBits(c: char): bv32 {
    (c as int % 0x1_0000_0000) as bv32
  }

  function Index(key: string, size: nat): (i: nat)
    requires size > 0
    ensures i < size
  {
    (NameHash(key, 0) as int) % size
  }

  ghost predicate ChainsOk<V>(buckets: seq<seq<Item<V>>>, contents: map<string, V>) {
    && 0 < |buckets|
    && (forall i, j :: 0 <= i < |buckets| && 0 <= j < |buckets[i]| ==>
          && Index(buckets[i][j].key, |buckets|) == i
          && buckets[i][j].key in contents && contents[buckets[i][j].key] == buckets[i][j].value)
    && (forall i, j, k :: 0 <= i < |buckets| && 0 <= j < k < |buckets[i]| ==> buckets[i][j].key != buckets[i][k].key)
    && (forall key :: key in contents ==> InChain(buckets[Index(key, |buckets|)], key))
  }

  ghost predicate InChain<V>(chain: seq<Item<V>>, key: string) {
    exists j :: 0 <= j < |chain| && chain[j].key == key
  }

  /** The first items of the old table, bucket by bucket, have been put back. */
  ghost predicate PutBack<V>(before: seq<seq<Item<V>>>, i: nat, j: nat, now: map<string, V>) {
    forall a, b :: 0 <= a < |before| && 0 <= b < |before[a]| && (a < i || (a == i && b < j)) ==> before[a][b].key in now
  }

  /** A new value for a key that is there. */
  lemma Replaced<V>(buckets: seq<seq<Item<V>>>, contents: map<string, V>, i: nat, j: nat, value: V)
    requires ChainsOk(buckets, contents) && i < |buckets| && j < |buckets[i]|
    ensures var key := buckets[i][j].key;
            && ChainsOk(buckets[i := buckets[i][j := Item(key, value)]], contents[key := value])
            && |contents[key := value]| == |contents|
  {
    hide Index;
    var key := buckets[i][j].key;
    var b, c := buckets[i := buckets[i][j := Item(key, value)]], contents[key := value];
    assert c.Keys == contents.Keys;
    SameSize(c, contents);
    forall k | k in c ensures InChain(b[Index(k, |b|)], k) {
      var x :| 0 <= x < |buckets[Index(k, |b|)]| && buckets[Index(k, |b|)][x].key == k;
      assert b[Index(k, |b|)][x].key == k;
    }
  }

  lemma SameSize<V>(a: map<string, V>, b: map<string, V>)
    requires a.Keys == b.Keys
    ensures |a| == |b|
  {
    assert |a| == |a.Keys| && |b| == |b.Keys|;
  }

  /** A new item at the end of its chain. */
  lemma Added<V>(buckets: seq<seq<Item<V>>>, contents: map<string, V>, key: string, value: V)
    requires ChainsOk(buckets, contents) && key !in contents
    ensures var i := Index(key, |buckets|);
            && ChainsOk(buckets[i := buckets[i] + [Item(key, value)]], contents[key := value])
            && |contents[key := value]| == |contents| + 1
  {
    hide Index;
    var i := Index(key, |buckets|);
    var b, c := buckets[i := buckets[i] + [Item(key, value)]], contents[key := value];
    forall k | k in c ensures InChain(b[Index(k, |b|)], k) {
      if k == key {
        assert b[i][|buckets[i]|].key == key;
      } else {
        var x :| 0 <= x < |buckets[Index(k, |b|)]| && buckets[Index(k, |b|)][x].key == k;
        assert b[Index(k, |b|)][x].key == k;
      }
    }
  }

  ghost predicate SubMap<V>(m: map<string, V>, all: map<string, V>) {
    m.Keys <= all.Keys && forall k :: k in m ==> m[k] == all[k]
  }

  lemma SmallerMap<V>(m: map<string, V>, all: map<string, V>)
    requires SubMap(m, all)
    ensures |m| <= |all|
  {
    Counting.SmallerSet(m.Keys, all.Keys);
    assert |m| == |m.Keys| && |all| == |all.Keys|;
  }

  function Without<V>(chain: seq<Item<V>>, j: nat): (r: seq<Item<V>>)
    requires j < |chain|
    ensures |r| == |chain| - 1 && forall x :: 0 <= x < |r| ==> r[x] == if x < j then chain[x] else chain[x + 1]
  {
    chain[..j] + chain[j + 1..]
  }

  /** An item taken out of its chain. */
  lemma Removed<V>(buckets: seq<seq<Item<V>>>, contents: map<string, V>, i: nat, j: nat)
    requires ChainsOk(buckets, contents) && i < |buckets| && j < |buckets[i]|
    ensures var key := buckets[i][j].key;
            && ChainsOk(buckets[i := Without(buckets[i], j)], contents - {key})
            && |contents - {key}| == |contents| - 1
  {
    hide Index, InChain;
    var key, chain := buckets[i][j].key, buckets[i];
    var b: seq<seq<Item<V>>> := buckets[i := Without(chain, j)];
    var c := contents - {key};
    OneLess(contents, key);
    assert Index(key, |b|) == i;
    forall a, x | 0 <= a < |b| && 0 <= x < |b[a]|
      ensures Index(b[a][x].key, |b|) == a && b[a][x].key in c && c[b[a][x].key] == b[a][x].value
    {
      var y := if a == i && x >= j then x + 1 else x;
      assert b[a][x] == buckets[a][y];
    }
    forall a, x, y | 0 <= a < |b| && 0 <= x < y < |b[a]| ensures b[a][x].key != b[a][y].key {
      if a == i {
        assert chain[if x < j then x else x + 1].key != chain[if y < j then y else y + 1].key;
      }
    }
    forall k | k in c ensures InChain(b[Index(k, |b|)], k) {
      assert InChain(buckets[Index(k, |b|)], k);
      if Index(k, |b|) == i {
        OthersStay(chain, j, k);
      }
    }
  }

  lemma OthersStay<V>(chain: seq<Item<V>>, j: nat, k: string)
    requires j < |chain| && InChain(chain, k) && chain[j].key != k
    ensures InChain(Without(chain, j), k)
  {
    var x :| 0 <= x < |chain| && chain[x].key == k;
    assert Without(chain, j)[if x < j then x else x - 1].key == k;
  }

  lemma OneLess<V>(m: map<string, V>, key: string)
    requires key in m
    ensures |m - {key}| == |m| - 1
  {
    assert (m - {key}).Keys == m.Keys - {key};
    assert |m - {key}| == |(m - {key}).Keys| && |m| == |m.Keys|;
  }

  lemma NotThere<V>(chains: seq<seq<Item<V>>>, all: map<string, V>, key: string)
    requires ChainsOk(chains, all)
    requires forall k :: 0 <= k < |chains[Index(key, |chains|)]| ==> chains[Index(key, |chains|)][k].key != key
    ensures key !in all
  {}

  lemma EmptyOk<V>(chains: seq<seq<Item<V>>>)
    requires 0 < |chains| && forall i :: 0 <= i < |chains| ==> chains[i] == []
    ensures ChainsOk(chains, map[])
  {}

  lemma ItemKnown<V>(chains: seq<seq<Item<V>>>, all: map<string, V>, i: nat, j: nat)
    requires ChainsOk(chains, all) && i < |chains| && j < |chains[i]|
    ensures chains[i][j].key in all && all[chains[i][j].key] == chains[i][j].value
  {}

  /** With all buckets put back the map is the old one. */
  lemma AllBack<V>(chains: seq<seq<Item<V>>>, all: map<string, V>, now: map<string, V>)
    requires ChainsOk(chains, all) && SubMap(now, all) && PutBack(chains, |chains|, 0, now)
    ensures now == all
  {
    forall k | k in all ensures k in now {
      assert InChain(chains[Index(k, |chains|)], k);
    }
  }

  /** One map with the items of another in place of its own. */
  function Over<V>(mine: map<string, V>, part: map<string, V>): map<string, V> {
    mine + part
  }

  /** One more item of the other table has come over. */
  lemma MovedOne<V>(
    chains: seq<seq<Item<V>>>, all: map<string, V>, i: nat, j: nat, mine: map<string, V>, part: map<string, V>)
    requires ChainsOk(chains, all) && i < |chains| && j < |chains[i]| && SubMap(part, all) &&
             PutBack(chains, i, j, part)
    ensures var item := chains[i][j];
            && Over(mine, part)[item.key := item.value] == Over(mine, part[item.key := item.value])
            && SubMap(part[item.key := item.value], all) && PutBack(chains, i, j + 1, part[item.key := item.value])
  {
    hide ChainsOk;
    ItemKnown(chains, all, i, j);
  }

  lemma ChainDone<V>(chains: seq<seq<Item<V>>>, i: nat, part: map<string, V>)
    requires i < |chains| && PutBack(chains, i, |chains[i]|, part)
    ensures PutBack(chains, i + 1, 0, part)
  {}

  class Table<V(0)> {
    var count: nat
    var size: nat
    var buckets: array<seq<Item<V>>>
    ghost var contents: map<string, V>

    ghost predicate Shaped()
      reads this, buckets
    {
      buckets.Length == size && size >= 64 && ChainsOk(buckets[..], contents) && count == |contents|
    }

    /** The load stays within three quarters. */
    ghost predicate Valid()
      reads this, buckets
    {
      Shaped() && 4 * count <= 3 * size
    }

    /** One more item would be over the load factor of 0.75. */
    predicate Full()
      reads this
    {
      4 * (count + 1) > 3 * size
    }

    constructor ()
      ensures Valid() && contents == map[] && count == 0 && fresh(buckets)
    {
      count, size := 0, 64;
      buckets := new seq<Item<V>>[64](_ => []);
      contents := map[];
    }

    /** Finds the key in its chain. */
    method Find(key: string) returns (index: nat, j: nat)
      requires Shaped()
      ensures index == Index(key, size) && index < buckets.Length && j <= |buckets[index]|
      ensures key in contents <==> j < |buckets[index]|
      ensures j < |buckets[index]| ==> buckets[index][j].key == key
    {
      hide ChainsOk, Index, InChain;
      index := Index(key, size);
      j := 0;
      while j < |buckets[index]|
        invariant 0 <= j <= |buckets[index]|
        invariant forall k :: 0 <= k < j ==> buckets[index][k].key != key
      {
        if buckets[index][j].key == key {
          ItemKnown(buckets[..], contents, index, j);
          return;
        }
        j := j + 1;
      }
      NotThere(buckets[..], contents, key);
    }

    method Get(key: Option<string>) returns (value: Option<V>)
      requires Valid()
      ensures value == if key.Some? && key.value in contents then Some(contents[key.value]) else None
    {
      if key.None? {
        return None;
      }
      var index, j := Find(key.value);
      if j < |buckets[index]| {
        return Some(buckets[index][j].value);
      }
      return None;
    }

    /** Replaces the value of a known key; otherwise makes room if needed and adds
        the item at the end of its chain.  Says whether the given key was kept. */
    method PutNoKeyCopy(key: string, value: V) returns (kept: bool)
      requires Valid()
      modifies this, buckets
      ensures Valid() && contents == old(contents)[key := value] && kept == (key !in old(contents))
      ensures buckets == old(buckets) || fresh(buckets)
      ensures !old(Full()) ==> buckets == old(buckets) && size == old(size)
      decreases Full(), 1
    {
      hide ChainsOk, Index, InChain;
      var index, j := Find(key);
      if j < |buckets[index]| {
        ghost var was := buckets[..];
        buckets[index] := buckets[index][j := Item(key, value)];
        Replaced(was, contents, index, j, value);
        contents := contents[key := value];
        return false;
      }
      var modified := CheckResize();
      if modified {
        index := Index(key, size);
      }
      ghost var was := buckets[..];
      count := count + 1;
      buckets[index] := buckets[index] + [Item(key, value)];
      Added(was, contents, key, value);
      contents := contents[key := value];
      return true;
    }

    /** Doubles the table and puts every item back; the items are never too many
        for the new table. */
    method CheckResize() returns (modified: bool)
      requires Valid()
      modifies this, buckets
      ensures Valid() && contents == old(contents) && count == old(count) && !Full()
      ensures modified == old(Full())
      ensures modified ==> size == 2 * old(size) && fresh(buckets)
      ensures !modified ==> buckets == old(buckets) && size == old(size) && buckets[..] == old(buckets[..])
      decreases Full(), 0
    {
      hide ChainsOk;
      if 4 * (count + 1) > 3 * size {
        var oldTable, oldSize := buckets, size;
        ghost var all, chains := contents, buckets[..];
        buckets := new seq<Item<V>>[2 * oldSize](_ => []);
        size := 2 * oldSize;
        count := 0;
        contents := map[];
        EmptyOk(buckets[..]);
        var i := 0;
        while i < oldSize
          invariant 0 <= i <= oldSize && Valid() && size == 2 * oldSize && fresh(buckets) && buckets != oldTable
          invariant oldTable[..] == chains && SubMap(contents, all)
          invariant PutBack(chains, i, 0, contents)
        {
          SmallerMap(contents, all);
          PutBackChain(oldTable[i], chains, all, i);
          i := i + 1;
        }
        AllBack(chains, all, contents);
        SmallerMap(contents, all);
        return true;
      }
      return false;
    }

    /** Puts the items of one old chain back into a table with room for all. */
    method PutBackChain(chain: seq<Item<V>>, ghost chains: seq<seq<Item<V>>>, ghost all: map<string, V>, ghost i: nat)
      requires Valid() && ChainsOk(chains, all) && i < |chains| && chains[i] == chain
      requires SubMap(contents, all) && PutBack(chains, i, 0, contents) && 4 * (|all| + 1) <= 3 * size
      modifies this, buckets
      ensures Valid() && buckets == old(buckets) && size == old(size)
      ensures SubMap(contents, all) && PutBack(chains, i + 1, 0, contents)
      decreases Full(), 2
    {
      hide ChainsOk, PutBack, SubMap, Index, InChain;
      SmallerMap(contents, all);
      var j := 0;
      while j < |chain|
        invariant 0 <= j <= |chain| && Valid() && buckets == old(buckets) && size == old(size)
        invariant SubMap(contents, all) && PutBack(chains, i, j, contents)
      {
        var item := chain[j];
        SmallerMap(contents, all);
        MovedOne(chains, all, i, j, map[], contents);
        var _ := PutNoKeyCopy(item.key, item.value);
        j := j + 1;
      }
      ChainDone(chains, i, contents);
    }

    method Put(key: Option<string>, value: V)
      requires Valid()
      modifies this, buckets
      ensures Valid() && contents == (if key.Some? then old(contents)[key.value := value] else old(contents))
      ensures buckets == old(buckets) || fresh(buckets)
    {
      if key.Some? {
        var _ := PutNoKeyCopy(key.value, value);
      }
    }

    /** Takes the item of a key out of its chain. */
    method Remove(key: Option<string>)
      requires Valid()
      modifies this, buckets
      ensures Valid() && buckets == old(buckets)
      ensures contents == (if key.Some? then old(contents) - {key.value} else old(contents))
    {
      hide ChainsOk, Index, InChain;
      if key.None? {
        return;
      }
      var index, j := Find(key.value);
      if j < |buckets[index]| {
        ghost var was := buckets[..];
        Removed(was, contents, index, j);
        buckets[index] := Without(buckets[index], j);
        count := count - 1;
        assert buckets[..] == was[index := Without(was[index], j)];
      } else {
        assert contents - {key.value} == contents;
      }
      contents := contents - {key.value};
    }

    /** Moves everything over from another table, whose items win. */
    method Merge(source: Table<V>)
      requires Valid() && source.Valid() && source != this && source.buckets != buckets
      modifies this, buckets, source.buckets
      ensures Valid() && contents == Over(old(contents), old(source.contents))
    {
      hide ChainsOk, Index, InChain;
      ghost var mine, chains, all := contents, source.buckets[..], source.contents;
      ghost var part: map<string, V> := map[];
      var theirs := source.buckets;
      var i := 0;
      assert mine + part == mine;
      while i < source.size
        invariant 0 <= i <= |chains| == theirs.Length == source.size && Valid() && buckets != theirs
        invariant buckets == old(buckets) || fresh(buckets)
        invariant forall k :: i <= k < |chains| ==> theirs[k] == chains[k]
        invariant contents == Over(mine, part) && SubMap(part, all) && PutBack(chains, i, 0, part)
        modifies this, buckets, theirs
      {
        part := MergeChain(theirs[i], chains, all, i, mine, part);
        theirs[i] := [];
        i := i + 1;
      }
      AllBack(chains, all, part);
    }

    /** Puts one chain of the other table into this one. */
    method MergeChain(
      chain: seq<Item<V>>, ghost chains: seq<seq<Item<V>>>, ghost all: map<string, V>, ghost i: nat,
      ghost mine: map<string, V>, ghost before: map<string, V>) returns (ghost part: map<string, V>)
      requires Valid() && ChainsOk(chains, all) && i < |chains| && chains[i] == chain
      requires contents == Over(mine, before) && SubMap(before, all) && PutBack(chains, i, 0, before)
      modifies this, buckets
      ensures Valid() && (buckets == old(buckets) || fresh(buckets))
      ensures contents == Over(mine, part) && SubMap(part, all) && PutBack(chains, i + 1, 0, part)
    {
      hide ChainsOk, Index, InChain, PutBack, SubMap, Over;
      part := before;
      var j := 0;
      while j < |chain|
        invariant 0 <= j <= |chain| && Valid() && (buckets == old(buckets) || fresh(buckets))
        invariant contents == Over(mine, part) && SubMap(part, all) && PutBack(chains, i, j, part)
      {
        var item := chain[j];
        MovedOne(chains, all, i, j, mine, part);
        var _ := PutNoKeyCopy(item.key, item.value);
        part := part[item.key := item.value];
        j := j + 1;
      }
      ChainDone(chains, i, part);
    }
  }
}
