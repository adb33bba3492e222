/** A size-bounded cache directory: a recency list and a map over the same entries. */
module Lru {
  import opened Prelude

  datatype Entry = Entry(key: string, size: nat, expires: int)

  /** Entries from most to least recently used. */
  type Recency = seq<Entry>

  ghost predicate Distinct(s: Recency) {
    forall i, j | 0 <= i < j < |s| :: s[i].key != s[j].key
  }

  function Find(s: Recency, key: string): Option<Entry> {
    if s == [] then None else if s[0].key == key then Some(s[0]) else Find(s[1..], key)
  }

  function Without(s: Recency, key: string): Recency {
    if s == [] then [] else (if s[0].key == key then [] else [s[0]]) + Without(s[1..], key)
  }

  function Total(s: Recency): nat {
    if s == [] then 0 else s[0].size + Total(s[1..])
  }

  /** Looks an entry up: one that is still good comes to the front, one that has expired goes. */
  function Touch(s: Recency, key: string, now: int): Recency {
    match Find(s, key)
    case None => s
    case Some(e) => if now < e.expires then [e] + Without(s, key) else Without(s, key)
  }

  function Hit(s: Recency, key: string, now: int): Option<Entry> {
    match Find(s, key)
    case None => None
    case Some(e) => if now < e.expires then Some(e) else None
  }

  function PutFront(s: Recency, e: Entry): Recency {
    [e] + Without(s, e.key)
  }

  /** Drops least recent entries until `space` is freed or none is left. */
  function EvictFor(s: Recency, space: int): (r: Recency)
    ensures |r| <= |s|
  {
    if space <= 0 || s == [] then s else EvictFor(s[..|s| - 1], space - s[|s| - 1].size)
  }

  function KeysBackward(s: Recency): seq<string> {
    if s == [] then [] else [s[|s| - 1].key] + KeysBackward(s[..|s| - 1])
  }

  // Laws of the recency list

  lemma {:induction false} FindMember(s: Recency, key: string)
    ensures Find(s, key).Some? ==> Find(s, key).value in s && Find(s, key).value.key == key
    ensures Find(s, key).None? ==> forall e <- s :: e.key != key
  {
    if s != [] {
      FindMember(s[1..], key);
    }
  }

  lemma {:induction false} WithoutMembers(s: Recency, key: string)
    ensures forall e :: e in Without(s, key) <==> e in s && e.key != key
  {
    if s != [] {
      WithoutMembers(s[1..], key);
      assert s == [s[0]] + s[1..];
    }
  }

  lemma {:induction false} WithoutDistinct(s: Recency, key: string)
    requires Distinct(s)
    ensures Distinct(Without(s, key)) && |Without(s, key)| <= |s|
  {
    if s != [] {
      WithoutDistinct(s[1..], key);
      WithoutMembers(s[1..], key);
      assert forall e <- s[1..] :: e.key != s[0].key;
    }
  }

  lemma {:induction false} WithoutTotal(s: Recency, key: string)
    requires Distinct(s)
    ensures Total(Without(s, key)) + (if Find(s, key).Some? then Find(s, key).value.size else 0) == Total(s)
    ensures |Without(s, key)| + (if Find(s, key).Some? then 1 else 0) == |s|
  {
    if s != [] {
      WithoutTotal(s[1..], key);
      FindMember(s[1..], key);
      var rest := Without(s[1..], key);
      assert ([s[0]] + rest)[1..] == rest;
      assert [] + rest == rest;
      assert forall e <- s[1..] :: e.key != s[0].key;
    }
  }

  lemma {:induction false} TotalConcat(a: Recency, b: Recency)
    ensures Total(a + b) == Total(a) + Total(b)
  {
    if a == [] {
      assert a + b == b;
    } else {
      assert (a + b)[1..] == a[1..] + b;
      TotalConcat(a[1..], b);
    }
  }

  /**
   * Eviction removes precisely the shortest least-recent suffix that totals at least the space asked for,
   * or everything if the whole list totals less.
   */
  lemma {:induction false} EvictsShortestSuffix(s: Recency, space: int)
    ensures var k := |EvictFor(s, space)|;
            && EvictFor(s, space) == s[..k]
            && (k == 0 || Total(s[k..]) >= space)
            && (k < |s| ==> Total(s[k + 1..]) < space)
    decreases |s|
  {
    hide Total;
    if space <= 0 || s == [] {
      assert s[..|s|] == s;
      NoTotal();
    } else {
      var front, last := s[..|s| - 1], s[|s| - 1];
      EvictsShortestSuffix(front, space - last.size);
      var k := |EvictFor(s, space)|;
      assert EvictFor(s, space) == EvictFor(front, space - last.size);
      assert k <= |front|;
      hide EvictFor;
      OneTotal(last);
      NoTotal();
      assert s[..k] == front[..k];
      assert s[k..] == front[k..] + [last];
      TotalConcat(front[k..], [last]);
      if k + 1 <= |front| {
        assert s[k + 1..] == front[k + 1..] + [last];
        TotalConcat(front[k + 1..], [last]);
      } else {
        assert s[k + 1..] == [];
      }
    }
  }

  lemma OneTotal(e: Entry)
    ensures Total([e]) == e.size
  {
    assert [e][1..] == [];
  }

  lemma NoTotal()
    ensures Total([]) == 0
  {
  }

  lemma FrontTotal(e: Entry, s: Recency)
    ensures Total([e] + s) == e.size + Total(s)
  {
    assert ([e] + s)[1..] == s;
  }

  lemma {:induction false} WithoutAt(a: Recency, e: Entry, b: Recency)
    requires Distinct(a + [e] + b)
    ensures Without(a + [e] + b, e.key) == a + b && Find(a + [e] + b, e.key) == Some(e)
  {
    var s := a + [e] + b;
    if a == [] {
      assert s == [e] + b && s[1..] == b && forall x <- b :: x.key != e.key by {
        assert forall i | 0 <= i < |b| :: s[i + 1] == b[i];
      }
      FindMember(b, e.key);
      NothingWithout(b, e.key);
    } else {
      assert s[1..] == a[1..] + [e] + b && s[0] == a[0] && s[|a|] == e;
      WithoutAt(a[1..], e, b);
    }
  }

  /**
   * What the operations do to an entry between `a` and `b`: a lookup before it expires brings it to the front, a later
   * one drops it, and storing under its key replaces it in front. The others keep their order.
   */
  lemma AtOnePlace(a: Recency, e: Entry, b: Recency, now: int, newer: Entry)
    requires Distinct(a + [e] + b) && newer.key == e.key
    ensures now < e.expires ==> Touch(a + [e] + b, e.key, now) == [e] + a + b && Hit(a + [e] + b, e.key, now) == Some(e)
    ensures now >= e.expires ==> Touch(a + [e] + b, e.key, now) == a + b && Hit(a + [e] + b, e.key, now) == None
    ensures PutFront(a + [e] + b, newer) == [newer] + a + b
  {
    WithoutAt(a, e, b);
    hide Without, Find;
    assert [e] + (a + b) == [e] + a + b && [newer] + (a + b) == [newer] + a + b;
  }

  /** Looking up a key that is not there changes nothing; storing one puts it in front. */
  lemma AtNoPlace(s: Recency, key: string, now: int, newer: Entry)
    requires newer.key == key && forall e <- s :: e.key != key
    ensures Touch(s, key, now) == s && Hit(s, key, now) == None && PutFront(s, newer) == [newer] + s
  {
    FindMember(s, key);
    NothingWithout(s, key);
  }

  // The cache object

  class LruCache {
    const capacity: int
    var usedSize: int
    var items: map<string, Entry>
    var order: Recency

    /** Map and list hold the same keys, once each, and the size is exact. */
    ghost predicate Valid()
      reads this
    {
      && Distinct(order)
      && (forall e <- order :: e.key in items && items[e.key] == e)
      && (forall k <- items :: items[k].key == k && items[k] in order)
      && usedSize == Total(order)
    }

    constructor (capacity: int)
      ensures Valid() && order == [] && this.capacity == capacity
    {
      this.capacity, usedSize, items, order := capacity, 0, map[], [];
    }

    lemma FoundInMap(key: string)
      requires Valid()
      ensures Find(order, key) == if key in items then Some(items[key]) else None
    {
      FindMember(order, key);
    }

    /** Unlinks the entry of a key from list and map and gives its size back. */
    method Unlink(key: string)
      requires Valid() && key in items
      modifies this
      ensures Valid() && order == Without(old(order), key) && items == old(items) - {key}
    {
      hide Find, Without, Total;
      FoundInMap(key);
      WithoutMembers(order, key);
      WithoutDistinct(order, key);
      WithoutTotal(order, key);
      usedSize := usedSize - items[key].size;
      order := Without(order, key);
      items := items - {key};
    }

    /** Links a new entry in front. */
    method Link(e: Entry)
      requires Valid() && e.key !in items
      modifies this
      ensures Valid() && order == [e] + old(order) && items == old(items)[e.key := e]
    {
      hide Total;
      FrontTotal(e, order);
      assert forall x <- order :: x.key != e.key;
      assert Distinct([e] + order);
      order := [e] + order;
      items := items[e.key := e];
      usedSize := usedSize + e.size;
    }

    method Get(key: string, now: int) returns (entry: Option<Entry>)
      requires Valid()
      modifies this
      ensures Valid() && order == Touch(old(order), key, now) && entry == Hit(old(order), key, now)
    {
      FoundInMap(key);
      assert key in items ==> items[key].key == key;
      hide Find, Without, Total, Valid;
      if key in items {
        var e := items[key];
        Unlink(key);
        if now < e.expires {
          Link(e);
          return Some(e);
        }
      }
      return None;
    }

    method Put(key: string, size: nat, expires: int)
      requires Valid()
      modifies this
      ensures Valid() && order == PutFront(old(order), Entry(key, size, expires))
    {
      FoundInMap(key);
      hide Find, Without, Total, Valid;
      if key in items {
        Unlink(key);
      } else {
        NothingWithout(order, key);
      }
      Link(Entry(key, size, expires));
    }

    method Remove(key: string)
      requires Valid()
      modifies this
      ensures Valid() && order == Without(old(order), key)
    {
      FoundInMap(key);
      hide Find, Without, Total, Valid;
      if key in items {
        Unlink(key);
      } else {
        NothingWithout(order, key);
      }
    }

    method EvictOne() returns (evicted: Option<Entry>)
      requires Valid()
      modifies this
      ensures Valid() && (evicted.None? <==> old(order) == [])
      ensures evicted.Some? ==> old(order) == order + [evicted.value]
    {
      if order == [] {
        return None;
      }
      hide Valid, Without, Total, Distinct;
      var e := order[|order| - 1];
      LastInMap();
      Unlink(e.key);
      evicted := Some(e);
    }

    method EvictForSpace(space: int) returns (evicted: seq<string>)
      requires Valid()
      modifies this
      ensures Valid() && order == EvictFor(old(order), space)
      ensures order <= old(order) && evicted == KeysBackward(old(order)[|order|..])
    {
      hide Valid, Without, Total, KeysBackward, EvictFor, Distinct;
      ghost var start := order;
      evicted := [];
      var freed := 0;
      assert start[|start|..] == [];
      NoKeys();
      while freed < space && |order| > 0
        invariant Valid() && order <= start && evicted == KeysBackward(start[|order|..])
        invariant EvictFor(start, space) == EvictFor(order, space - freed)
        decreases |order|
      {
        var k := |order| - 1;
        var e := order[k];
        EvictNext(order, space - freed);
        LastInMap();
        ghost var before := order;
        KeysBackwardFront(start[k], start[k + 1..]);
        assert [start[k]] + start[k + 1..] == start[k..];
        Unlink(e.key);
        assert order == before[..k];
        evicted := evicted + [e.key];
        freed := freed + e.size;
      }
      EvictDone(order, space - freed);
    }

    lemma LastInMap()
      requires Valid() && order != []
      ensures order[|order| - 1].key in items && Without(order, order[|order| - 1].key) == order[..|order| - 1]
    {
      hide Total;
      assert order[|order| - 1] in order;
      LastWithout(order);
    }

    predicate NeedsEviction(size: int)
      reads this
    {
      usedSize + size > capacity
    }
  }

  lemma NoKeys()
    ensures KeysBackward([]) == []
  {
  }

  lemma EvictNext(s: Recency, space: int)
    requires space > 0 && s != []
    ensures EvictFor(s, space) == EvictFor(s[..|s| - 1], space - s[|s| - 1].size)
  {
  }

  lemma EvictDone(s: Recency, space: int)
    requires space <= 0 || s == []
    ensures EvictFor(s, space) == s
  {
  }

  lemma {:induction false} NothingWithout(s: Recency, key: string)
    requires Find(s, key).None?
    ensures Without(s, key) == s
  {
    if s != [] {
      NothingWithout(s[1..], key);
    }
  }

  lemma {:induction false} LastWithout(s: Recency)
    requires s != [] && Distinct(s)
    ensures Without(s, s[|s| - 1].key) == s[..|s| - 1]
  {
    var key := s[|s| - 1].key;
    if |s| > 1 {
      LastWithout(s[1..]);
      assert s[1..][|s| - 2].key == key;
      assert s[..|s| - 1] == [s[0]] + s[1..][..|s| - 2];
    } else {
      assert Without(s[1..], key) == [];
    }
  }

  lemma {:induction false} KeysBackwardFront(e: Entry, s: Recency)
    ensures KeysBackward([e] + s) == KeysBackward(s) + [e.key]
  {
    if s == [] {
      assert [e] + s == [e] && KeysBackward([e]) == [e.key] + KeysBackward([]);
    } else {
      var k := |s| - 1;
      assert ([e] + s)[..k + 1] == [e] + s[..k];
      KeysBackwardFront(e, s[..k]);
    }
  }
}
