/** A JavaScript `Map` with string keys: values by key, iteration in insertion order.
    The workspace caches use one as a least-recently-used list, so the order is part
    of the value here. */
module Ordered {

  datatype Entries<V> = Entries(keys: seq<string>, items: map<string, V>)

  ghost predicate Distinct(keys: seq<string>) {
    forall i, j :: 0 <= i < j < |keys| ==> keys[i] != keys[j]
  }

  ghost predicate WellOrdered<V>(m: Entries<V>) {
    && Distinct(m.keys)
    && (forall k :: k in m.keys <==> k in m.items)
  }

  type OrderedMap<V> = m: Entries<V> | WellOrdered(m) ghost witness Entries([], map[])

  function Empty<V>(): OrderedMap<V> {
    Entries([], map[])
  }

  /** The keys that remain, in order, once those in `gone` are deleted. */
  function Minus(keys: seq<string>, gone: set<string>): (r: seq<string>)
    ensures forall k :: k in r <==> k in keys && k !in gone
    ensures |r| <= |keys|
    ensures Distinct(keys) ==> Distinct(r)
  {
    if keys == [] then []
    else if keys[0] in gone then Minus(keys[1..], gone)
    else
      assert keys == [keys[0]] + keys[1..];
      [keys[0]] + Minus(keys[1..], gone)
  }

  function Remove<V>(m: OrderedMap<V>, gone: set<string>): (r: OrderedMap<V>)
    ensures r.items == m.items - gone
    ensures |r.keys| <= |m.keys|
  {
    Entries(Minus(m.keys, gone), m.items - gone)
  }

  /** `delete` followed by `set`: the key becomes the newest. */
  function Put<V>(m: OrderedMap<V>, key: string, value: V): (r: OrderedMap<V>)
    ensures r.items == m.items[key := value]
    ensures |r.keys| <= |m.keys| + 1
    ensures r.keys != [] && r.keys[|r.keys| - 1] == key
  {
    Entries(Minus(m.keys, {key}) + [key], m.items[key := value])
  }

  /** `set` alone: a key already present keeps its position. */
  function Set<V>(m: OrderedMap<V>, key: string, value: V): (r: OrderedMap<V>)
    ensures r.items == m.items[key := value]
  {
    Entries(if key in m.items then m.keys else m.keys + [key], m.items[key := value])
  }

  /** The map without its oldest `n` entries. */
  function DropOldest<V>(m: OrderedMap<V>, n: nat): (r: OrderedMap<V>)
    requires n <= |m.keys|
    ensures r.keys == m.keys[n..]
    ensures forall k :: k in r.items ==> k in m.items && r.items[k] == m.items[k]
  {
    Entries(m.keys[n..], map k | k in m.keys[n..] :: m.items[k])
  }

  /** The newest `limit` entries. */
  function Trim<V>(m: OrderedMap<V>, limit: nat): (r: OrderedMap<V>)
    ensures |r.keys| <= limit
    ensures forall k :: k in r.items ==> k in m.items && r.items[k] == m.items[k]
  {
    if |m.keys| <= limit then m else DropOldest(m, |m.keys| - limit)
  }

  lemma {:induction false} MinusOldest(keys: seq<string>)
    requires Distinct(keys) && keys != []
    ensures Minus(keys, {keys[0]}) == keys[1..]
  {
    MinusAbsent(keys[1..], {keys[0]});
  }

  lemma {:induction false} MinusAbsent(keys: seq<string>, gone: set<string>)
    requires forall k :: k in keys ==> k !in gone
    ensures Minus(keys, gone) == keys
  {
    if keys != [] {
      assert keys == [keys[0]] + keys[1..];
      MinusAbsent(keys[1..], gone);
    }
  }

  lemma SameEntries<V>(a: OrderedMap<V>, b: OrderedMap<V>)
    requires a.keys == b.keys && forall k :: k in a.items && k in b.items ==> a.items[k] == b.items[k]
    ensures a == b
  {
  }

  /** Deleting the first key of the iteration order is `DropOldest` by one. */
  lemma RemoveOldest<V>(m: OrderedMap<V>)
    requires m.keys != []
    ensures Remove(m, {m.keys[0]}) == DropOldest(m, 1)
  {
    MinusOldest(m.keys);
    SameEntries(Remove(m, {m.keys[0]}), DropOldest(m, 1));
  }

  lemma DropOldestTwice<V>(m: OrderedMap<V>, i: nat, j: nat)
    requires i + j <= |m.keys|
    ensures DropOldest(DropOldest(m, i), j) == DropOldest(m, i + j)
  {
    assert m.keys[i..][j..] == m.keys[i + j..];
    SameEntries(DropOldest(DropOldest(m, i), j), DropOldest(m, i + j));
  }

  /** `trimOldestEntries`: delete the first key until the limit holds. */
  method TrimOldestEntries<V>(entries: OrderedMap<V>, limit: nat) returns (r: OrderedMap<V>)
    ensures r == Trim(entries, limit)
  {
    hide WellOrdered;
    r := entries;
    ghost var n := 0;
    SameEntries(DropOldest(entries, 0), entries);
    while |r.keys| > limit
      invariant n <= |entries.keys| && r == DropOldest(entries, n)
      invariant n == 0 || |entries.keys| - n >= limit
      decreases |r.keys|
    {
      var oldest := r.keys[0];
      RemoveOldest(r);
      DropOldestTwice(entries, n, 1);
      r := Remove(r, {oldest});
      n := n + 1;
    }
  }

  lemma NewestSurvivesTrim<V>(m: OrderedMap<V>, key: string, value: V, limit: nat)
    requires limit >= 1
    ensures key in Trim(Put(m, key, value), limit).items
  {
  }

  lemma {:induction false} MinusTwice(keys: seq<string>, a: set<string>, b: set<string>)
    ensures Minus(Minus(keys, a), b) == Minus(keys, a + b)
  {
    if keys != [] {
      MinusTwice(keys[1..], a, b);
      if keys[0] !in a {
        assert Minus(keys, a)[1..] == Minus(keys[1..], a);
      }
    }
  }

  lemma RemoveTwice<V>(m: OrderedMap<V>, a: set<string>, b: set<string>)
    ensures Remove(Remove(m, a), b) == Remove(m, a + b)
  {
    MinusTwice(m.keys, a, b);
    assert m.items - a - b == m.items - (a + b);
  }

  lemma RemoveNone<V>(m: OrderedMap<V>)
    ensures Remove(m, {}) == m
  {
    MinusAbsent(m.keys, {});
    assert m.items - {} == m.items;
  }

  /** `set` after `delete` makes the key the newest. */
  lemma SetAfterRemove<V>(m: OrderedMap<V>, key: string, value: V)
    ensures Set(Remove(m, {key}), key, value) == Put(m, key, value)
  {
    hide WellOrdered;
    assert (m.items - {key})[key := value] == m.items[key := value];
  }

  lemma RemoveAbsent<V>(m: OrderedMap<V>, key: string)
    requires key !in m.items
    ensures Remove(m, {key}) == m
  {
    MinusAbsent(m.keys, {key});
    assert m.items - {key} == m.items;
  }
}
