/** JavaScript's `Map` as the dashboard uses it: `get`, `set`, and iteration over
    its entries in insertion order. A map is the sequence of its entries in that
    order; `set` on a key already present replaces the value where the entry
    stands, `set` on a new key adds the entry at the end. */
module OrderedMaps {
  import opened Domain

  datatype Entry<K, V> = Entry(key: K, value: V)

  /** The keys, in iteration order. */
  function Keys<K, V>(entries: seq<Entry<K, V>>): (ks: seq<K>)
    ensures |ks| == |entries|
    ensures forall i :: 0 <= i < |entries| ==> ks[i] == entries[i].key
  {
    if entries == [] then [] else [entries[0].key] + Keys(entries[1..])
  }

  /** No key appears twice. */
  predicate DistinctKeys<K(==,!new), V>(entries: seq<Entry<K, V>>)
  {
    forall i, j :: 0 <= i < j < |entries| ==> entries[i].key != entries[j].key
  }

  /** `map.get(key)`: the value stored under `key`, if any. */
  function Get<K(==,!new), V>(entries: seq<Entry<K, V>>, key: K): (r: Option<V>)
    ensures r.None? <==> key !in Keys(entries)
    ensures r.Some? ==> exists i :: 0 <= i < |entries| && entries[i] == Entry(key, r.value)
  {
    if entries == [] then None
    else if entries[0].key == key then Some(entries[0].value)
    else
      assert Keys(entries) == [entries[0].key] + Keys(entries[1..]);
      var r := Get(entries[1..], key);
      assert r.Some? ==> exists i :: 0 <= i < |entries| && entries[i] == Entry(key, r.value) by {
        if r.Some? {
          var i :| 0 <= i < |entries[1..]| && entries[1..][i] == Entry(key, r.value);
          assert entries[i + 1] == Entry(key, r.value);
        }
      }
      r
  }

  /** `map.set(key, value)`: the keys stay in place, a new key goes last. */
  function Set<K(==,!new), V>(entries: seq<Entry<K, V>>, key: K, value: V): (r: seq<Entry<K, V>>)
    ensures Keys(r) == if key in Keys(entries) then Keys(entries) else Keys(entries) + [key]
  {
    if entries == [] then [Entry(key, value)]
    else if entries[0].key == key then
      var r := [Entry(key, value)] + entries[1..];
      assert Keys(r) == [key] + Keys(entries[1..]) == Keys(entries);
      r
    else
      var rest := Set(entries[1..], key, value);
      var r := [entries[0]] + rest;
      assert Keys(entries) == [entries[0].key] + Keys(entries[1..]);
      assert Keys(r) == [entries[0].key] + Keys(rest);
      r
  }

  /** After `set`, `get` finds the new value under its key and the old values under
      every other key. */
  lemma {:induction false} GetAfterSet<K(!new), V>(entries: seq<Entry<K, V>>, key: K, value: V, k: K)
    ensures Get(Set(entries, key, value), k) == if k == key then Some(value) else Get(entries, k)
  {
    if entries != [] && entries[0].key != key {
      GetAfterSet(entries[1..], key, value, k);
      assert Set(entries, key, value)[1..] == Set(entries[1..], key, value);
    } else if entries != [] {
      assert Set(entries, key, value)[1..] == entries[1..];
    }
  }

  /** `set` never duplicates a key. */
  lemma SetKeepsKeysDistinct<K(!new), V>(entries: seq<Entry<K, V>>, key: K, value: V)
    requires DistinctKeys(entries)
    ensures DistinctKeys(Set(entries, key, value))
  {
    var r := Set(entries, key, value);
    forall i, j | 0 <= i < j < |r| ensures r[i].key != r[j].key {
      assert r[i].key == Keys(r)[i] && r[j].key == Keys(r)[j];
      if j < |entries| {
        assert Keys(entries)[i] == entries[i].key && Keys(entries)[j] == entries[j].key;
      } else {
        assert Keys(entries)[i] == entries[i].key;
      }
    }
  }

  /** The sum of `f` over the values. */
  function SumBy<K, V>(entries: seq<Entry<K, V>>, f: V -> int): int
  {
    if entries == [] then 0 else f(entries[0].value) + SumBy(entries[1..], f)
  }

  /** `set` changes the sum by the new value less the one it replaces. */
  lemma {:induction false} SumBySet<K(!new), V>(entries: seq<Entry<K, V>>, key: K, value: V, f: V -> int)
    requires DistinctKeys(entries)
    ensures SumBy(Set(entries, key, value), f)
            == SumBy(entries, f) + f(value) - (match Get(entries, key) case Some(prev) => f(prev) case None => 0)
  {
    if entries == [] {
    } else if entries[0].key == key {
      assert Set(entries, key, value)[1..] == entries[1..];
      assert Keys(entries) == [key] + Keys(entries[1..]);
    } else {
      assert DistinctKeys(entries[1..]);
      SumBySet(entries[1..], key, value, f);
      assert Set(entries, key, value)[1..] == Set(entries[1..], key, value);
    }
  }

  /** The elements of `s` in the order of their first appearance, once each: the
      order in which a `Map` filled from `s` lists its keys. */
  function FirstAppearances<T(==,!new)>(s: seq<T>): (r: seq<T>)
    ensures forall x :: x in r <==> x in s
    ensures forall i, j :: 0 <= i < j < |r| ==> r[i] != r[j]
  {
    if s == [] then []
    else
      var prefix := FirstAppearances(s[..|s| - 1]);
      assert forall x :: x in s <==> x in s[..|s| - 1] || x == s[|s| - 1] by {
        assert s == s[..|s| - 1] + [s[|s| - 1]];
      }
      if s[|s| - 1] in prefix then prefix else prefix + [s[|s| - 1]]
  }

  /** The index at which `x` first occurs in `s`. */
  function FirstIndex<T(==)>(s: seq<T>, x: T): (i: nat)
    requires x in s
    ensures i < |s| && s[i] == x && x !in s[..i]
  {
    if s[0] == x then 0
    else
      var k := FirstIndex(s[1..], x);
      assert s[..k + 1] == [s[0]] + s[1..][..k];
      k + 1
  }

  /** An index holding `x` with no `x` before it is the first index. */
  lemma FirstIndexUnique<T>(s: seq<T>, x: T, i: nat)
    requires i < |s| && s[i] == x && x !in s[..i]
    ensures FirstIndex(s, x) == i
  {
  }

  /** `FirstAppearances` lists the elements in the order of their first index in
      `s`, as a `Map` filled from `s` iterates its keys. */
  lemma {:induction false} FirstAppearancesInOrder<T(!new)>(s: seq<T>)
    ensures forall i, j :: 0 <= i < j < |FirstAppearances(s)| ==>
              FirstAppearances(s)[i] in s && FirstAppearances(s)[j] in s &&
              FirstIndex(s, FirstAppearances(s)[i]) < FirstIndex(s, FirstAppearances(s)[j])
  {
    if s == [] {
      assert FirstAppearances(s) == [];
    } else {
      var init, last := s[..|s| - 1], s[|s| - 1];
      var prefix := FirstAppearances(init);
      var r := FirstAppearances(s);
      assert r == if last in prefix then prefix else prefix + [last];
      FirstAppearancesInOrder(init);
      forall x | x in init ensures FirstIndex(s, x) == FirstIndex(init, x) {
        var k := FirstIndex(init, x);
        assert s[..k] == init[..k];
        FirstIndexUnique(s, x, k);
      }
      if last !in prefix {
        assert last !in s[..|s| - 1];
        FirstIndexUnique(s, last, |s| - 1);
      }
      forall i, j | 0 <= i < j < |r|
        ensures r[i] in s && r[j] in s && FirstIndex(s, r[i]) < FirstIndex(s, r[j])
      {
        assert r[i] in prefix;
        if j < |prefix| {
          assert r[j] == prefix[j];
        }
      }
    }
  }
}
