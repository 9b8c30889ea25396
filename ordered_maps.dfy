/**
 * A JavaScript `Map` with string keys, as the backend uses it: the entries
 * together with the order in which their keys were first inserted. `set` on a
 * key that is already present replaces its value and keeps its position;
 * `delete` drops the key; `values()` enumerates in key order.
 */
module OrderedMaps {
  import opened Wrappers

  ghost predicate Distinct(s: seq<string>) {
    forall i, j :: 0 <= i < j < |s| ==> s[i] != s[j]
  }

  /** `s` with every occurrence of `k` taken out, the rest in their order. */
  function Without(s: seq<string>, k: string): (r: seq<string>)
    ensures forall x :: x in r <==> x in s && x != k
    ensures k !in s ==> r == s
  {
    if s == [] then []
    else if s[0] == k then Without(s[1..], k)
    else [s[0]] + Without(s[1..], k)
  }

  /** `Without` works piece by piece, so what remains keeps its relative order. */
  lemma {:induction false} WithoutAppend(a: seq<string>, b: seq<string>, k: string)
    ensures Without(a + b, k) == Without(a, k) + Without(b, k)
  {
    if a == [] {
      assert a + b == b;
    } else {
      assert (a + b)[0] == a[0] && (a + b)[1..] == a[1..] + b;
      WithoutAppend(a[1..], b, k);
    }
  }

  lemma {:induction false} WithoutDistinct(s: seq<string>, k: string)
    requires Distinct(s)
    ensures Distinct(Without(s, k))
  {
    if s != [] {
      WithoutDistinct(s[1..], k);
      if s[0] != k {
        var r := Without(s[1..], k);
        assert s[0] !in r;
        forall i, j | 0 <= i < j < |[s[0]] + r| ensures ([s[0]] + r)[i] != ([s[0]] + r)[j] {
          if i == 0 { assert ([s[0]] + r)[j] == r[j - 1]; }
        }
      }
    }
  }

  datatype OrderedMap<V> = OrderedMap(keys: seq<string>, entries: map<string, V>) {

    /** The keys are listed once each, and exactly the keys that have an entry are listed. */
    ghost predicate Valid() {
      Distinct(keys) && forall k :: k in entries <==> k in keys
    }

    /** `map.has(k)` */
    predicate Has(k: string) {
      k in entries
    }

    /** `map.get(k)`: the value, or nothing when the key is absent. */
    function Get(k: string): (r: Option<V>)
      ensures r.Some? <==> Has(k)
      ensures r.Some? ==> r.value == entries[k]
    {
      if k in entries then Some(entries[k]) else None
    }

    /** `map.set(k, v)` */
    function Set(k: string, v: V): (r: OrderedMap<V>)
      requires Valid()
      ensures r.Valid()
      ensures r.Get(k) == Some(v)
      ensures forall k' :: k' != k ==> r.Get(k') == Get(k')
      ensures Has(k) ==> r.keys == keys
      ensures !Has(k) ==> r.keys == keys + [k]
    {
      if k in entries then OrderedMap(keys, entries[k := v])
      else OrderedMap(keys + [k], entries[k := v])
    }

    /** `map.delete(k)` */
    function Delete(k: string): (r: OrderedMap<V>)
      requires Valid()
      ensures r.Valid()
      ensures r.Get(k) == None
      ensures forall k' :: k' != k ==> r.Get(k') == Get(k')
      ensures r.keys == Without(keys, k)
      ensures !Has(k) ==> r == this
    {
      WithoutDistinct(keys, k);
      var r := OrderedMap(Without(keys, k), entries - {k});
      assert !Has(k) ==> r.entries == entries;
      r
    }

    /** `Array.from(map.values())`: the values in key order. */
    function Values(): (r: seq<V>)
      requires Valid()
      ensures |r| == |keys|
      ensures forall i :: 0 <= i < |keys| ==> r[i] == entries[keys[i]]
      ensures forall k :: k in entries ==> entries[k] in r
      ensures forall v :: v in r ==> exists k :: k in entries && entries[k] == v
    {
      var r := seq(|keys|, i requires 0 <= i < |keys| => entries[keys[i]]);
      assert forall k :: k in entries ==> exists i :: 0 <= i < |keys| && keys[i] == k;
      r
    }
  }

  /** `new Map()` */
  function Empty<V>(): (r: OrderedMap<V>)
    ensures r.Valid()
    ensures r.keys == []
    ensures forall k :: r.Get(k) == None
  {
    OrderedMap([], map[])
  }

  /** Deleting a key closes the gap: the keys before it and after it stay in their order. */
  lemma DeleteKeepsOrder<V>(m: OrderedMap<V>, a: seq<string>, k: string, b: seq<string>)
    requires m.Valid() && m.keys == a + [k] + b
    ensures m.Delete(k).keys == a + b
  {
    ListedOnce(a, k, b);
    WithoutOne(a, k, b);
  }

  /** In a list without repeats, a key occurs neither before nor after its own place. */
  lemma ListedOnce(a: seq<string>, k: string, b: seq<string>)
    requires Distinct(a + [k] + b)
    ensures k !in a && k !in b
  {
    var s := a + [k] + b;
    assert s[|a|] == k;
    forall i | 0 <= i < |a| ensures a[i] != k {
      assert s[i] == a[i];
    }
    forall i | 0 <= i < |b| ensures b[i] != k {
      assert s[|a| + 1 + i] == b[i];
    }
  }

  lemma WithoutOne(a: seq<string>, k: string, b: seq<string>)
    requires k !in a && k !in b
    ensures Without(a + [k] + b, k) == a + b
  {
    WithoutUpTo(a, k);
    WithoutAppend(a + [k], b, k);
  }

  /** Taking `k` out of `a + [k]` where `a` lacks it gives `a`. */
  lemma WithoutUpTo(a: seq<string>, k: string)
    requires k !in a
    ensures Without(a + [k], k) == a
  {
    WithoutAppend(a, [k], k);
    assert [k][1..] == [];
    assert a + [] == a;
  }

  /** Deleting a key and setting it again moves it behind every other key. */
  lemma DeleteThenSetMovesToEnd<V>(m: OrderedMap<V>, k: string, v: V)
    requires m.Valid()
    ensures m.Delete(k).Set(k, v).keys == Without(m.keys, k) + [k]
    ensures m.Has(k) ==> m.Set(k, v).keys == m.keys
  {
  }
}
