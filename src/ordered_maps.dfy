/** Python's `OrderedDict`: a dictionary that remembers the order in which
    keys were first inserted. Re-assigning an existing key keeps its place;
    `del` removes the key. */
module OrderedMaps {
  import opened Wrappers

  datatype OrderedMap<K(==, !new), V> = OrderedMap(items: seq<(K, V)>)
  {
    /** Index of the entry holding key `k`, if any. */
    function IndexOf(k: K): (r: Option<nat>)
      ensures r.Some? ==> r.value < |items| && items[r.value].0 == k
      ensures r.Some? ==> forall j :: 0 <= j < r.value ==> items[j].0 != k
      ensures r.None? ==> forall j :: 0 <= j < |items| ==> items[j].0 != k
    {
      IndexFrom(k, 0)
    }

    function IndexFrom(k: K, from: nat): (r: Option<nat>)
      requires from <= |items|
      requires forall j :: 0 <= j < from ==> items[j].0 != k
      ensures r.Some? ==> from <= r.value < |items| && items[r.value].0 == k
      ensures r.Some? ==> forall j :: 0 <= j < r.value ==> items[j].0 != k
      ensures r.None? ==> forall j :: 0 <= j < |items| ==> items[j].0 != k
      decreases |items| - from
    {
      if from == |items| then None
      else if items[from].0 == k then Some(from)
      else IndexFrom(k, from + 1)
    }

    predicate Contains(k: K) {
      IndexOf(k).Some?
    }

    /** `d.get(k)`: the value stored under `k`, if any. */
    function Get(k: K): Option<V> {
      match IndexOf(k)
      case Some(i) => Some(items[i].1)
      case None => None
    }

    /** The keys in insertion order (`d.keys()`). */
    function Keys(): (r: seq<K>)
      ensures |r| == |items|
      ensures forall i :: 0 <= i < |items| ==> r[i] == items[i].0
    {
      seq(|items|, i requires 0 <= i < |items| => items[i].0)
    }

    /** The values in insertion order (`d.values()`). */
    function Values(): (r: seq<V>)
      ensures |r| == |items|
      ensures forall i :: 0 <= i < |items| ==> r[i] == items[i].1
    {
      seq(|items|, i requires 0 <= i < |items| => items[i].1)
    }

    /** Every key occurs once. */
    ghost predicate Valid() {
      forall i, j :: 0 <= i < j < |items| ==> items[i].0 != items[j].0
    }

    /** `d[k] = v`. */
    function Put(k: K, v: V): (r: OrderedMap<K, V>)
      ensures r.Get(k) == Some(v)
      ensures forall k' :: k' != k ==> r.Get(k') == Get(k')
      ensures Contains(k) ==> r.Keys() == Keys()
      ensures !Contains(k) ==> r.Keys() == Keys() + [k]
      ensures Valid() ==> r.Valid()
      ensures forall x :: x in r.items ==> x in items || x == (k, v)
    {
      match IndexOf(k)
      case Some(i) =>
        var r := OrderedMap(items[i := (k, v)]);
        assert forall x :: x in r.items ==> x in items || x == (k, v) by {
          forall x | x in r.items ensures x in items || x == (k, v) {
            var j :| 0 <= j < |r.items| && r.items[j] == x;
            if j != i { assert items[j] == x; }
          }
        }
        assert forall k' :: k' != k ==> r.IndexOf(k') == IndexOf(k') by {
          forall k' | k' != k ensures r.IndexOf(k') == IndexOf(k') {
            SameKeysSameIndex(this, r, k');
          }
        }
        assert r.Keys() == Keys();
        r
      case None =>
        var r := OrderedMap(items + [(k, v)]);
        assert forall k' :: k' != k ==> r.IndexOf(k') == IndexOf(k') by {
          forall k' | k' != k ensures r.IndexOf(k') == IndexOf(k') {
            if IndexOf(k').Some? {
              PrefixIndex(this, r, k');
            }
          }
        }
        assert r.items[|items|].0 == k;
        assert r.IndexOf(k) == Some(|items|);
        r
    }

    /** `del d[k]`; the model keeps removing `k` total, Python raises
        `KeyError` when `k` is absent, which callers check first. */
    function Remove(k: K): (r: OrderedMap<K, V>)
      ensures !r.Contains(k)
      ensures forall k' :: k' != k ==> r.Get(k') == Get(k')
      ensures |r.items| <= |items|
      ensures Valid() ==> r.Valid()
      ensures forall x :: x in r.items ==> x in items
      decreases |items|
    {
      if items == [] then this
      else
        var rest := OrderedMap(items[1..]).Remove(k);
        if items[0].0 == k then
          RemoveHead(this, k, rest);
          rest
        else
          RemoveCons(this, k, rest);
          OrderedMap([items[0]] + rest.items)
    }

    function Size(): nat {
      |items|
    }
  }

  function Empty<K(==, !new), V>(): (r: OrderedMap<K, V>)
    ensures r.Keys() == [] && r.Valid()
    ensures forall k :: !r.Contains(k)
  {
    OrderedMap([])
  }

  lemma RemoveHead<K(!new), V>(m: OrderedMap<K, V>, k: K, rest: OrderedMap<K, V>)
    requires |m.items| > 0 && m.items[0].0 == k
    requires !rest.Contains(k)
    requires forall k' :: k' != k ==> rest.Get(k') == OrderedMap(m.items[1..]).Get(k')
    ensures forall k' :: k' != k ==> rest.Get(k') == m.Get(k')
  {
    forall k' | k' != k ensures rest.Get(k') == m.Get(k') {
      assert [m.items[0]] + m.items[1..] == m.items;
      ConsIndex(m.items[0], OrderedMap(m.items[1..]), k');
    }
  }

  lemma RemoveCons<K(!new), V>(m: OrderedMap<K, V>, k: K, rest: OrderedMap<K, V>)
    requires |m.items| > 0 && m.items[0].0 != k
    requires !rest.Contains(k)
    requires forall k' :: k' != k ==> rest.Get(k') == OrderedMap(m.items[1..]).Get(k')
    requires OrderedMap(m.items[1..]).Valid() ==> rest.Valid()
    ensures var r := OrderedMap([m.items[0]] + rest.items);
      !r.Contains(k) && (forall k' :: k' != k ==> r.Get(k') == m.Get(k')) &&
      (m.Valid() ==> r.Valid())
  {
    var r := OrderedMap([m.items[0]] + rest.items);
    assert [m.items[0]] + m.items[1..] == m.items;
    ConsIndex(m.items[0], rest, k);
    forall k' | k' != k ensures r.Get(k') == m.Get(k') {
      ConsIndex(m.items[0], rest, k');
      ConsIndex(m.items[0], OrderedMap(m.items[1..]), k');
    }
    if m.Valid() {
      forall j | 0 <= j < |rest.items| ensures rest.items[j].0 != m.items[0].0 {
        ContainsAt(rest, j);
        NotInTail(m, rest.items[j].0);
      }
      assert OrderedMap(m.items[1..]).Valid();
    }
  }

  /** Where a key sits depends only on the keys, not on the values. */
  lemma SameKeysSameIndex<K(!new), V, W>(a: OrderedMap<K, V>, b: OrderedMap<K, W>, k: K)
    requires a.Keys() == b.Keys()
    ensures a.IndexOf(k) == b.IndexOf(k)
  {
    assert forall j :: 0 <= j < |a.items| ==> a.items[j].0 == a.Keys()[j];
  }

  lemma PrefixIndex<K(!new), V>(a: OrderedMap<K, V>, b: OrderedMap<K, V>, k: K)
    requires |a.items| <= |b.items| && forall j :: 0 <= j < |a.items| ==> b.items[j] == a.items[j]
    requires a.IndexOf(k).Some?
    ensures b.IndexOf(k) == a.IndexOf(k)
  {
  }

  lemma ConsIndex<K(!new), V>(x: (K, V), rest: OrderedMap<K, V>, k: K)
    ensures var r := OrderedMap([x] + rest.items);
      r.Get(k) == if x.0 == k then Some(x.1) else rest.Get(k)
  {
    var r := OrderedMap([x] + rest.items);
    if x.0 != k {
      match rest.IndexOf(k)
      case Some(i) => assert r.items[i + 1].0 == k;
      case None =>
    }
  }

  lemma ContainsAt<K(!new), V>(m: OrderedMap<K, V>, j: nat)
    requires j < |m.items|
    ensures m.Get(m.items[j].0).Some?
  {
  }

  lemma NotInTail<K(!new), V>(m: OrderedMap<K, V>, k: K)
    requires m.Valid() && |m.items| > 0
    requires OrderedMap(m.items[1..]).Get(k).Some?
    ensures k != m.items[0].0
  {
    var i := OrderedMap(m.items[1..]).IndexOf(k).value;
    assert m.items[i + 1].0 == k;
  }

  /** `del d[k]` of a key that is not there leaves the dictionary as it is. */
  lemma {:induction false} RemoveAbsent<K(!new), V>(m: OrderedMap<K, V>, k: K)
    requires !m.Contains(k)
    ensures m.Remove(k) == m
    decreases |m.items|
  {
    if m.items != [] {
      var tail := OrderedMap(m.items[1..]);
      assert tail.items == m.items[1..];
      RemoveAbsent(tail, k);
      assert [m.items[0]] + m.items[1..] == m.items;
    }
  }

  /** Adding a new key and deleting it again gives the dictionary back,
      order included. */
  lemma PutRemove<K(!new), V>(m: OrderedMap<K, V>, k: K, v: V)
    requires !m.Contains(k)
    ensures m.Put(k, v).Remove(k) == m
  {
    PutRemoveItems(m.items, k, v);
  }

  lemma {:induction false} PutRemoveItems<K(!new), V>(items: seq<(K, V)>, k: K, v: V)
    requires forall j :: 0 <= j < |items| ==> items[j].0 != k
    ensures OrderedMap(items + [(k, v)]).Remove(k) == OrderedMap(items)
    decreases |items|
  {
    var m := OrderedMap(items + [(k, v)]);
    if items == [] {
      assert m.items[1..] == [];
    } else {
      assert m.items[1..] == items[1..] + [(k, v)];
      PutRemoveItems(items[1..], k, v);
      assert [items[0]] + items[1..] == items;
    }
  }
}
