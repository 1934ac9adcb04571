/** The JavaScript `Map`: a finite map that remembers the order in which its keys were first set.
    Setting a key that is present keeps its position; a key that is deleted and set again moves
    to the end. The bounded registries evict from the front of this order. */
module OrderedMaps {

  /** The elements of s other than k, in order. */
  function Without<K(==)>(s: seq<K>, k: K): seq<K> {
    if s == [] then []
    else if s[0] == k then Without(s[1..], k)
    else [s[0]] + Without(s[1..], k)
  }

  predicate Distinct<K(==)>(s: seq<K>) {
    s == [] || (s[0] !in s[1..] && Distinct(s[1..]))
  }

  lemma WithoutDistinct<K(!new)>(s: seq<K>, k: K)
    requires Distinct(s)
    ensures Distinct(Without(s, k))
    ensures |Without(s, k)| == if k in s then |s| - 1 else |s|
    ensures forall x :: x in Without(s, k) <==> x in s && x != k
  {
  }

  lemma AppendDistinct<K>(s: seq<K>, k: K)
    requires Distinct(s) && k !in s
    ensures Distinct(s + [k])
  {
    if s != [] {
      AppendDistinct(s[1..], k);
      assert (s + [k])[1..] == s[1..] + [k];
    }
  }

  lemma {:induction false} DistinctAppend<K(!new)>(a: seq<K>, b: seq<K>)
    ensures Distinct(a + b) <==> Distinct(a) && Distinct(b) && forall k :: k in a ==> k !in b
  {
    if a == [] { assert a + b == b; }
    else {
      DistinctAppend(a[1..], b);
      assert (a + b)[1..] == a[1..] + b;
    }
  }

  datatype OrderedMap<K(==,!new), V> = OrderedMap(order: seq<K>, entries: map<K, V>) {

    ghost predicate Valid() {
      && Distinct(order)
      && (forall k :: k in order <==> k in entries)
    }

    predicate Has(k: K) { k in entries }

    function Size(): nat { |order| }

    function Set(k: K, v: V): OrderedMap<K, V> {
      OrderedMap(if k in entries then order else order + [k], entries[k := v])
    }

    function Delete(k: K): OrderedMap<K, V> {
      OrderedMap(Without(order, k), entries - {k})
    }

    /** Delete then set: the key becomes the newest entry. */
    function SetLast(k: K, v: V): OrderedMap<K, V> {
      Delete(k).Set(k, v)
    }

    lemma SetValid(k: K, v: V)
      requires Valid()
      ensures Set(k, v).Valid()
      ensures Set(k, v).Size() == Size() + if Has(k) then 0 else 1
    {
      if !Has(k) { AppendDistinct(order, k); }
    }

    lemma DeleteValid(k: K)
      requires Valid()
      ensures Delete(k).Valid()
      ensures Delete(k).Size() == Size() - if Has(k) then 1 else 0
    {
      WithoutDistinct(order, k);
    }

    lemma SetLastValid(k: K, v: V)
      requires Valid()
      ensures SetLast(k, v).Valid()
      ensures SetLast(k, v).order == Without(order, k) + [k]
      ensures SetLast(k, v).Size() == Size() + if Has(k) then 0 else 1
    {
      DeleteValid(k);
      Delete(k).SetValid(k, v);
    }
  }

  function Empty<K(!new), V>(): OrderedMap<K, V> { OrderedMap([], map[]) }
}
