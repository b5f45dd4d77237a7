/** JavaScript's `Map`: a finite map that also remembers insertion order.
    Setting a key that is already present keeps its place. */
module OrderedMap {

  datatype Option<+T> = None | Some(value: T)

  /** `s` without any occurrence of `k`, the rest in order. */
  function Without<K(==,!new)>(s: seq<K>, k: K): (r: seq<K>)
    ensures k !in r
    ensures forall x :: x in r <==> x in s && x != k
    ensures k !in s ==> r == s
  {
    if s == [] then []
    else if s[0] == k then Without(s[1..], k)
    else [s[0]] + Without(s[1..], k)
  }

  ghost predicate Distinct<K>(s: seq<K>) {
    forall i, j :: 0 <= i < j < |s| ==> s[i] != s[j]
  }

  lemma {:induction false} WithoutDistinct<K(!new)>(s: seq<K>, k: K)
    requires Distinct(s)
    ensures Distinct(Without(s, k))
    ensures k in s ==> |Without(s, k)| == |s| - 1
  {
    if s != [] {
      assert s == [s[0]] + s[1..];
      WithoutDistinct(s[1..], k);
      if s[0] == k {
        assert forall j :: 0 < j < |s| ==> s[j] != k;
      } else {
        assert s[0] !in s[1..];
        assert Without(s, k) == [s[0]] + Without(s[1..], k);
      }
    }
  }

  datatype OMap<K(==,!new), V> = OMap(keys: seq<K>, at: map<K, V>) {

    ghost predicate Valid() {
      Distinct(keys) && forall k :: k in keys <==> k in at
    }

    function Get(k: K): Option<V> {
      if k in at then Some(at[k]) else None
    }

    function Set(k: K, v: V): OMap<K, V> {
      OMap(if k in at then keys else keys + [k], at[k := v])
    }

    function Delete(k: K): OMap<K, V> {
      OMap(Without(keys, k), at - {k})
    }

    lemma SetValid(k: K, v: V)
      requires Valid()
      ensures Set(k, v).Valid()
      ensures |Set(k, v).keys| == |keys| + if k in at then 0 else 1
    {
    }

    lemma DeleteValid(k: K)
      requires Valid()
      ensures Delete(k).Valid()
      ensures |Delete(k).keys| == |keys| - if k in at then 1 else 0
    {
      WithoutDistinct(keys, k);
    }
  }
}
