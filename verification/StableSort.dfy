/** JavaScript's stable `sort((a, b) => key(b) - key(a))`: highest key first, equal keys in
    their old order. */
module StableSort {

  function Insert<T>(x: T, s: seq<T>, key: T -> real): seq<T> {
    if s == [] then [x]
    else if key(s[0]) <= key(x) then [x] + s
    else [s[0]] + Insert(x, s[1..], key)
  }

  function Sort<T>(s: seq<T>, key: T -> real): seq<T> {
    if s == [] then [] else Insert(s[0], Sort(s[1..], key), key)
  }

  ghost predicate Descending<T>(s: seq<T>, key: T -> real) {
    forall i, j :: 0 <= i < j < |s| ==> key(s[i]) >= key(s[j])
  }

  function Count<T>(s: seq<T>, p: T -> bool): nat {
    if s == [] then 0 else (if p(s[0]) then 1 else 0) + Count(s[1..], p)
  }

  function Filter<T>(s: seq<T>, p: T -> bool): seq<T> {
    if s == [] then [] else (if p(s[0]) then [s[0]] else []) + Filter(s[1..], p)
  }

  function Map<A, B>(f: A -> B, s: seq<A>): (r: seq<B>)
    ensures |r| == |s| && forall i :: 0 <= i < |s| ==> r[i] == f(s[i])
  {
    if s == [] then [] else [f(s[0])] + Map(f, s[1..])
  }

  lemma {:induction false} InsertSame<T>(x: T, s: seq<T>, key: T -> real)
    ensures multiset(Insert(x, s, key)) == multiset{x} + multiset(s)
    ensures forall y :: y in Insert(x, s, key) ==> y == x || y in s
  {
    if s != [] {
      var first, rest := s[0], s[1..];
      assert s == [first] + rest;
      if key(first) > key(x) {
        InsertSame(x, rest, key);
        assert Insert(x, s, key) == [first] + Insert(x, rest, key);
      }
    }
  }

  lemma DescendingCons<T>(x: T, s: seq<T>, key: T -> real)
    requires Descending(s, key) && forall y :: y in s ==> key(y) <= key(x)
    ensures Descending([x] + s, key)
  {
  }

  lemma {:induction false} InsertIs<T>(x: T, s: seq<T>, key: T -> real)
    requires Descending(s, key)
    ensures Descending(Insert(x, s, key), key)
    ensures multiset(Insert(x, s, key)) == multiset{x} + multiset(s)
  {
    InsertSame(x, s, key);
    if s != [] {
      var first, rest := s[0], s[1..];
      assert forall y :: y in rest ==> key(y) <= key(first);
      if key(first) <= key(x) {
        assert s == [first] + rest;
        DescendingCons(x, s, key);
      } else {
        InsertIs(x, rest, key);
        InsertSame(x, rest, key);
        DescendingCons(first, Insert(x, rest, key), key);
      }
    }
  }

  /** The result is in order and holds exactly the same elements. */
  lemma {:induction false} SortIs<T>(s: seq<T>, key: T -> real)
    ensures Descending(Sort(s, key), key)
    ensures multiset(Sort(s, key)) == multiset(s)
    ensures |Sort(s, key)| == |s|
  {
    if s != [] {
      assert s == [s[0]] + s[1..];
      SortIs(s[1..], key);
      InsertIs(s[0], Sort(s[1..], key), key);
    }
    assert |multiset(Sort(s, key))| == |multiset(s)|;
  }

  lemma {:induction false} InsertStable<T>(x: T, s: seq<T>, key: T -> real, k: real)
    requires Descending(s, key)
    ensures Filter(Insert(x, s, key), y => key(y) == k) == (if key(x) == k then [x] else []) + Filter(s, y => key(y) == k)
  {
    if s != [] && key(s[0]) > key(x) {
      InsertStable(x, s[1..], key, k);
      var rest := Insert(x, s[1..], key);
      assert Insert(x, s, key) == [s[0]] + rest;
      if key(x) == k && key(s[0]) == k {
        assert false;
      }
    }
  }

  /** Elements with equal keys keep their order. */
  lemma {:induction false} SortStable<T>(s: seq<T>, key: T -> real, k: real)
    ensures Filter(Sort(s, key), y => key(y) == k) == Filter(s, y => key(y) == k)
  {
    if s != [] {
      SortStable(s[1..], key, k);
      SortIs(s[1..], key);
      InsertStable(s[0], Sort(s[1..], key), key, k);
    }
  }

  /** Sorting what is in order already changes nothing. */
  lemma {:induction false} SortSorted<T>(s: seq<T>, key: T -> real)
    requires Descending(s, key)
    ensures Sort(s, key) == s
  {
    if s != [] {
      SortSorted(s[1..], key);
    }
  }

  lemma {:induction false} FilterIs<T>(s: seq<T>, p: T -> bool)
    ensures forall x :: x in Filter(s, p) <==> x in s && p(x)
  {
    if s != [] {
      assert s == [s[0]] + s[1..];
      FilterIs(s[1..], p);
    }
  }

  lemma {:induction false} FilterSnoc<T>(s: seq<T>, x: T, p: T -> bool)
    ensures Filter(s + [x], p) == Filter(s, p) + if p(x) then [x] else []
  {
    if s == [] {
      assert s + [x] == [x];
    } else {
      var first := if p(s[0]) then [s[0]] else [];
      FilterSnoc(s[1..], x, p);
      assert (s + [x])[0] == s[0] && (s + [x])[1..] == s[1..] + [x];
      assert Filter(s + [x], p) == first + Filter(s[1..] + [x], p);
      assert Filter(s, p) == first + Filter(s[1..], p);
    }
  }

  // ---------------------------------------------------------------- counting

  lemma {:induction false} CountInsert<T>(x: T, s: seq<T>, key: T -> real, p: T -> bool)
    ensures Count(Insert(x, s, key), p) == Count(s, p) + if p(x) then 1 else 0
  {
    if s != [] && key(s[0]) > key(x) {
      CountInsert(x, s[1..], key, p);
    }
  }

  lemma {:induction false} CountSort<T>(s: seq<T>, key: T -> real, p: T -> bool)
    ensures Count(Sort(s, key), p) == Count(s, p)
  {
    if s != [] {
      CountSort(s[1..], key, p);
      CountInsert(s[0], Sort(s[1..], key), key, p);
    }
  }

  /** If `p` holds only before position `n`, it holds at most `n` times. */
  lemma {:induction false} CountBefore<T>(s: seq<T>, p: T -> bool, n: nat)
    requires forall i :: n <= i < |s| ==> !p(s[i])
    ensures Count(s, p) <= n
  {
    if s != [] {
      if n == 0 {
        assert !p(s[0]);
        assert forall i :: 0 <= i < |s[1..]| ==> s[1..][i] == s[i + 1];
        CountBefore(s[1..], p, 0);
      } else {
        assert forall i :: n - 1 <= i < |s[1..]| ==> s[1..][i] == s[i + 1];
        CountBefore(s[1..], p, n - 1);
      }
    }
  }

  /** If `p` holds at every position before `n`, it holds at least `n` times. */
  lemma {:induction false} CountFrom<T>(s: seq<T>, p: T -> bool, n: nat)
    requires n <= |s| && forall i :: 0 <= i < n ==> p(s[i])
    ensures Count(s, p) >= n
  {
    if n > 0 {
      assert forall i :: 0 <= i < n - 1 ==> s[1..][i] == s[i + 1];
      CountFrom(s[1..], p, n - 1);
    }
  }

  lemma {:induction false} CountPointwise<A, B>(s: seq<A>, p: A -> bool, t: seq<B>, q: B -> bool)
    requires |s| == |t| && forall i :: 0 <= i < |s| && p(s[i]) ==> q(t[i])
    ensures Count(s, p) <= Count(t, q)
  {
    if s != [] {
      assert forall i :: 0 <= i < |s| - 1 ==> s[1..][i] == s[i + 1] && t[1..][i] == t[i + 1];
      assert p(s[0]) ==> q(t[0]);
      CountPointwise(s[1..], p, t[1..], q);
    }
  }

  /** Raising the keys of a sorted list and sorting again: each of the first `w` places holds
      at least the old key of place `w`. */
  lemma RaisedTop<A, B>(s: seq<A>, key: A -> real, t: seq<B>, raised: B -> real, w: nat, i: nat)
    requires Descending(s, key) && |s| == |t| && forall k :: 0 <= k < |s| ==> raised(t[k]) >= key(s[k])
    requires i < w <= |s|
    ensures |Sort(t, raised)| == |t| && raised(Sort(t, raised)[i]) >= key(s[w - 1])
  {
    var c, ranked := key(s[w - 1]), Sort(t, raised);
    SortIs(t, raised);
    if raised(ranked[i]) < c {
      var high, above := (x: A) => key(x) >= c, (y: B) => raised(y) >= c;
      CountFrom(s, high, w);
      CountPointwise(s, high, t, above);
      CountSort(t, raised, above);
      CountBefore(ranked, above, i);
      assert false;
    }
  }
}
