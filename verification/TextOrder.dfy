/** The default order of `Array.prototype.sort` on texts, by their UTF-16 code units. */
module TextOrder {

  /** The first of the one or two UTF-16 code units of a character. */
  function FirstUnit(c: char): int {
    if c as int < 0x10000 then c as int else 0xD800 + (c as int - 0x10000) / 0x400
  }

  predicate UnitsLess(a: char, b: char) {
    FirstUnit(a) < FirstUnit(b) || (FirstUnit(a) == FirstUnit(b) && a < b)
  }

  lemma UnitsTotal(a: char, b: char)
    ensures a == b || UnitsLess(a, b) || UnitsLess(b, a)
    ensures UnitsLess(a, b) ==> a != b && !UnitsLess(b, a)
  {
  }

  function Less(a: string, b: string): bool {
    if b == [] then false
    else if a == [] then true
    else UnitsLess(a[0], b[0]) || (a[0] == b[0] && Less(a[1..], b[1..]))
  }

  lemma {:induction false} LessTotal(a: string, b: string)
    ensures !Less(a, a)
    ensures a != b ==> Less(a, b) || Less(b, a)
    ensures Less(a, b) ==> a != b && !Less(b, a)
    decreases |a|
  {
    if a != [] {
      LessTotal(a[1..], a[1..]);
      if b != [] {
        UnitsTotal(a[0], b[0]);
        LessTotal(a[1..], b[1..]);
        if a[0] == b[0] && a[1..] == b[1..] {
          assert a == [a[0]] + a[1..] && b == [b[0]] + b[1..];
        }
      }
    }
  }

  lemma {:induction false} LessTransitive(a: string, b: string, c: string)
    requires Less(a, b) && Less(b, c)
    ensures Less(a, c)
    decreases |a|
  {
    if a != [] && a[0] == b[0] == c[0] {
      LessTransitive(a[1..], b[1..], c[1..]);
    }
  }

  /** Characters up to U+D7FF come first, then those outside the basic plane, then the rest of it. */
  predicate Earlier(a: char, b: char) {
    if a as int < 0x10000 && b as int < 0x10000 then a < b
    else if a as int >= 0x10000 && b as int >= 0x10000 then a < b
    else if a as int < 0x10000 then a as int < 0xD800
    else b as int >= 0xE000
  }

  lemma UnitsEarlier(a: char, b: char)
    ensures UnitsLess(a, b) <==> Earlier(a, b)
  {
    if a as int >= 0x10000 && b as int >= 0x10000 && a < b {
      assert (a as int - 0x10000) / 0x400 <= (b as int - 0x10000) / 0x400;
    }
  }

  /** At the first place where they differ `a` has ended or has the earlier character. */
  ghost predicate Precedes(a: string, b: string) {
    exists k: nat :: PrecedesAt(a, b, k)
  }

  predicate PrecedesAt(a: string, b: string, k: nat) {
    k <= |a| && k < |b| && a[..k] == b[..k] && (k == |a| || Earlier(a[k], b[k]))
  }

  lemma {:induction false} LessPrecedes(a: string, b: string)
    ensures Less(a, b) <==> Precedes(a, b)
    decreases |a|
  {
    hide UnitsLess, Earlier;
    if a == [] {
      assert b != [] ==> PrecedesAt(a, b, 0);
    } else if b != [] {
      UnitsEarlier(a[0], b[0]);
      LessPrecedes(a[1..], b[1..]);
      if UnitsLess(a[0], b[0]) {
        assert PrecedesAt(a, b, 0);
      } else if a[0] == b[0] && Less(a[1..], b[1..]) {
        var k: nat :| PrecedesAt(a[1..], b[1..], k);
        assert a[..k + 1] == [a[0]] + a[1..][..k] && b[..k + 1] == [b[0]] + b[1..][..k];
        assert PrecedesAt(a, b, k + 1);
      }
      if k: nat :| PrecedesAt(a, b, k) && k > 0 {
        assert a[..k][0] == b[..k][0] && a[..k][1..] == a[1..][..k - 1] && b[..k][1..] == b[1..][..k - 1];
        assert PrecedesAt(a[1..], b[1..], k - 1);
      }
    }
  }

  /** A list in strict order of its keys. */
  ghost predicate Ascending<T>(s: seq<T>, key: T -> string) {
    s == [] || ((forall y :: y in s[1..] ==> Less(key(s[0]), key(y))) && Ascending(s[1..], key))
  }

  /** Inserts by key; an element whose key is there already is dropped. */
  function Insert<T>(x: T, s: seq<T>, key: T -> string): seq<T> {
    if s == [] || Less(key(x), key(s[0])) then [x] + s
    else if key(x) == key(s[0]) then s
    else [s[0]] + Insert(x, s[1..], key)
  }

  function SortUnique<T>(s: seq<T>, key: T -> string): seq<T> {
    if s == [] then [] else Insert(s[0], SortUnique(s[1..], key), key)
  }

  lemma {:induction false} InsertIs<T>(x: T, s: seq<T>, key: T -> string)
    requires Ascending(s, key)
    ensures Ascending(Insert(x, s, key), key)
    ensures forall y :: y in Insert(x, s, key) ==> y == x || y in s
    ensures forall y :: y in s ==> y in Insert(x, s, key)
    ensures (forall y :: y in s ==> key(y) != key(x)) ==> x in Insert(x, s, key)
  {
    if s != [] {
      var first, rest := s[0], s[1..];
      assert s == [first] + rest;
      LessTotal(key(x), key(first));
      if Less(key(x), key(first)) {
        forall y | y in s
          ensures Less(key(x), key(y))
        {
          if y in rest {
            LessTransitive(key(x), key(first), key(y));
          }
        }
        assert ([x] + s)[1..] == s;
      } else if key(x) != key(first) {
        InsertIs(x, rest, key);
        var moved := Insert(x, rest, key);
        assert Insert(x, s, key) == [first] + moved;
        assert ([first] + moved)[1..] == moved;
      }
    }
  }

  ghost predicate DistinctKeys<T>(s: seq<T>, key: T -> string) {
    forall i, j :: 0 <= i < j < |s| ==> key(s[i]) != key(s[j])
  }

  /** The result is in order; of distinct keys nothing is lost. */
  lemma {:induction false} SortUniqueIs<T>(s: seq<T>, key: T -> string)
    ensures Ascending(SortUnique(s, key), key)
    ensures forall y :: y in SortUnique(s, key) ==> y in s
    ensures DistinctKeys(s, key) ==> forall y :: y in s ==> y in SortUnique(s, key)
  {
    if s != [] {
      assert s == [s[0]] + s[1..];
      SortUniqueIs(s[1..], key);
      InsertIs(s[0], SortUnique(s[1..], key), key);
    }
  }

  /** Sorting what is in order changes nothing. */
  lemma {:induction false} SortUniqueAgain<T>(s: seq<T>, key: T -> string)
    requires Ascending(s, key)
    ensures SortUnique(s, key) == s
  {
    if s != [] {
      SortUniqueAgain(s[1..], key);
      if s[1..] != [] {
        assert s[1] in s[1..];
      }
      assert s == [s[0]] + s[1..];
    }
  }

  lemma SameHead<T>(s: seq<T>, t: seq<T>, key: T -> string)
    requires Ascending(s, key) && Ascending(t, key) && s != []
    requires forall y :: y in s <==> y in t
    ensures t != [] && s[0] == t[0]
  {
    assert s[0] in s && s[0] in t;
    assert t[0] in t && t[0] in s;
    assert s == [s[0]] + s[1..] && t == [t[0]] + t[1..];
    LessTotal(key(s[0]), key(t[0]));
  }

  /** A list in strict order is determined by its elements. */
  lemma {:induction false} AscendingUnique<T>(s: seq<T>, t: seq<T>, key: T -> string)
    requires Ascending(s, key) && Ascending(t, key)
    requires forall y :: y in s <==> y in t
    ensures s == t
  {
    if s != [] {
      SameHead(s, t, key);
      assert s == [s[0]] + s[1..] && t == [t[0]] + t[1..];
      LessTotal(key(s[0]), key(s[0]));
      forall y
        ensures y in s[1..] <==> y in t[1..]
      {
        if y in s[1..] {
          assert y in s && y in t && y != s[0];
        }
        if y in t[1..] {
          assert y in t && y in s && y != s[0];
        }
      }
      AscendingUnique(s[1..], t[1..], key);
    } else if t != [] {
      SameHead(t, s, key);
    }
  }
}
