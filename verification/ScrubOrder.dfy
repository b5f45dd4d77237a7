/** Reading a table in pages: the ids after a cursor, in order
    (scripts/source-layer/privacy-inventory.ts:28-35). */
module ScrubOrder {
  import opened ScrubValues

  predicate IsLeast(env: Env, s: set<string>, m: string) {
    m in s && forall x :: x in s && x != m ==> env.before(m, x)
  }

  lemma {:induction false} LeastExists(env: Env, s: set<string>)
    requires env.Ordered() && s != {}
    ensures exists m :: IsLeast(env, s, m)
    decreases s
  {
    var x :| x in s;
    var rest := s - {x};
    assert forall y :: y in s && y != x ==> y in rest;
    if rest == {} {
      assert IsLeast(env, s, x);
    } else {
      LeastExists(env, rest);
      var m :| IsLeast(env, rest, m);
      if env.before(x, m) {
        assert IsLeast(env, s, x);
      } else {
        assert IsLeast(env, s, m);
      }
    }
  }

  lemma LeastUnique(env: Env, s: set<string>)
    requires env.Ordered()
    ensures forall m, n :: IsLeast(env, s, m) && IsLeast(env, s, n) ==> m == n
  {
  }

  function Least(env: Env, s: set<string>): (m: string)
    requires env.Ordered() && s != {}
    ensures IsLeast(env, s, m)
  {
    LeastExists(env, s);
    assert forall m, n :: IsLeast(env, s, m) && IsLeast(env, s, n) ==> m == n by {
      LeastUnique(env, s);
    }
    var m :| IsLeast(env, s, m);
    m
  }

  function Above(env: Env, s: set<string>, cursor: string): set<string> {
    set x | x in s && env.before(cursor, x)
  }

  lemma AboveShrinks(env: Env, s: set<string>, cursor: string, m: string)
    requires env.Ordered() && IsLeast(env, Above(env, s, cursor), m)
    ensures Above(env, s, m) == Above(env, s, cursor) - {m}
    ensures |Above(env, s, m)| < |Above(env, s, cursor)|
  {
    var a := Above(env, s, cursor);
    forall x: string
      ensures x in Above(env, s, m) <==> x in a && x != m
    {
    }
    assert Above(env, s, m) == a - {m};
  }

  /** All ids after the cursor, least first. */
  function After(env: Env, s: set<string>, cursor: string): (ids: seq<string>)
    requires env.Ordered()
    ensures forall x :: x in ids <==> x in s && env.before(cursor, x)
    decreases |Above(env, s, cursor)|
  {
    var a := Above(env, s, cursor);
    if a == {} then
      assert forall x :: x in s && env.before(cursor, x) ==> x in a;
      []
    else
      var m := Least(env, a);
      AboveShrinks(env, s, cursor, m);
      assert forall x :: x in a <==> x == m || x in Above(env, s, m);
      [m] + After(env, s, m)
  }

  /** The ids after the n-th of a listing are the rest of the listing. */
  lemma {:induction false} AfterRest(env: Env, s: set<string>, cursor: string, n: nat)
    requires env.Ordered() && 0 < n <= |After(env, s, cursor)|
    ensures After(env, s, After(env, s, cursor)[n - 1]) == After(env, s, cursor)[n..]
    decreases n
  {
    var ids := After(env, s, cursor);
    var m := Least(env, Above(env, s, cursor));
    if n > 1 {
      AfterRest(env, s, m, n - 1);
      assert ids[1..] == After(env, s, m);
    }
  }

  /** From the empty cursor the listing is the whole table, each id once. */
  lemma {:induction false} AfterDistinct(env: Env, s: set<string>, cursor: string, i: nat, j: nat)
    requires env.Ordered() && i < j < |After(env, s, cursor)|
    ensures env.before(After(env, s, cursor)[i], After(env, s, cursor)[j])
    ensures After(env, s, cursor)[i] != After(env, s, cursor)[j]
    decreases i
  {
    hide Env.Ordered, IsLeast, Above;
    var ids, m := After(env, s, cursor), After(env, s, cursor)[0];
    AfterRest(env, s, cursor, 1);
    if i == 0 {
      assert ids[j] == ids[1..][j - 1];
      assert ids[1..][j - 1] in After(env, s, m);
      Irreflexive(env, m);
    } else {
      AfterDistinct(env, s, m, i - 1, j - 1);
      assert ids[i] == ids[1..][i - 1] && ids[j] == ids[1..][j - 1];
    }
  }

  lemma Irreflexive(env: Env, a: string)
    requires env.Ordered()
    ensures !env.before(a, a)
  {
  }
}
