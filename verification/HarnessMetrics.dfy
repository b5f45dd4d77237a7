/** The ranking metrics of the Hexis harness (src/hexis/harness-metrics.ts:16-57). */
module HarnessMetrics {
  import opened OrderedMap
  import opened Sequences
  import opened StableSort

  /** `1 / log2(i + 2)`: positive and strictly falling. */
  datatype Discount = Discount(at: nat -> real) {
    ghost predicate Valid() {
      forall i: nat :: Falls(i)
    }

    ghost predicate Falls(i: nat) {
      at(i) > at(i + 1) > 0.0
    }
  }

  const K := 5

  const SELF: real -> real := (x: real) => x

  function Weight(d: Discount, i: nat): real {
    if i < K then d.at(i) else 0.0
  }

  /** The discounted gain of a ranking whose first place is place `i`; places from K on count nothing. */
  function Gain(d: Discount, s: seq<real>, i: nat): real {
    if s == [] then 0.0 else s[0] * Weight(d, i) + Gain(d, s[1..], i + 1)
  }

  function Ideal(s: seq<real>): seq<real> {
    Sort(s, SELF)
  }

  function Ndcg(d: Discount, s: seq<real>): real {
    var dcg, idcg := Gain(d, s, 0), Gain(d, Ideal(s), 0);
    if dcg == 0.0 || idcg == 0.0 then 0.0 else dcg / idcg
  }

  ghost predicate NonNegative(s: seq<real>) {
    forall x :: x in s ==> x >= 0.0
  }

  // ---------------------------------------------------------------- rearrangement

  lemma WeightFalls(d: Discount, i: nat)
    requires d.Valid()
    ensures Weight(d, i) >= Weight(d, i + 1) >= 0.0
    ensures i < K ==> Weight(d, i) > Weight(d, i + 1)
  {
    assert d.Falls(i) && d.Falls(i + 1);
  }

  /** Two places exchanged: the larger value belongs in front. */
  lemma Exchange(x: real, y: real, a: real, b: real)
    requires x <= y && a >= b
    ensures x * a + y * b <= y * a + x * b
    ensures x < y && a > b ==> x * a + y * b < y * a + x * b
  {
    assert (y * a + x * b) - (x * a + y * b) == (y - x) * (a - b);
  }

  /** Gain of a ranking by its first place and the rest. */
  lemma GainCons(d: Discount, x: real, s: seq<real>, i: nat)
    ensures Gain(d, [x] + s, i) == x * Weight(d, i) + Gain(d, s, i + 1)
  {
    assert ([x] + s)[1..] == s;
  }

  lemma GainTwo(d: Discount, x: real, y: real, s: seq<real>, i: nat)
    ensures Gain(d, [x] + ([y] + s), i) == x * Weight(d, i) + y * Weight(d, i + 1) + Gain(d, s, i + 2)
  {
    GainCons(d, x, [y] + s, i);
    GainCons(d, y, s, i + 1);
  }

  lemma {:induction false} InsertGains(d: Discount, x: real, s: seq<real>, i: nat)
    requires d.Valid()
    ensures Gain(d, [x] + s, i) <= Gain(d, Insert(x, s, SELF), i)
    ensures i < K && s != [] && s[0] > x ==> Gain(d, [x] + s, i) < Gain(d, Insert(x, s, SELF), i)
    decreases |s|
  {
    hide Gain, Weight;
    if s != [] && s[0] > x {
      var y, rest := s[0], s[1..];
      var moved := Insert(x, rest, SELF);
      InsertGains(d, x, rest, i + 1);
      WeightFalls(d, i);
      Exchange(x, y, Weight(d, i), Weight(d, i + 1));
      assert s == [y] + rest && Insert(x, s, SELF) == [y] + moved;
      GainTwo(d, x, y, rest, i);
      GainTwo(d, y, x, rest, i);
      GainCons(d, y, moved, i);
      GainCons(d, y, [x] + rest, i);
    } else {
      assert Insert(x, s, SELF) == [x] + s;
    }
  }

  /** The rearrangement inequality for the first K places. */
  lemma {:induction false} IdealIsBest(d: Discount, s: seq<real>, i: nat)
    requires d.Valid()
    ensures Gain(d, s, i) <= Gain(d, Sort(s, SELF), i)
    decreases |s|
  {
    hide Gain, Insert, Weight;
    if s != [] {
      var first, rest, sorted := s[0], s[1..], Sort(s[1..], SELF);
      IdealIsBest(d, rest, i + 1);
      InsertGains(d, first, sorted, i);
      assert s == [first] + rest;
      GainCons(d, first, rest, i);
      GainCons(d, first, sorted, i);
    }
  }

  /** Only a ranking whose counted places are the ideal ones reaches the ideal gain. */
  lemma {:induction false} OnlyIdealIsBest(d: Discount, s: seq<real>, i: nat)
    requires d.Valid() && Gain(d, s, i) == Gain(d, Sort(s, SELF), i)
    ensures |Sort(s, SELF)| == |s| && forall j :: 0 <= j < |s| && i + j < K ==> s[j] == Sort(s, SELF)[j]
    decreases |s|
  {
    hide Gain, Weight;
    SortIs(s, SELF);
    if s != [] && i < K {
      var first, rest, sorted := s[0], s[1..], Sort(s[1..], SELF);
      IdealIsBest(d, rest, i + 1);
      InsertGains(d, first, sorted, i);
      assert s == [first] + rest;
      GainCons(d, first, rest, i);
      GainCons(d, first, sorted, i);
      OnlyIdealIsBest(d, rest, i + 1);
      assert Sort(s, SELF) == [first] + sorted;
      forall j | 0 <= j < |s| && i + j < K
        ensures s[j] == ([first] + sorted)[j]
      {
        assert j > 0 ==> rest[j - 1] == sorted[j - 1];
      }
    }
  }

  lemma {:induction false} GainNonNegative(d: Discount, s: seq<real>, i: nat)
    requires d.Valid() && NonNegative(s)
    ensures Gain(d, s, i) >= 0.0
  {
    if s != [] {
      assert s[0] in s && forall x :: x in s[1..] ==> x in s;
      WeightFalls(d, i);
      Product(s[0], Weight(d, i));
      GainNonNegative(d, s[1..], i + 1);
    }
  }

  lemma Product(x: real, y: real)
    requires x >= 0.0 && y >= 0.0
    ensures x * y >= 0.0
  {
  }

  lemma Ratio(x: real, y: real)
    requires 0.0 <= x <= y && y > 0.0
    ensures 0.0 <= x / y <= 1.0
    ensures x / y == 1.0 <==> x == y
  {
    var q := x / y;
    assert q * y == x;
  }

  /** nDCG lies in [0, 1], and is 1 exactly for a ranking that counts for something and whose
      first K places are those of the ideal order. */
  lemma NdcgBounds(d: Discount, s: seq<real>)
    requires d.Valid() && NonNegative(s)
    ensures 0.0 <= Ndcg(d, s) <= 1.0
    ensures |Ideal(s)| == |s|
    ensures Ndcg(d, s) == 1.0 <==> Gain(d, s, 0) > 0.0 && forall j :: 0 <= j < |s| && j < K ==> s[j] == Ideal(s)[j]
  {
    SortIs(s, SELF);
    GainNonNegative(d, s, 0);
    IdealIsBest(d, s, 0);
    var dcg, idcg := Gain(d, s, 0), Gain(d, Ideal(s), 0);
    if dcg > 0.0 {
      Ratio(dcg, idcg);
      if dcg == idcg {
        OnlyIdealIsBest(d, s, 0);
      }
      if forall j :: 0 <= j < |s| && j < K ==> s[j] == Ideal(s)[j] {
        SameGain(d, s, Ideal(s), 0);
      }
    }
  }

  lemma {:induction false} SameGain(d: Discount, s: seq<real>, t: seq<real>, i: nat)
    requires |s| == |t| && forall j :: 0 <= j < |s| && i + j < K ==> s[j] == t[j]
    ensures Gain(d, s, i) == Gain(d, t, i)
  {
    if s != [] {
      assert forall j :: 0 <= j < |s| - 1 ==> s[1..][j] == s[j + 1] && t[1..][j] == t[j + 1];
      assert i + 0 < K ==> s[0] == t[0];
      SameGain(d, s[1..], t[1..], i + 1);
    }
  }

  // ---------------------------------------------------------------- fixing an inversion

  lemma {:induction false} SortOfSame(s: seq<real>, t: seq<real>)
    requires Descending(s, SELF) && Descending(t, SELF) && multiset(s) == multiset(t)
    ensures s == t
    decreases |s|
  {
    assert |multiset(s)| == |s| && |multiset(t)| == |t|;
    if s != [] {
      Highest(s, t);
      Highest(t, s);
      assert s[0] == t[0];
      assert s == [s[0]] + s[1..] && t == [t[0]] + t[1..];
      assert multiset(s[1..]) == multiset(s) - multiset{s[0]};
      assert multiset(t[1..]) == multiset(t) - multiset{t[0]};
      SortOfSame(s[1..], t[1..]);
    }
  }

  lemma Highest(s: seq<real>, t: seq<real>)
    requires Descending(t, SELF) && multiset(s) == multiset(t) && s != [] && t != []
    ensures s[0] <= t[0]
  {
    assert s[0] in multiset(t);
    var k :| 0 <= k < |t| && t[k] == s[0];
    assert k == 0 || SELF(t[0]) >= SELF(t[k]);
  }

  lemma {:induction false} GainAt(d: Discount, s: seq<real>, i: nat, j: nat, v: real)
    requires j < |s|
    ensures Gain(d, s[j := v], i) == Gain(d, s, i) + (v - s[j]) * Weight(d, i + j)
    decreases j
  {
    hide Weight;
    if j > 0 {
      assert s[j := v][0] == s[0] && s[j := v][1..] == s[1..][j - 1 := v] && s[1..][j - 1] == s[j];
      GainAt(d, s[1..], i + 1, j - 1, v);
      assert i + 1 + (j - 1) == i + j;
    } else {
      assert s[0 := v][0] == v && s[0 := v][1..] == s[1..];
      Distributes(v, s[0], Weight(d, i));
    }
  }

  lemma Distributes(v: real, x: real, w: real)
    ensures v * w == x * w + (v - x) * w
  {
  }

  lemma {:induction false} WeightOrder(d: Discount, i: nat, j: nat)
    requires d.Valid() && i < j
    ensures Weight(d, i) >= Weight(d, j)
    ensures i < K ==> Weight(d, i) > Weight(d, j)
    decreases j
  {
    WeightFalls(d, j - 1);
    if i < j - 1 {
      WeightOrder(d, i, j - 1);
    }
  }

  lemma SwapGains(d: Discount, s: seq<real>, i: nat, j: nat)
    requires d.Valid() && i < j < |s| && s[i] < s[j]
    ensures var t := s[i := s[j]][j := s[i]];
      Gain(d, s, 0) <= Gain(d, t, 0) && (i < K ==> Gain(d, s, 0) < Gain(d, t, 0))
  {
    hide Gain, Weight;
    var u := s[i := s[j]];
    GainAt(d, s, 0, i, s[j]);
    GainAt(d, u, 0, j, s[i]);
    WeightOrder(d, i, j);
    Exchange(s[i], s[j], Weight(d, i), Weight(d, j));
    var a, b := Weight(d, i), Weight(d, j);
    assert (s[j] - s[i]) * a + (s[i] - s[j]) * b == (s[j] * a + s[i] * b) - (s[i] * a + s[j] * b);
  }

  lemma SwapSame(s: seq<real>, i: nat, j: nat)
    requires i < j < |s|
    ensures Sort(s[i := s[j]][j := s[i]], SELF) == Sort(s, SELF)
    ensures NonNegative(s) ==> NonNegative(s[i := s[j]][j := s[i]])
  {
    hide Sort;
    var t := s[i := s[j]][j := s[i]];
    assert multiset(t) == multiset(s);
    SortIs(s, SELF);
    SortIs(t, SELF);
    SortOfSame(Sort(s, SELF), Sort(t, SELF));
    if NonNegative(s) {
      forall x | x in t
        ensures x >= 0.0
      {
        assert x in multiset(s) && x in s;
      }
    }
  }

  /** Moving the more relevant of two results forward never lowers nDCG; inside the counted
      places it raises it. */
  lemma FixInversion(d: Discount, s: seq<real>, i: nat, j: nat)
    requires d.Valid() && NonNegative(s) && i < j < |s| && s[i] < s[j]
    ensures var t := s[i := s[j]][j := s[i]];
      Ndcg(d, s) <= Ndcg(d, t) && (i < K ==> Ndcg(d, s) < Ndcg(d, t))
  {
    hide Gain, Sort, NonNegative;
    var t := s[i := s[j]][j := s[i]];
    SwapGains(d, s, i, j);
    SwapSame(s, i, j);
    GainNonNegative(d, s, 0);
    GainNonNegative(d, t, 0);
    IdealIsBest(d, t, 0);
    var low, high, idcg := Gain(d, s, 0), Gain(d, t, 0), Gain(d, Ideal(s), 0);
    if high > 0.0 {
      Scale(low, high, idcg);
    }
  }

  lemma Product2(x: real, y: real)
    requires x > 0.0 && y > 0.0
    ensures x * y > 0.0
  {
  }

  lemma Scale(x: real, y: real, z: real)
    requires x <= y && z > 0.0
    ensures x / z <= y / z && (x < y ==> x / z < y / z)
  {
    var p, q := x / z, y / z;
    assert p * z == x && q * z == y;
    if p > q {
      Product2(p - q, z);
    }
  }

  // ---------------------------------------------------------------- the loops

  lemma {:induction false} GainSnoc(d: Discount, s: seq<real>, x: real, i: nat)
    ensures Gain(d, s + [x], i) == Gain(d, s, i) + x * Weight(d, i + |s|)
  {
    if s == [] {
      assert s + [x] == [x];
    } else {
      assert (s + [x])[1..] == s[1..] + [x];
      GainSnoc(d, s[1..], x, i + 1);
    }
  }

  lemma {:induction false} GainTop(d: Discount, s: seq<real>, i: nat)
    requires i <= K
    ensures Gain(d, s, i) == Gain(d, if |s| > K - i then s[..K - i] else s, i)
    decreases |s|
  {
    if |s| > K - i {
      if i == K {
        GainNothing(d, s, i);
      } else {
        assert s[..K - i][1..] == s[1..][..K - i - 1];
        GainTop(d, s[1..], i + 1);
      }
    }
  }

  lemma {:induction false} GainNothing(d: Discount, s: seq<real>, i: nat)
    requires i >= K
    ensures Gain(d, s, i) == 0.0
  {
    if s != [] {
      GainNothing(d, s[1..], i + 1);
    }
  }

  method TopGain(d: Discount, s: seq<real>) returns (gain: real)
    ensures gain == Gain(d, s, 0)
  {
    var top := if |s| > K then s[..K] else s;
    GainTop(d, s, 0);
    gain := 0.0;
    var i := 0;
    while i < |top|
      invariant 0 <= i <= |top| && gain == Gain(d, top[..i], 0)
    {
      assert top[..i + 1] == top[..i] + [top[i]];
      GainSnoc(d, top[..i], top[i], 0);
      gain := gain + top[i] * d.at(i);
      i := i + 1;
    }
    assert top[..i] == top;
  }

  method NdcgAt5(d: Discount, ranking: seq<real>) returns (ndcg: real)
    ensures ndcg == Ndcg(d, ranking)
  {
    if |ranking| == 0 {
      return 0.0;
    }
    var dcg := TopGain(d, ranking);
    if dcg == 0.0 {
      return 0.0;
    }
    var idcg := TopGain(d, Ideal(ranking));
    if idcg == 0.0 {
      return 0.0;
    }
    ndcg := dcg / idcg;
  }

  // ---------------------------------------------------------------- boundary flips

  function Min3(a: int, b: nat, c: nat): int {
    var m := if b < c then b else c;
    if a < m then a else m
  }

  /** The ids that entered the window, per place of the window. */
  function FlipRate(baseline: seq<string>, reranked: seq<string>, windowSize: int): real {
    var w := Min3(windowSize, |baseline|, |reranked|);
    if w <= 0 then 0.0 else |SetOf(reranked[..w]) - SetOf(baseline[..w])| as real / w as real
  }

  lemma TakeOne(left: set<string>, base: set<string>, id: string)
    requires id in left
    ensures |left - base| == |left - {id} - base| + if id in base then 0 else 1
  {
    if id in base {
      assert left - {id} - base == left - base;
    } else {
      assert left - base == (left - {id} - base) + {id};
    }
  }

  method BoundaryFlipRate(baseline: seq<string>, reranked: seq<string>, windowSize: int) returns (rate: real)
    ensures rate == FlipRate(baseline, reranked, windowSize)
  {
    if windowSize <= 0 || |baseline| == 0 || |reranked| == 0 {
      return 0.0;
    }
    var w := Min3(windowSize, |baseline|, |reranked|);
    var baselineSet, rerankedSet := SetOf(baseline[..w]), SetOf(reranked[..w]);
    var changed, left := 0, rerankedSet;
    while left != {}
      invariant left <= rerankedSet
      invariant changed + |left - baselineSet| == |rerankedSet - baselineSet|
      decreases left
    {
      var id :| id in left;
      TakeOne(left, baselineSet, id);
      left := left - {id};
      if id !in baselineSet {
        changed := changed + 1;
      }
    }
    rate := changed as real / w as real;
  }

  lemma SetCut(a: set<string>, b: set<string>)
    ensures |a - b| + |a * b| == |a|
  {
    assert a == (a - b) + (a * b);
  }

  lemma SameSets(a: set<string>, b: set<string>)
    requires |a - b| == |b - a|
    ensures |b - a| == 0 <==> a == b
  {
    if |b - a| == 0 {
      assert b - a == {} && a - b == {};
      assert a == b;
    }
  }

  /** The rate lies in [0, 1]; over windows without repeats it does not depend on which
      ranking is the baseline, and is 0 exactly when both windows hold the same ids. */
  lemma FlipRateBounds(a: seq<string>, b: seq<string>, windowSize: int)
    ensures 0.0 <= FlipRate(a, b, windowSize) <= 1.0
    ensures Distinct(a) && Distinct(b) ==> FlipRate(a, b, windowSize) == FlipRate(b, a, windowSize)
    ensures var w := Min3(windowSize, |a|, |b|);
      Distinct(a) && Distinct(b) && w > 0 ==> (FlipRate(a, b, windowSize) == 0.0 <==> SetOf(a[..w]) == SetOf(b[..w]))
  {
    var w := Min3(windowSize, |a|, |b|);
    if w > 0 {
      hide Min3, Distinct;
      var s, t := SetOf(a[..w]), SetOf(b[..w]);
      SetSize(a[..w]);
      SetSize(b[..w]);
      SetCut(s, t);
      SetCut(t, s);
      assert s * t == t * s;
      Ratio(|t - s| as real, w as real);
      if Distinct(a) && Distinct(b) {
        DistinctPrefix(a, w);
        DistinctPrefix(b, w);
        SameSets(s, t);
      }
    }
  }

  /** The rate counts, per place of the compared window, the ids of the reranked one that are not in the
      baseline's. */
  lemma FlipsCounted(a: seq<string>, b: seq<string>, windowSize: int, w: nat)
    requires 0 < w <= windowSize && w <= |a| && w <= |b| && (w == windowSize || w == |a| || w == |b|)
    ensures FlipRate(a, b, windowSize) == |set id | id in b[..w] && id !in a[..w]| as real / w as real
  {
    RateIs(a, b, windowSize, w);
    EnteredIs(a[..w], b[..w]);
    hide FlipRate, SetOf;
  }

  lemma RateIs(a: seq<string>, b: seq<string>, windowSize: int, w: nat)
    requires 0 < w <= windowSize && w <= |a| && w <= |b| && (w == windowSize || w == |a| || w == |b|)
    ensures FlipRate(a, b, windowSize) == |SetOf(b[..w]) - SetOf(a[..w])| as real / w as real
  {
    hide SetOf;
    LeastIs(windowSize, |a|, |b|, w);
  }

  lemma LeastIs(a: int, b: nat, c: nat, w: nat)
    requires w <= a && w <= b && w <= c && (w == a || w == b || w == c)
    ensures Min3(a, b, c) == w
  {
  }

  lemma EnteredIs(a: seq<string>, b: seq<string>)
    ensures SetOf(b) - SetOf(a) == set id | id in b && id !in a
  {
  }

  lemma DistinctPrefix(a: seq<string>, w: nat)
    requires Distinct(a) && w <= |a|
    ensures Distinct(a[..w])
  {
  }
}
