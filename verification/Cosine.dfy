/** Cosine similarity and why it never exceeds one (src/shared/cosine.ts:2-23). */
module Cosines {

  function Dot(a: seq<real>, b: seq<real>): real
    requires |a| == |b|
  {
    if a == [] then 0.0 else a[0] * b[0] + Dot(a[1..], b[1..])
  }

  lemma {:induction false} DotSwap(a: seq<real>, b: seq<real>)
    requires |a| == |b|
    ensures Dot(a, b) == Dot(b, a)
  {
    if a != [] {
      DotSwap(a[1..], b[1..]);
    }
  }

  lemma Square(x: real)
    ensures x * x >= 0.0
  {
  }

  lemma {:induction false} SelfDot(a: seq<real>)
    ensures Dot(a, a) >= 0.0
  {
    if a != [] {
      SelfDot(a[1..]);
      Square(a[0]);
    }
  }

  /** The sum of the squares of `a[i] * t - b[i] * s`. */
  function Spread(a: seq<real>, b: seq<real>, s: real, t: real): real
    requires |a| == |b|
  {
    if a == [] then 0.0
    else (a[0] * t - b[0] * s) * (a[0] * t - b[0] * s) + Spread(a[1..], b[1..], s, t)
  }

  lemma StepIdentity(x: real, y: real, s: real, t: real, aa: real, ab: real, bb: real, a: real, d: real, b: real)
    requires a == x * x + aa && d == x * y + ab && b == y * y + bb
    ensures (x * t - y * s) * (x * t - y * s) + (aa * (t * t) - 2.0 * ab * (s * t) + bb * (s * s))
         == a * (t * t) - 2.0 * d * (s * t) + b * (s * s)
  {
  }

  lemma {:induction false} SpreadIs(a: seq<real>, b: seq<real>, s: real, t: real)
    requires |a| == |b|
    ensures Spread(a, b, s, t) == Dot(a, a) * (t * t) - 2.0 * Dot(a, b) * (s * t) + Dot(b, b) * (s * s)
    ensures Spread(a, b, s, t) >= 0.0
  {
    hide Spread, Dot;
    if a == [] {
      SpreadNone(a, b, s, t);
    } else {
      SpreadIs(a[1..], b[1..], s, t);
      SpreadStep(a, b, s, t);
    }
  }

  lemma SpreadNone(a: seq<real>, b: seq<real>, s: real, t: real)
    requires a == [] && b == []
    ensures Spread(a, b, s, t) == 0.0 == Dot(a, a) * (t * t) - 2.0 * Dot(a, b) * (s * t) + Dot(b, b) * (s * s)
  {
  }

  lemma SpreadStep(a: seq<real>, b: seq<real>, s: real, t: real)
    requires |a| == |b| > 0
    requires var u, v := a[1..], b[1..];
      Spread(u, v, s, t) >= 0.0 && Spread(u, v, s, t) == Dot(u, u) * (t * t) - 2.0 * Dot(u, v) * (s * t) + Dot(v, v) * (s * s)
    ensures Spread(a, b, s, t) == Dot(a, a) * (t * t) - 2.0 * Dot(a, b) * (s * t) + Dot(b, b) * (s * s)
    ensures Spread(a, b, s, t) >= 0.0
  {
    hide Spread, Dot;
    var x, y, u, v := a[0], b[0], a[1..], b[1..];
    Unfold(a, b, s, t);
    Square(x * t - y * s);
    StepIdentity(x, y, s, t, Dot(u, u), Dot(u, v), Dot(v, v), Dot(a, a), Dot(a, b), Dot(b, b));
  }

  lemma Unfold(a: seq<real>, b: seq<real>, s: real, t: real)
    requires |a| == |b| > 0
    ensures Dot(a, a) == a[0] * a[0] + Dot(a[1..], a[1..])
    ensures Dot(a, b) == a[0] * b[0] + Dot(a[1..], b[1..])
    ensures Dot(b, b) == b[0] * b[0] + Dot(b[1..], b[1..])
    ensures Spread(a, b, s, t) == (a[0] * t - b[0] * s) * (a[0] * t - b[0] * s) + Spread(a[1..], b[1..], s, t)
  {
  }

  lemma Positive(x: real, y: real)
    requires x > 0.0 && y > 0.0
    ensures x * y > 0.0
  {
  }

  lemma Cancel(q: real, c: real, p: real)
    requires p > 0.0 && q * p <= c * p
    ensures q <= c
  {
    assert (q - c) * p == q * p - c * p;
    if q > c {
      Positive(q - c, p);
    }
  }

  lemma SquareProduct(s: real, t: real)
    ensures (s * s) * (t * t) == (s * t) * (s * t)
  {
  }

  /** Cauchy-Schwarz, for lengths `s` and `t` that square to the self products. */
  lemma CauchySchwarz(a: seq<real>, b: seq<real>, s: real, t: real)
    requires |a| == |b| && s > 0.0 && t > 0.0 && s * s == Dot(a, a) && t * t == Dot(b, b)
    ensures s * t > 0.0 && -(s * t) <= Dot(a, b) <= s * t
  {
    hide Dot, Spread;
    SpreadIs(a, b, s, t);
    SpreadIs(a, b, -s, t);
    Positive(s, t);
    SquareProduct(s, t);
    SquareProduct(t, s);
    Halves(s, t, Dot(a, b));
    Cancel(Dot(a, b), s * t, s * t);
    Cancel(-(s * t), Dot(a, b), s * t);
  }

  lemma Halves(s: real, t: real, d: real)
    requires s * s * (t * t) - 2.0 * d * (s * t) + t * t * (s * s) >= 0.0
    requires s * s * (t * t) - 2.0 * d * (-s * t) + t * t * (-s * -s) >= 0.0
    ensures d * (s * t) <= (s * t) * (s * t) && -(s * t) * (s * t) <= d * (s * t)
  {
    var p := s * t;
    SquareProduct(s, t);
    SquareProduct(t, s);
    Half(s * s * (t * t), t * t * (s * s), p, d);
    Negated(s, t, d);
    Half(s * s * (t * t), t * t * (-s * -s), -p, d);
  }

  lemma Half(x: real, y: real, p: real, d: real)
    requires x - 2.0 * d * p + y >= 0.0 && x == p * p && y == p * p
    ensures d * p <= p * p
  {
  }

  lemma Negated(s: real, t: real, d: real)
    ensures -s * t == -(s * t) && -s * -s == s * s
    ensures -(s * t) * (s * t) == -((s * t) * (s * t)) && (-(s * t)) * (-(s * t)) == (s * t) * (s * t)
    ensures d * -(s * t) == -(d * (s * t))
  {
  }

  // ---------------------------------------------------------------- the shared similarity

  ghost predicate IsSqrt(sqrt: real -> real) {
    forall x: real :: x >= 0.0 ==> RootOf(sqrt, x)
  }

  ghost predicate RootOf(sqrt: real -> real, x: real) {
    sqrt(x) >= 0.0 && sqrt(x) * sqrt(x) == x
  }

  lemma Lengths(sqrt: real -> real, a: seq<real>)
    requires IsSqrt(sqrt) && Dot(a, a) != 0.0
    ensures sqrt(Dot(a, a)) > 0.0 && sqrt(Dot(a, a)) * sqrt(Dot(a, a)) == Dot(a, a)
  {
    SelfDot(a);
    assert RootOf(sqrt, Dot(a, a));
  }

  lemma LengthProduct(sqrt: real -> real, a: seq<real>, b: seq<real>)
    requires IsSqrt(sqrt) && Dot(a, a) != 0.0 && Dot(b, b) != 0.0
    ensures sqrt(Dot(a, a)) * sqrt(Dot(b, b)) > 0.0
  {
    Lengths(sqrt, a);
    Lengths(sqrt, b);
    Positive(sqrt(Dot(a, a)), sqrt(Dot(b, b)));
  }

  /** The similarity of two vectors of any lengths; 0 when one says nothing. */
  function Similarity(sqrt: real -> real, a: seq<real>, b: seq<real>): real
    requires IsSqrt(sqrt)
  {
    if |a| == 0 || |b| == 0 || |a| != |b| || Dot(a, a) == 0.0 || Dot(b, b) == 0.0 then 0.0
    else
      LengthProduct(sqrt, a, b);
      Dot(a, b) / (sqrt(Dot(a, a)) * sqrt(Dot(b, b)))
  }

  lemma Quotient(d: real, p: real)
    requires p > 0.0 && -p <= d <= p
    ensures -1.0 <= d / p <= 1.0
  {
    var q := d / p;
    assert q * p == d;
    Cancel(q, 1.0, p);
    Cancel(-1.0, q, p);
  }

  lemma Whole(p: real)
    requires p != 0.0
    ensures p / p == 1.0
  {
  }

  /** The similarity is symmetric and within [-1, 1]; a vector that says something is wholly
      similar to itself. */
  lemma SimilarityBounds(sqrt: real -> real, a: seq<real>, b: seq<real>)
    requires IsSqrt(sqrt)
    ensures -1.0 <= Similarity(sqrt, a, b) <= 1.0
    ensures Similarity(sqrt, a, b) == Similarity(sqrt, b, a)
    ensures Dot(a, a) != 0.0 ==> Similarity(sqrt, a, a) == 1.0
  {
    hide IsSqrt, Dot;
    if Dot(a, a) != 0.0 {
      Lengths(sqrt, a);
      NotEmpty(a);
      Whole(Dot(a, a));
    }
    if |a| == |b| {
      DotSwap(a, b);
      if Dot(a, a) != 0.0 && Dot(b, b) != 0.0 {
        Lengths(sqrt, b);
        CauchySchwarz(a, b, sqrt(Dot(a, a)), sqrt(Dot(b, b)));
        Quotient(Dot(a, b), sqrt(Dot(a, a)) * sqrt(Dot(b, b)));
      }
    }
  }

  lemma NotEmpty(a: seq<real>)
    requires Dot(a, a) != 0.0
    ensures |a| > 0
  {
  }

  lemma {:induction false} DotSnoc(a: seq<real>, b: seq<real>, x: real, y: real)
    requires |a| == |b|
    ensures Dot(a + [x], b + [y]) == Dot(a, b) + x * y
  {
    if a == [] {
      assert a + [x] == [x] && b + [y] == [y];
    } else {
      assert (a + [x])[1..] == a[1..] + [x] && (b + [y])[1..] == b[1..] + [y];
      DotSnoc(a[1..], b[1..], x, y);
    }
  }

  /** One loop for the product and both norms. */
  method Products(a: seq<real>, b: seq<real>) returns (dot: real, normA: real, normB: real)
    requires |a| == |b|
    ensures dot == Dot(a, b) && normA == Dot(a, a) && normB == Dot(b, b)
  {
    hide Dot;
    dot, normA, normB := 0.0, 0.0, 0.0;
    var i := 0;
    NoProduct();
    assert a[..0] == [] && b[..0] == [];
    while i < |a|
      invariant 0 <= i <= |a|
      invariant dot == Dot(a[..i], b[..i]) && normA == Dot(a[..i], a[..i]) && normB == Dot(b[..i], b[..i])
    {
      assert a[..i + 1] == a[..i] + [a[i]] && b[..i + 1] == b[..i] + [b[i]];
      DotSnoc(a[..i], b[..i], a[i], b[i]);
      DotSnoc(a[..i], a[..i], a[i], a[i]);
      DotSnoc(b[..i], b[..i], b[i], b[i]);
      dot := dot + a[i] * b[i];
      normA := normA + a[i] * a[i];
      normB := normB + b[i] * b[i];
      i := i + 1;
    }
    assert a[..i] == a && b[..i] == b;
  }

  lemma NoProduct()
    ensures Dot([], []) == 0.0
  {
  }

  method CosineSimilarity(sqrt: real -> real, a: seq<real>, b: seq<real>) returns (c: real)
    requires IsSqrt(sqrt)
    ensures c == Similarity(sqrt, a, b) && -1.0 <= c <= 1.0
  {
    hide IsSqrt, Dot;
    SimilarityBounds(sqrt, a, b);
    if |a| == 0 || |b| == 0 || |a| != |b| {
      return 0.0;
    }
    var dot, normA, normB := Products(a, b);
    if normA == 0.0 || normB == 0.0 {
      return 0.0;
    }
    LengthProduct(sqrt, a, b);
    c := dot / (sqrt(normA) * sqrt(normB));
  }
}
