/** Bounded reranking: the ambiguity gate, the reorder window and the boost
    (src/hexis/runtime-hexis.ts:262-446, src/recall/policy/retrieval-controller.ts:127-133). */
module HexisRerank {
  import opened StableSort

  datatype Hit = Hit(id: string, score: real, body: string)

  /** A hit after the boost; `score` is the post-Hexis score. */
  datatype Ranked = Ranked(hit: Hit, score: real, mode: nat)

  datatype Options = Options(maxRankWindow: int, scoreEpsilon: real, gateEpsilon: real, lambda: real,
                             laneLambda: real, gateDisabled: bool, calibDisabled: bool)

  /** What a Hexis state contributes: a fit per hit and its match weight. `calibrate` stands
      for the sigmoid. */
  datatype Hexis = Hexis(signal: bool, fit: Hit -> real, calibrate: real -> real, matchWeight: real) {
    ghost predicate Valid() {
      forall x :: Unit(x)
    }

    ghost predicate Unit(x: real) {
      0.0 <= calibrate(x) <= 1.0
    }
  }

  function Clamp01(x: real): (r: real)
    ensures 0.0 <= r <= 1.0
    ensures 0.0 <= x <= 1.0 ==> r == x
  {
    if x < 0.0 then 0.0 else if x > 1.0 then 1.0 else x
  }

  function Max0(x: real): real {
    if x > 0.0 then x else 0.0
  }

  function Width(o: Options): (w: nat)
    ensures w >= 1
  {
    if o.maxRankWindow > 1 then o.maxRankWindow else 1
  }

  const SCORE: Hit -> real := (h: Hit) => h.score

  function SortHits(hits: seq<Hit>): (s: seq<Hit>)
    ensures |s| == |hits|
  {
    SortIs(hits, SCORE);
    Sort(hits, SCORE)
  }

  /** In a ranked list: the score gap between the last hit inside the window and the first outside. */
  function GapOf(s: seq<Hit>, w: nat): real
    requires 1 <= w < |s|
  {
    Max0(s[w - 1].score - s[w].score)
  }

  function Gap(hits: seq<Hit>, w: nat): real
    requires 1 <= w < |hits|
  {
    GapOf(SortHits(hits), w)
  }

  function GateOf(count: nat, gap: real, o: Options): real {
    var w, epsilon := Width(o), Max0(o.gateEpsilon);
    if o.gateDisabled then 1.0
    else if count == 0 then 0.0
    else if count < w + 1 then 1.0
    else if epsilon <= 0.0 then (if gap <= 0.0 then 1.0 else 0.0)
    else if gap <= epsilon then 1.0
    else if gap >= 4.0 * epsilon then 0.0
    else Clamp01((4.0 * epsilon - gap) / (3.0 * epsilon))
  }

  /** computeAmbiguityGate. */
  function Gate(hits: seq<Hit>, o: Options): real {
    GateOf(|hits|, if |hits| > Width(o) then Gap(hits, Width(o)) else 0.0, o)
  }

  function Cutoff(s: seq<Hit>, o: Options): real {
    if s == [] then 0.0 else s[if |s| < Width(o) then |s| - 1 else Width(o) - 1].score
  }

  /** In a ranked list: the top of the window and everything within epsilon of its last hit. */
  function WindowOf(s: seq<Hit>, o: Options): set<string> {
    set i | 0 <= i < |s| && (i < Width(o) || s[i].score >= Cutoff(s, o) - Max0(o.scoreEpsilon)) :: s[i].id
  }

  /** resolveHexisReorderWindow: the ids the boost may touch. */
  function Window(hits: seq<Hit>, o: Options): set<string> {
    WindowOf(SortHits(hits), o)
  }

  function Boost(h: Hit, hexis: Hexis, o: Options, gate: real): real {
    if gate <= 0.0 && !o.gateDisabled then 0.0
    else
      var fit := hexis.fit(h);
      gate * o.lambda * (if o.calibDisabled then Clamp01(fit) else hexis.calibrate(fit)) * Clamp01(hexis.matchWeight) * 0.25
  }

  function Mode(o: Options, gate: real): nat {
    if gate <= 0.0 && !o.gateDisabled then 2
    else if o.gateDisabled then 3
    else if o.calibDisabled then 4
    else 0
  }

  function ApplyOne(h: Hit, hexis: Hexis, o: Options, gate: real, window: set<string>): Ranked {
    if o.laneLambda == 0.0 then Ranked(h, h.score, 1)
    else if !hexis.signal then Ranked(h, h.score, 5)
    else if h.id !in window then Ranked(h, h.score, if gate <= 0.0 then 2 else 0)
    else Ranked(h, h.score + Boost(h, hexis, o, gate), Mode(o, gate))
  }

  /** applyHexisToHits. */
  function ApplyHexis(hits: seq<Hit>, hexis: Hexis, o: Options): seq<Ranked> {
    var gate, window := Gate(hits, o), Window(hits, o);
    Map((h: Hit) => ApplyOne(h, hexis, o, gate, window), hits)
  }

  const POST: Ranked -> real := (r: Ranked) => r.score

  /** Rank, boost, rank again. */
  function Rerank(hits: seq<Hit>, hexis: Hexis, o: Options): seq<Ranked> {
    Sort(ApplyHexis(SortHits(hits), hexis, o), POST)
  }

  // ---------------------------------------------------------------- gate and boost

  /** The gate is a number in [0, 1] that falls as the boundary gap grows: fully open up to
      epsilon, fully closed from four epsilon on. */
  lemma GateBounds(hits: seq<Hit>, o: Options)
    ensures 0.0 <= Gate(hits, o) <= 1.0
    ensures !o.gateDisabled && |hits| > Width(o) && o.gateEpsilon > 0.0 ==>
      && (Gate(hits, o) == 1.0 <==> Gap(hits, Width(o)) <= o.gateEpsilon)
      && (Gate(hits, o) == 0.0 <==> Gap(hits, Width(o)) >= 4.0 * o.gateEpsilon)
  {
    if !o.gateDisabled && |hits| > Width(o) && o.gateEpsilon > 0.0 {
      var gap, e := Gap(hits, Width(o)), o.gateEpsilon;
      if e < gap < 4.0 * e {
        Between(4.0 * e - gap, 3.0 * e);
      }
    }
  }

  lemma Between(x: real, d: real)
    requires 0.0 < x < d
    ensures 0.0 < x / d < 1.0
  {
    var q := x / d;
    assert q * d == x;
    if q >= 1.0 {
      MulMonotone(1.0, q, d);
    }
  }

  /** A wider gap never opens the gate. */
  lemma GateFalls(a: seq<Hit>, b: seq<Hit>, o: Options)
    requires |a| > Width(o) && |b| > Width(o) && Gap(a, Width(o)) <= Gap(b, Width(o))
    ensures Gate(a, o) >= Gate(b, o)
  {
    GateBounds(a, o);
    GateBounds(b, o);
    var g, h, e := Gap(a, Width(o)), Gap(b, Width(o)), o.gateEpsilon;
    if e > 0.0 && e < g && h < 4.0 * e {
      DivMonotone(4.0 * e - h, 4.0 * e - g, 3.0 * e);
      Between(4.0 * e - g, 3.0 * e);
      Between(4.0 * e - h, 3.0 * e);
    }
  }

  lemma DivMonotone(x: real, y: real, d: real)
    requires x <= y && d > 0.0
    ensures x / d <= y / d
  {
    assert x / d == x * (1.0 / d) && y / d == y * (1.0 / d);
    MulMonotone(x, y, 1.0 / d);
  }

  lemma MulMonotone(x: real, y: real, z: real)
    requires x <= y && z >= 0.0
    ensures x * z <= y * z
  {
  }

  /** The largest boost any hit can receive. */
  function MaxBoost(hits: seq<Hit>, o: Options): real {
    Gate(hits, o) * o.lambda * 0.25
  }

  lemma ProductSign(x: real, y: real)
    requires x >= 0.0 && y >= 0.0
    ensures x * y >= 0.0
  {
  }

  lemma ProductShrinks(x: real, f: real)
    requires x >= 0.0 && 0.0 <= f <= 1.0
    ensures 0.0 <= x * f <= x
  {
  }

  lemma BoostBounds(h: Hit, hexis: Hexis, o: Options, gate: real)
    requires hexis.Valid() && o.lambda >= 0.0 && 0.0 <= gate <= 1.0
    ensures 0.0 <= Boost(h, hexis, o, gate) <= gate * o.lambda * 0.25
  {
    var top := gate * o.lambda;
    ProductSign(gate, o.lambda);
    var f := if o.calibDisabled then Clamp01(hexis.fit(h)) else hexis.calibrate(hexis.fit(h));
    var m := Clamp01(hexis.matchWeight);
    assert hexis.Unit(hexis.fit(h));
    ProductShrinks(top, f);
    ProductShrinks(top * f, m);
    var b := top * f * m;
    assert 0.0 <= b <= top;
    assert Boost(h, hexis, o, gate) == if gate <= 0.0 && !o.gateDisabled then 0.0 else b * 0.25;
  }

  /** Every hit's score rises by at most the largest boost; outside the window not at all. */
  lemma ApplyBounds(hits: seq<Hit>, hexis: Hexis, o: Options, i: nat)
    requires hexis.Valid() && o.lambda >= 0.0 && i < |hits|
    ensures var r := ApplyHexis(hits, hexis, o)[i];
      && r.hit == hits[i]
      && hits[i].score <= r.score <= hits[i].score + MaxBoost(hits, o)
      && (hits[i].id !in Window(hits, o) ==> r.score == hits[i].score)
  {
    GateBounds(hits, o);
    var gate := Gate(hits, o);
    BoostBounds(hits[i], hexis, o, gate);
  }

  lemma ApplyAll(hits: seq<Hit>, hexis: Hexis, o: Options, r: Ranked)
    requires hexis.Valid() && o.lambda >= 0.0 && r in ApplyHexis(hits, hexis, o)
    ensures r.hit in hits && r.hit.score <= r.score <= r.hit.score + MaxBoost(hits, o)
    ensures r.hit.id !in Window(hits, o) ==> r.score == r.hit.score
  {
    var i :| 0 <= i < |hits| && ApplyHexis(hits, hexis, o)[i] == r;
    ApplyBounds(hits, hexis, o, i);
  }

  // ---------------------------------------------------------------- what reranking can move

  lemma SortedTwice(hits: seq<Hit>, o: Options)
    ensures SortHits(SortHits(hits)) == SortHits(hits)
    ensures Window(SortHits(hits), o) == Window(hits, o)
    ensures Gate(SortHits(hits), o) == Gate(hits, o)
  {
    hide WindowOf, GateOf, Sort, Width, GapOf;
    SortIs(hits, SCORE);
    SortSorted(SortHits(hits), SCORE);
  }

  lemma RerankFrom(hits: seq<Hit>, hexis: Hexis, o: Options, i: nat)
    requires hexis.Valid() && o.lambda >= 0.0 && i < |Rerank(hits, hexis, o)|
    ensures var r, s := Rerank(hits, hexis, o)[i], SortHits(hits);
      && r in ApplyHexis(s, hexis, o) && r.hit in hits
      && r.hit.score <= r.score <= r.hit.score + MaxBoost(s, o)
      && (r.hit.id !in Window(s, o) ==> r.score == r.hit.score)
  {
    var s := SortHits(hits);
    var out := ApplyHexis(s, hexis, o);
    SortIs(out, POST);
    SortIs(hits, SCORE);
    assert Rerank(hits, hexis, o)[i] in multiset(Rerank(hits, hexis, o));
    ApplyAll(s, hexis, o, Rerank(hits, hexis, o)[i]);
    assert Rerank(hits, hexis, o)[i].hit in multiset(s);
  }

  /** Two hits whose scores differ by more than the largest boost never swap. */
  lemma NoFarSwap(hits: seq<Hit>, hexis: Hexis, o: Options, i: nat, j: nat)
    requires hexis.Valid() && o.lambda >= 0.0 && i < j < |Rerank(hits, hexis, o)|
    ensures var r := Rerank(hits, hexis, o);
      r[j].hit.score <= r[i].hit.score + MaxBoost(hits, o)
  {
    hide Window, Gate, Sort, MaxBoost;
    MaxBoostTwice(hits, o);
    SortIs(ApplyHexis(SortHits(hits), hexis, o), POST);
    RerankFrom(hits, hexis, o, i);
    RerankFrom(hits, hexis, o, j);
    assert POST(Rerank(hits, hexis, o)[i]) >= POST(Rerank(hits, hexis, o)[j]);
  }

  /** A closed gate, no signal or a zero lane weight leave the ranking as it was. */
  lemma ClosedGateKeepsRanking(hits: seq<Hit>, hexis: Hexis, o: Options)
    requires hexis.Valid() && o.lambda >= 0.0
    requires MaxBoost(hits, o) == 0.0 || !hexis.signal || o.laneLambda == 0.0
    ensures Map((r: Ranked) => r.hit, Rerank(hits, hexis, o)) == SortHits(hits)
  {
    hide Window, Gate, Gap, Sort, Width;
    var s := SortHits(hits);
    var out := ApplyHexis(s, hexis, o);
    SortIs(hits, SCORE);
    SortedTwice(hits, o);
    forall i | 0 <= i < |s|
      ensures out[i].hit == s[i] && POST(out[i]) == s[i].score
    {
      ApplyBounds(s, hexis, o, i);
    }
    SortSorted(out, POST);
    assert Map((r: Ranked) => r.hit, out) == s;
  }

  /** The reranked list's first W scores are at least the W-th score before. */
  lemma TopScores(hits: seq<Hit>, hexis: Hexis, o: Options, i: nat)
    requires hexis.Valid() && o.lambda >= 0.0 && i < Width(o) <= |hits|
    ensures |Rerank(hits, hexis, o)| == |hits|
    ensures Rerank(hits, hexis, o)[i].score >= SortHits(hits)[Width(o) - 1].score
  {
    var s := SortHits(hits);
    var out := ApplyHexis(s, hexis, o);
    SortIs(hits, SCORE);
    forall k | 0 <= k < |s|
      ensures POST(out[k]) >= SCORE(s[k])
    {
      ApplyBounds(s, hexis, o, k);
    }
    RaisedTop(s, SCORE, out, POST, Width(o), i);
  }

  lemma WindowIs(hits: seq<Hit>, o: Options)
    ensures Window(hits, o) == WindowOf(SortHits(hits), o)
  {
  }

  /** The window theorem: after boost and re-sort the first W hits all come from the window. */
  lemma WindowTheorem(hits: seq<Hit>, hexis: Hexis, o: Options, i: nat)
    requires hexis.Valid() && o.lambda >= 0.0 && i < Width(o) && i < |Rerank(hits, hexis, o)|
    ensures Rerank(hits, hexis, o)[i].hit.id in Window(hits, o)
  {
    hide Window, Gate, Gap, Sort, Width;
    var s, r := SortHits(hits), Rerank(hits, hexis, o)[i];
    SortIs(hits, SCORE);
    SortedTwice(hits, o);
    RerankFrom(hits, hexis, o, i);
    WindowIs(hits, o);
    if r.hit.id !in Window(hits, o) {
      assert r.hit in multiset(s);
      OutsideIsLow(s, o, r.hit);
      TopScores(hits, hexis, o, i);
    }
  }

  /** A hit outside the window scores below the last of the first W. */
  lemma OutsideIsLow(s: seq<Hit>, o: Options, h: Hit)
    requires h in s && h.id !in WindowOf(s, o)
    ensures |s| > Width(o) && h.score < s[Width(o) - 1].score
  {
    hide Width, WindowOf;
    var k :| 0 <= k < |s| && s[k] == h;
    if k < Width(o) || s[k].score >= Cutoff(s, o) - Max0(o.scoreEpsilon) {
      InWindow(s, o, k);
    }
  }

  lemma InWindow(s: seq<Hit>, o: Options, k: nat)
    requires k < |s| && (k < Width(o) || s[k].score >= Cutoff(s, o) - Max0(o.scoreEpsilon))
    ensures s[k].id in WindowOf(s, o)
  {
  }

  lemma Lower(s: seq<Hit>, i: nat, j: nat)
    requires Descending(s, SCORE) && i <= j < |s|
    ensures s[j].score <= s[i].score
  {
    assert SCORE(s[i]) >= SCORE(s[j]);
  }

  lemma FarBelow(s: seq<Hit>, w: nat, k: nat, b: real)
    requires Descending(s, SCORE) && 1 <= w <= k < |s| && GapOf(s, w) > b >= 0.0
    ensures s[k].score + b < s[w - 1].score
  {
    Lower(s, w, k);
  }

  lemma MaxBoostNonNegative(hits: seq<Hit>, o: Options)
    requires o.lambda >= 0.0
    ensures MaxBoost(hits, o) >= 0.0
  {
    GateBounds(hits, o);
    ProductSign(Gate(hits, o), o.lambda);
  }

  /** A boundary gap wider than the largest boost: the first W hits stay the same hits. */
  lemma WideGapKeepsTop(hits: seq<Hit>, hexis: Hexis, o: Options, i: nat)
    requires hexis.Valid() && o.lambda >= 0.0 && |hits| > Width(o) && i < Width(o)
    requires Gap(hits, Width(o)) > MaxBoost(hits, o)
    ensures |Rerank(hits, hexis, o)| == |hits| && Rerank(hits, hexis, o)[i].hit in SortHits(hits)[..Width(o)]
  {
    hide Window, Gate, Sort, Width, GapOf, MaxBoost, Rerank;
    var s, w := SortHits(hits), Width(o);
    SortIs(hits, SCORE);
    TopScores(hits, hexis, o, i);
    RerankFrom(hits, hexis, o, i);
    MaxBoostNonNegative(hits, o);
    MaxBoostTwice(hits, o);
    var r := Rerank(hits, hexis, o)[i];
    assert r.hit in multiset(s);
    var k :| 0 <= k < |s| && s[k] == r.hit;
    if k >= w {
      FarBelow(s, w, k, MaxBoost(hits, o));
    }
  }

  lemma MaxBoostTwice(hits: seq<Hit>, o: Options)
    ensures MaxBoost(SortHits(hits), o) == MaxBoost(hits, o)
  {
    SortedTwice(hits, o);
  }

  // ---------------------------------------------------------------- gate, window and scores exactly

  /** The window's first part: the first W hits, or all of them. */
  function First(s: seq<Hit>, o: Options): (first: seq<Hit>) {
    var w := if o.maxRankWindow > 1 then o.maxRankWindow else 1;
    if |s| > w then s[..w] else s
  }

  lemma GateSmall(hits: seq<Hit>, o: Options)
    requires !o.gateDisabled && |hits| <= if o.maxRankWindow > 1 then o.maxRankWindow else 1
    ensures Gate(hits, o) == if hits == [] then 0.0 else 1.0
  {
    hide Sort, Clamp01;
  }

  /** Closed without a hit, open when nothing lies outside the first W, else falling straight from one
      at a boundary gap of epsilon to zero at four epsilon; without an epsilon only a tie opens it. */
  lemma GateIs(hits: seq<Hit>, o: Options)
    ensures var w := if o.maxRankWindow > 1 then o.maxRankWindow else 1; var s := SortHits(hits); var e := o.gateEpsilon;
      if o.gateDisabled then Gate(hits, o) == 1.0
      else if |hits| == 0 then Gate(hits, o) == 0.0
      else if |hits| <= w || s[w - 1].score <= s[w].score then Gate(hits, o) == 1.0
      else if e <= 0.0 then Gate(hits, o) == 0.0
      else var gap := s[w - 1].score - s[w].score;
        && (gap <= e ==> Gate(hits, o) == 1.0) && (gap >= 4.0 * e ==> Gate(hits, o) == 0.0)
        && (e <= gap <= 4.0 * e ==> 3.0 * e * Gate(hits, o) == 4.0 * e - gap)
  {
    hide Sort;
    var w, e := Width(o), o.gateEpsilon;
    if !o.gateDisabled && |hits| <= w {
      GateSmall(hits, o);
    } else if !o.gateDisabled && e > 0.0 {
      var gap := Gap(hits, w);
      if e < gap < 4.0 * e {
        Between(4.0 * e - gap, 3.0 * e);
        Quotient(4.0 * e - gap, 3.0 * e);
      }
    }
  }

  lemma Quotient(x: real, d: real)
    requires d > 0.0
    ensures d * (x / d) == x
  {
  }

  /** The window holds the first W hits and every hit within epsilon of one of them. */
  lemma WindowHolds(hits: seq<Hit>, o: Options, id: string)
    ensures id in Window(hits, o) <==>
      exists h :: h in hits && h.id == id && (h in First(SortHits(hits), o) || exists f :: f in First(SortHits(hits), o) && NearTo(h, f, o))
  {
    hide Sort, WindowOf;
    var s := SortHits(hits);
    SortIs(hits, SCORE);
    forall h
      ensures h in hits <==> h in s
    {
      assert h in hits <==> h in multiset(hits);
      assert h in s <==> h in multiset(s);
    }
    WindowOfHolds(s, o, id);
  }

  predicate NearTo(h: Hit, f: Hit, o: Options) {
    h.score + (if o.scoreEpsilon > 0.0 then o.scoreEpsilon else 0.0) >= f.score
  }

  lemma WindowOfHolds(s: seq<Hit>, o: Options, id: string)
    requires Descending(s, SCORE)
    ensures id in WindowOf(s, o) <==>
      exists h :: h in s && h.id == id && (h in First(s, o) || exists f :: f in First(s, o) && NearTo(h, f, o))
  {
    hide First, NearTo, Cutoff, Width;
    if id in WindowOf(s, o) {
      var i :| 0 <= i < |s| && s[i].id == id && (i < Width(o) || s[i].score >= Cutoff(s, o) - Max0(o.scoreEpsilon));
      WindowHit(s, o, i);
      assert s[i] in s;
    }
    if h :| h in s && h.id == id && (h in First(s, o) || exists f :: f in First(s, o) && NearTo(h, f, o)) {
      var k :| 0 <= k < |s| && s[k] == h;
      HitInWindow(s, o, k);
    }
  }

  lemma WindowHit(s: seq<Hit>, o: Options, i: nat)
    requires i < |s| && (i < Width(o) || s[i].score >= Cutoff(s, o) - Max0(o.scoreEpsilon))
    ensures s[i] in First(s, o) || exists f :: f in First(s, o) && NearTo(s[i], f, o)
  {
    var first := First(s, o);
    if i >= Width(o) {
      assert NearTo(s[i], first[|first| - 1], o) && first[|first| - 1] in first;
    } else {
      assert s[i] == first[i];
    }
  }

  lemma HitInWindow(s: seq<Hit>, o: Options, k: nat)
    requires Descending(s, SCORE) && k < |s|
    requires s[k] in First(s, o) || exists f :: f in First(s, o) && NearTo(s[k], f, o)
    ensures s[k].id in WindowOf(s, o)
  {
    hide WindowOf;
    var first := First(s, o);
    if s[k] in first {
      var i :| 0 <= i < |first| && first[i] == s[k];
      InWindow(s, o, i);
    } else {
      var f :| f in first && NearTo(s[k], f, o);
      var i :| 0 <= i < |first| && first[i] == f;
      Lower(s, i, |first| - 1);
      InWindow(s, o, k);
    }
  }

  /** The fit as it counts: between 0 and 1, by the sigmoid unless that is switched off. */
  function Calibrated(h: Hit, hexis: Hexis, o: Options): real {
    if o.calibDisabled then Clamp01(hexis.fit(h)) else hexis.calibrate(hexis.fit(h))
  }

  /** A score rises exactly by a quarter of gate, lambda, calibrated fit and match weight multiplied,
      in the window of a Hexis with a signal and a lane weight, and stays as it was otherwise. */
  lemma ApplyIs(hits: seq<Hit>, hexis: Hexis, o: Options, i: nat)
    requires i < |hits|
    ensures var r := ApplyHexis(hits, hexis, o)[i];
      && r.hit == hits[i]
      && r.score - hits[i].score ==
         if o.laneLambda != 0.0 && hexis.signal && hits[i].id in Window(hits, o)
         then Gate(hits, o) * o.lambda * Calibrated(hits[i], hexis, o) * Clamp01(hexis.matchWeight) * 0.25
         else 0.0
  {
    hide Window, Gate, Gap;
    GateBounds(hits, o);
    if Gate(hits, o) <= 0.0 {
      var c, m := Calibrated(hits[i], hexis, o), Clamp01(hexis.matchWeight);
      assert Gate(hits, o) * o.lambda == 0.0;
      assert Gate(hits, o) * o.lambda * c * m * 0.25 == 0.0;
    }
  }

  /** A larger calibrated fit or match weight never lowers the boost; at fit zero there is none, and at
      fit and match weight one it is the largest. */
  lemma BoostGrows(g: Hit, h: Hit, hexis: Hexis, other: Hexis, o: Options, gate: real)
    requires hexis.Valid() && other.Valid() && o.lambda >= 0.0 && 0.0 <= gate <= 1.0
    requires Calibrated(g, hexis, o) <= Calibrated(h, other, o) && hexis.matchWeight <= other.matchWeight
    ensures Boost(g, hexis, o, gate) <= Boost(h, other, o, gate)
    ensures Calibrated(h, other, o) == 0.0 ==> Boost(h, other, o, gate) == 0.0
    ensures Calibrated(h, other, o) == 1.0 && other.matchWeight >= 1.0 ==> Boost(h, other, o, gate) == gate * o.lambda * 0.25
  {
    hide Calibrated, Boost, Clamp01;
    BoostIs(g, hexis, o, gate);
    BoostIs(h, other, o, gate);
    CalibratedUnit(g, hexis, o);
    ClampGrows(hexis.matchWeight, other.matchWeight);
    ProductSign(gate, o.lambda);
    ProductsGrow(gate * o.lambda, Calibrated(g, hexis, o), Calibrated(h, other, o), Clamp01(hexis.matchWeight), Clamp01(other.matchWeight));
  }

  lemma ClampGrows(x: real, y: real)
    requires x <= y
    ensures 0.0 <= Clamp01(x) <= Clamp01(y) <= 1.0 && (y >= 1.0 ==> Clamp01(y) == 1.0)
  {
  }

  lemma ProductsGrow(top: real, a: real, b: real, m: real, n: real)
    requires top >= 0.0 && 0.0 <= a <= b && 0.0 <= m <= n
    ensures top * a * m * 0.25 <= top * b * n * 0.25
    ensures b == 0.0 ==> top * b * n * 0.25 == 0.0
    ensures b == 1.0 && n == 1.0 ==> top * b * n * 0.25 == top * 0.25
  {
    MulMonotone(a, b, top);
    MulMonotone(top * a, top * b, m);
    ProductSign(top, b);
    MulMonotone(m, n, top * b);
  }

  lemma CalibratedUnit(h: Hit, hexis: Hexis, o: Options)
    requires hexis.Valid()
    ensures 0.0 <= Calibrated(h, hexis, o) <= 1.0
  {
    assert hexis.Unit(hexis.fit(h));
  }

  lemma BoostIs(h: Hit, hexis: Hexis, o: Options, gate: real)
    requires 0.0 <= gate
    ensures Boost(h, hexis, o, gate) == gate * o.lambda * Calibrated(h, hexis, o) * Clamp01(hexis.matchWeight) * 0.25
  {
    if gate <= 0.0 {
      var c, m := Calibrated(h, hexis, o), Clamp01(hexis.matchWeight);
      assert gate * o.lambda == 0.0;
      assert gate * o.lambda * c * m * 0.25 == 0.0;
    }
  }

  /** In the window the boost never puts a hit with a lower score and a lower calibrated fit ahead:
      such a hit can at most tie. */
  lemma BetterFitFirst(hits: seq<Hit>, hexis: Hexis, o: Options, i: nat, j: nat)
    requires hexis.Valid() && o.lambda >= 0.0 && i < j < |Rerank(hits, hexis, o)|
    requires var a, b := Rerank(hits, hexis, o)[i].hit, Rerank(hits, hexis, o)[j].hit;
      a.score <= b.score && Calibrated(a, hexis, o) <= Calibrated(b, hexis, o) && b.id in Window(hits, o)
    ensures Rerank(hits, hexis, o)[i].score == Rerank(hits, hexis, o)[j].score
  {
    hide Window, Gate, Gap, Sort, Boost, Calibrated;
    var s := SortHits(hits);
    var out := ApplyHexis(s, hexis, o);
    SortedTwice(hits, o);
    SortIs(out, POST);
    assert POST(Rerank(hits, hexis, o)[i]) >= POST(Rerank(hits, hexis, o)[j]);
    assert Rerank(hits, hexis, o)[i] in multiset(out) && Rerank(hits, hexis, o)[j] in multiset(out);
    var m :| 0 <= m < |s| && out[m] == Rerank(hits, hexis, o)[i];
    var n :| 0 <= n < |s| && out[n] == Rerank(hits, hexis, o)[j];
    GateBounds(hits, o);
    BoostBounds(s[n], hexis, o, Gate(hits, o));
    BoostGrows(s[m], s[n], hexis, hexis, o, Gate(hits, o));
  }

  /** The mode tells why a hit was or was not boosted. */
  lemma ModeTells(hits: seq<Hit>, hexis: Hexis, o: Options, i: nat)
    requires i < |hits|
    ensures var r, closed := ApplyHexis(hits, hexis, o)[i], Gate(hits, o) == 0.0;
      && (r.mode == 1 <==> o.laneLambda == 0.0)
      && (r.mode == 5 <==> o.laneLambda != 0.0 && !hexis.signal)
      && (o.laneLambda != 0.0 && hexis.signal ==>
           && (closed <==> r.mode == 2)
           && (!closed && hits[i].id in Window(hits, o) ==> (r.mode == 3 <==> o.gateDisabled) && (r.mode == 4 <==> !o.gateDisabled && o.calibDisabled)))
  {
    hide Window, Gap;
    GateBounds(hits, o);
  }
}
