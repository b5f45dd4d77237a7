/** What is mined of a table, told from its rows, and how far the two samples fill up
    (scripts/judge-benchmark/mine-supersession-pairs.ts:85-104, 149-216). */
module MinedPairs {
  import opened OrderedMap
  import opened StableSort
  import opened Cosines
  import opened SupersessionMiner
  import opened PairSampling

  // ---------------------------------------------------------------- one pair

  /** `c` is the cosine of the two embeddings, or zero when one of them has no length. */
  predicate IsCosine(a: Row, b: Row, c: real)
    requires |a.embedding| == |b.embedding|
  {
    if a.norm == 0.0 || b.norm == 0.0 then c == 0.0 else c * (a.norm * b.norm) == Dot(a.embedding, b.embedding)
  }

  /** The two rows make a pair: the prior one is older by at most 72 hours, both are usable, in scope of each
      other and not contained in each other, and their cosine reaches 0.7. */
  predicate Pairs(contains: Contains, neu: Row, prior: Row, c: real)
    requires |neu.embedding| == |prior.embedding|
  {
    && prior.createdMs < neu.createdMs <= prior.createdMs + 259200000
    && prior.id != neu.id
    && !neu.mergeUpdated && |neu.text| >= 20 && !prior.mergeUpdated && |prior.text| >= 20
    && (neu.scope == Session ==> prior.scope == Session && prior.sessionId == neu.sessionId)
    && (neu.scope == Global ==> prior.scope == Global)
    && (neu.scope != Session && neu.scope != Global ==> prior.scope == Unset || prior.scope == User)
    && IsCosine(neu, prior, c) && c >= 0.7 && !contains(neu.text, prior.text)
  }

  lemma CosineOf(a: Row, b: Row, c: real)
    requires |a.embedding| == |b.embedding|
    ensures IsCosine(a, b, c) <==> c == Cos(a, b)
  {
    if a.norm != 0.0 && b.norm != 0.0 {
      NonZero(a.norm, b.norm);
      Division(Dot(a.embedding, b.embedding), a.norm * b.norm, c);
    }
  }

  lemma Division(x: real, d: real, c: real)
    requires d != 0.0
    ensures c * d == x <==> c == x / d
  {
  }

  lemma CandidatePairs(contains: Contains, neu: Row, prior: Row, c: real)
    requires |neu.embedding| == |prior.embedding|
    ensures Pairs(contains, neu, prior, c) <==> Usable(neu) && Candidate(contains, neu, prior) && c == Cos(neu, prior)
  {
    hide Cos, IsCosine;
    CosineOf(neu, prior, c);
  }

  // ---------------------------------------------------------------- all pairs

  ghost predicate HasPair(contains: Contains, rows: seq<Row>, neu: Row)
    requires forall r :: r in rows ==> |r.embedding| == |neu.embedding|
  {
    exists q, c :: q in rows && Pairs(contains, neu, q, c)
  }

  /** Row `i` is the earliest of those that pair with `neu` at the highest cosine `c`. */
  ghost predicate Tops(contains: Contains, rows: seq<Row>, neu: Row, i: nat, c: real)
    requires forall r :: r in rows ==> |r.embedding| == |neu.embedding|
  {
    && i < |rows| && Pairs(contains, neu, rows[i], c)
    && forall j, d :: 0 <= j < |rows| && Pairs(contains, neu, rows[j], d) ==> d < c || (d == c && i <= j)
  }

  ghost predicate IsTop(contains: Contains, rows: seq<Row>, t: Top)
    requires forall r :: r in rows ==> |r.embedding| == |t.neu.embedding|
  {
    exists i: nat :: Tops(contains, rows, t.neu, i, t.cos) && rows[i] == t.prior
  }

  lemma BestTops(contains: Contains, rows: seq<Row>, neu: Row)
    requires Usable(neu) && forall r :: r in rows ==> |r.embedding| == |neu.embedding|
    ensures var best := Best(contains, rows, neu, |rows|);
      && (best.Some? <==> HasPair(contains, rows, neu))
      && (best.Some? ==> best.value.neu == neu && IsTop(contains, rows, best.value))
  {
    hide Candidate, Cos, Pairs, Usable, Best;
    BestIs(contains, rows, neu, |rows|);
    var best := Best(contains, rows, neu, |rows|);
    forall q, c | q in rows
      ensures Pairs(contains, neu, q, c) <==> Candidate(contains, neu, q) && c == Cos(neu, q)
    {
      CandidatePairs(contains, neu, q, c);
    }
    if best.Some? {
      var i: nat :| 0 <= i < |rows| && IsBest(contains, rows, neu, |rows|, i) && best.value == Paired(neu, rows[i]);
      assert rows[i] in rows && Pairs(contains, neu, rows[i], Cos(neu, rows[i]));
      assert Tops(contains, rows, neu, i, best.value.cos);
    } else {
      forall q, c | q in rows
        ensures !Pairs(contains, neu, q, c)
      {
        var i :| 0 <= i < |rows| && rows[i] == q;
        assert !Candidate(contains, neu, rows[i]);
      }
    }
  }

  lemma NoPair(contains: Contains, rows: seq<Row>, neu: Row)
    requires !Usable(neu) && forall r :: r in rows ==> |r.embedding| == |neu.embedding|
    ensures !HasPair(contains, rows, neu)
  {
    forall q, c | q in rows
      ensures !Pairs(contains, neu, q, c)
    {
      CandidatePairs(contains, neu, q, c);
    }
  }

  /** The mined pairs of the given new rows: in their order one for each that has a pair, with the earliest of
      its best. */
  ghost predicate Mined(contains: Contains, rows: seq<Row>, news: seq<Row>, tops: seq<Top>)
    requires forall r, q :: r in rows && q in news ==> |r.embedding| == |q.embedding|
  {
    && (forall t :: t in tops ==> t.neu in news && IsTop(contains, rows, t))
    && (forall n :: n in news && HasPair(contains, rows, n) ==> exists t :: t in tops && t.neu == n)
  }

  lemma {:induction false} MinedAre(contains: Contains, rows: seq<Row>, news: seq<Row>)
    requires forall r, q :: r in rows && q in news ==> |r.embedding| == |q.embedding|
    ensures Mined(contains, rows, news, BruteForce(contains, rows, news))
    decreases |news|
  {
    hide IsTop, HasPair, Usable, Best;
    if news != [] {
      var n := |news| - 1;
      assert news == news[..n] + [news[n]];
      MinedAre(contains, rows, news[..n]);
      if Usable(news[n]) {
        BestTops(contains, rows, news[n]);
      } else {
        NoPair(contains, rows, news[n]);
      }
      MinedOneMore(contains, rows, news, if Usable(news[n]) then Best(contains, rows, news[n], |rows|) else None);
    }
  }

  lemma MinedOneMore(contains: Contains, rows: seq<Row>, news: seq<Row>, best: Option<Top>)
    requires news != [] && forall r, q :: r in rows && q in news ==> |r.embedding| == |q.embedding|
    requires Mined(contains, rows, news[..|news| - 1], BruteForce(contains, rows, news[..|news| - 1]))
    requires best.Some? <==> HasPair(contains, rows, news[|news| - 1])
    requires best.Some? ==> best.value.neu == news[|news| - 1] && IsTop(contains, rows, best.value)
    ensures Mined(contains, rows, news, BruteForce(contains, rows, news[..|news| - 1]) + if best.Some? then [best.value] else [])
  {
    hide IsTop, HasPair, BruteForce;
    var n := |news| - 1;
    var before := BruteForce(contains, rows, news[..n]);
    var tops := before + if best.Some? then [best.value] else [];
    assert news == news[..n] + [news[n]];
    forall q | q in news && HasPair(contains, rows, q)
      ensures exists t :: t in tops && t.neu == q
    {
      if q in news[..n] {
        var t :| t in before && t.neu == q;
        assert t in tops;
      } else {
        assert best.value in tops;
      }
    }
  }

  /** Every mined pair is the earliest best one of its new row, and every new row with a pair gets one. */
  lemma MinedExactly(contains: Contains, rows: seq<Row>, startMs: int)
    requires Sound(rows)
    ensures var tops := BruteForce(contains, rows, News(rows, startMs));
      && (forall t :: t in tops ==> t.neu in rows && t.neu.createdMs >= startMs && IsTop(contains, rows, t))
      && (forall n :: n in rows && n.createdMs >= startMs && HasPair(contains, rows, n) ==> exists t :: t in tops && t.neu == n)
  {
    hide IsTop, HasPair, BruteForce;
    MinedAre(contains, rows, News(rows, startMs));
  }

  // ---------------------------------------------------------------- how far the samples fill up

  function Fewer(a: nat, b: nat): nat {
    if a < b then a else b
  }

  lemma {:induction false} FilterCount<T>(s: seq<T>, p: T -> bool)
    ensures |Filter(s, p)| == Count(s, p)
  {
    if s != [] {
      FilterCount(s[1..], p);
    }
  }

  lemma {:induction false} CountBoth<T>(s: seq<T>, p: T -> bool, q: T -> bool, both: T -> bool)
    requires forall x :: both(x) <==> p(x) && q(x)
    ensures Count(Filter(s, p), q) == Count(s, both)
  {
    if s != [] {
      CountBoth(s[1..], p, q, both);
      var rest := Filter(s[1..], p);
      assert Filter(s, p) == (if p(s[0]) then [s[0]] else []) + rest;
      if p(s[0]) {
        assert Filter(s, p)[1..] == rest;
      } else {
        assert Filter(s, p) == rest;
      }
    }
  }

  lemma SampleSize(s: seq<Top>, p: Top -> bool, shuffle: seq<Top> -> seq<Top>, n: nat)
    requires Shuffles(shuffle)
    ensures |Take(shuffle(Filter(s, p)), n)| == Fewer(n, Count(s, p))
    ensures forall t :: t in Take(shuffle(Filter(s, p)), n) ==> p(t)
  {
    var f := Filter(s, p);
    FilterCount(s, p);
    FilterIs(s, p);
    assert Reordered(f, shuffle(f));
    assert |multiset(f)| == |multiset(shuffle(f))|;
    forall t | t in Take(shuffle(f), n)
      ensures p(t)
    {
      assert t in multiset(shuffle(f));
    }
  }

  /** Where a band of the challenge set starts and ends. */
  function Low(band: nat): real {
    if band == 0 then 0.7 else if band == 1 then 0.85 else 0.95
  }

  function High(band: nat): real {
    if band == 0 then 0.85 else if band == 1 then 0.95 else 1.0001
  }

  /** A band takes as many cue pairs as there are, up to 50, and fills up to 50 with others behind them. */
  lemma BandFills(tops: seq<Top>, used: set<string>, cue: Top -> bool, shuffle: seq<Top> -> seq<Top>, band: nat,
                  inBand: Top -> bool, cued: Top -> bool, plain: Top -> bool)
    requires Shuffles(shuffle) && band < 3
    requires inBand == ((t: Top) => t.neu.id !in used && Low(band) <= t.cos < High(band))
    requires cued == ((t: Top) => inBand(t) && cue(t)) && plain == ((t: Top) => inBand(t) && !cue(t))
    ensures var s := ChallengeBand(tops, used, cue, shuffle, band); var n := Fewer(50, Count(tops, cued));
      && |s| == Fewer(50, Count(tops, cued) + Count(tops, plain))
      && (forall i :: 0 <= i < |s| ==> (cue(s[i]) <==> i < n))
  {
    hide Take, Count, Filter;
    var p := (t: Top) => t.neu.id !in used && Band(t.cos).Some? && Band(t.cos).value == band;
    var non := (t: Top) => !cue(t);
    var pool := Filter(tops, p);
    forall t: Top
      ensures inBand(t) <==> p(t)
    {
    }
    CountBoth(tops, p, cue, cued);
    CountBoth(tops, p, non, plain);
    SampleSize(pool, cue, shuffle, 50);
    var first := Take(shuffle(Filter(pool, cue)), 50);
    var room := if |first| < 50 then 50 - |first| else 0;
    SampleSize(pool, non, shuffle, room);
    var second := Take(shuffle(Filter(pool, non)), room);
    assert ChallengeBand(tops, used, cue, shuffle, band) == first + second;
    assert forall i :: 0 <= i < |first| ==> first[i] in first;
    assert forall i :: 0 <= i < |second| ==> second[i] in second;
  }

  /** The probability sample takes as many pairs of cosine at least 0.85 as there are, up to 200. */
  lemma ProbabilityFills(tops: seq<Top>, shuffle: seq<Top> -> seq<Top>, gated: Top -> bool)
    requires Shuffles(shuffle) && gated == ((t: Top) => t.cos >= 0.85)
    ensures |Probability(tops, shuffle)| == Fewer(200, Count(tops, gated))
    ensures forall t :: t in Probability(tops, shuffle) ==> t.cos >= 0.85
  {
    var p := (t: Top) => t.cos >= GATED_FLOOR;
    SampleSize(tops, p, shuffle, PROB_TARGET);
    CountSame(tops, p, gated);
  }

  lemma {:induction false} CountSame<T>(s: seq<T>, p: T -> bool, q: T -> bool)
    requires forall x :: p(x) <==> q(x)
    ensures Count(s, p) == Count(s, q)
  {
    if s != [] {
      CountSame(s[1..], p, q);
    }
  }
}
