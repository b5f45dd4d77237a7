/** The probability sample and the challenge set share no new row
    (scripts/judge-benchmark/mine-supersession-pairs.ts:199-216). */
module PairSampling {
  import opened OrderedMap
  import opened StableSort
  import opened SupersessionMiner

  /** A shuffle: any reordering. */
  ghost predicate Shuffles(shuffle: seq<Top> -> seq<Top>) {
    forall s :: Reordered(s, shuffle(s))
  }

  ghost predicate Reordered(s: seq<Top>, t: seq<Top>) {
    multiset(t) == multiset(s)
  }

  function Take(s: seq<Top>, n: nat): seq<Top> {
    if |s| <= n then s else s[..n]
  }

  function NewIds(s: seq<Top>): (ids: set<string>)
    ensures forall x :: x in ids <==> exists t :: t in s && t.neu.id == x
  {
    set t | t in s :: t.neu.id
  }

  /** One pair per new row. */
  ghost predicate OnePerNew(s: seq<Top>) {
    forall i, j :: 0 <= i < j < |s| ==> s[i].neu.id != s[j].neu.id
  }

  function Probability(tops: seq<Top>, shuffle: seq<Top> -> seq<Top>): seq<Top> {
    Take(shuffle(Filter(tops, (t: Top) => t.cos >= GATED_FLOOR)), PROB_TARGET)
  }

  /** One band of the challenge set: cue pairs first, then others, up to the band's size. */
  function ChallengeBand(tops: seq<Top>, used: set<string>, cue: Top -> bool, shuffle: seq<Top> -> seq<Top>, band: nat): seq<Top> {
    var pool := Filter(tops, (t: Top) => t.neu.id !in used && Band(t.cos).Some? && Band(t.cos).value == band);
    var cued := Take(shuffle(Filter(pool, cue)), CHALLENGE_PER_BAND);
    var plain := shuffle(Filter(pool, (t: Top) => !cue(t)));
    cued + Take(plain, if |cued| < CHALLENGE_PER_BAND then CHALLENGE_PER_BAND - |cued| else 0)
  }

  function Challenge(tops: seq<Top>, used: set<string>, cue: Top -> bool, shuffle: seq<Top> -> seq<Top>): seq<Top> {
    ChallengeBand(tops, used, cue, shuffle, 0)
    + ChallengeBand(tops, used, cue, shuffle, 1)
    + ChallengeBand(tops, used, cue, shuffle, 2)
  }

  // ---------------------------------------------------------------- keeping one pair per new row

  lemma {:induction false} FilterOne(s: seq<Top>, p: Top -> bool)
    requires OnePerNew(s)
    ensures OnePerNew(Filter(s, p))
    ensures forall t :: t in Filter(s, p) <==> t in s && p(t)
  {
    if s != [] {
      assert s == [s[0]] + s[1..];
      FilterOne(s[1..], p);
      assert forall t :: t in s[1..] ==> t.neu.id != s[0].neu.id;
    }
  }

  lemma NewIdsCons(s: seq<Top>)
    requires s != []
    ensures NewIds(s) == {s[0].neu.id} + NewIds(s[1..])
  {
    assert s == [s[0]] + s[1..];
    forall x: string
      ensures x in NewIds(s) <==> x == s[0].neu.id || x in NewIds(s[1..])
    {
    }
  }

  lemma NotOne(s: seq<Top>)
    requires s != [] && s[0].neu.id in NewIds(s[1..])
    ensures !OnePerNew(s)
  {
    var t :| t in s[1..] && t.neu.id == s[0].neu.id;
    var j :| 0 <= j < |s[1..]| && s[1..][j] == t;
    assert s[j + 1].neu.id == s[0].neu.id;
  }

  lemma {:induction false} IdCount(s: seq<Top>)
    ensures |NewIds(s)| <= |s|
    ensures |NewIds(s)| == |s| <==> OnePerNew(s)
  {
    hide OnePerNew, NewIds;
    if s == [] {
      NothingOne();
    } else {
      var id, rest := s[0].neu.id, NewIds(s[1..]);
      NewIdsCons(s);
      IdCount(s[1..]);
      if id in rest {
        assert {id} + rest == rest;
        NotOne(s);
      } else {
        OneMore(s);
      }
    }
  }

  lemma NothingOne()
    ensures NewIds([]) == {} && OnePerNew([])
  {
  }

  lemma OneMore(s: seq<Top>)
    requires s != [] && s[0].neu.id !in NewIds(s[1..])
    ensures OnePerNew(s) <==> OnePerNew(s[1..])
  {
    forall j | 0 < j < |s|
      ensures s[j].neu.id != s[0].neu.id
    {
      assert s[j] in s[1..];
    }
    if OnePerNew(s[1..]) {
      assert forall i, j :: 0 < i < j < |s| ==> s[i] == s[1..][i - 1] && s[j] == s[1..][j - 1];
    }
    if OnePerNew(s) {
      assert forall i, j :: 0 <= i < j < |s[1..]| ==> s[1..][i] == s[i + 1] && s[1..][j] == s[j + 1];
    }
  }

  lemma ReorderedOne(s: seq<Top>, t: seq<Top>)
    requires OnePerNew(s) && Reordered(s, t)
    ensures OnePerNew(t) && (forall x :: x in t <==> x in s) && |t| == |s|
  {
    assert |multiset(s)| == |multiset(t)|;
    forall x
      ensures x in t <==> x in s
    {
      assert x in multiset(t) <==> x in multiset(s);
    }
    IdCount(s);
    IdCount(t);
    assert NewIds(s) == NewIds(t);
  }

  lemma JoinOne(s: seq<Top>, t: seq<Top>)
    requires OnePerNew(s) && OnePerNew(t) && NewIds(s) !! NewIds(t)
    ensures OnePerNew(s + t) && NewIds(s + t) == NewIds(s) + NewIds(t)
  {
    forall i, j | 0 <= i < |s| && 0 <= j < |t|
      ensures s[i].neu.id != t[j].neu.id
    {
      assert s[i].neu.id in NewIds(s) && t[j].neu.id in NewIds(t);
    }
  }

  lemma SampleOne(tops: seq<Top>, p: Top -> bool, shuffle: seq<Top> -> seq<Top>, n: nat)
    requires OnePerNew(tops) && Shuffles(shuffle)
    ensures var s := Take(shuffle(Filter(tops, p)), n);
      OnePerNew(s) && |s| <= n && forall t :: t in s ==> t in tops && p(t)
  {
    FilterOne(tops, p);
    var f := Filter(tops, p);
    assert Reordered(f, shuffle(f));
    ReorderedOne(f, shuffle(f));
  }

  lemma BandSample(tops: seq<Top>, used: set<string>, cue: Top -> bool, shuffle: seq<Top> -> seq<Top>, band: nat)
    requires OnePerNew(tops) && Shuffles(shuffle)
    ensures var s := ChallengeBand(tops, used, cue, shuffle, band);
      && OnePerNew(s) && |s| <= CHALLENGE_PER_BAND
      && forall t :: t in s ==> t in tops && t.neu.id !in used && Band(t.cos).Some? && Band(t.cos).value == band
  {
    hide Take;
    var p := (t: Top) => t.neu.id !in used && Band(t.cos).Some? && Band(t.cos).value == band;
    FilterOne(tops, p);
    var pool := Filter(tops, p);
    var cued := Take(shuffle(Filter(pool, cue)), CHALLENGE_PER_BAND);
    var room := if |cued| < CHALLENGE_PER_BAND then CHALLENGE_PER_BAND - |cued| else 0;
    SampleOne(pool, cue, shuffle, CHALLENGE_PER_BAND);
    SampleOne(pool, (t: Top) => !cue(t), shuffle, room);
    var plain := Take(shuffle(Filter(pool, (t: Top) => !cue(t))), room);
    ApartBy(pool, cued, plain, cue);
    JoinOne(cued, plain);
  }

  /** Two samples of one list that a test tells apart share no new row. */
  lemma ApartBy(pool: seq<Top>, s: seq<Top>, t: seq<Top>, p: Top -> bool)
    requires OnePerNew(pool)
    requires (forall x :: x in s ==> x in pool && p(x)) && (forall x :: x in t ==> x in pool && !p(x))
    ensures NewIds(s) !! NewIds(t)
  {
    forall x, y | x in s && y in t
      ensures x.neu.id != y.neu.id
    {
      var i :| 0 <= i < |pool| && pool[i] == x;
      var j :| 0 <= j < |pool| && pool[j] == y;
      assert i != j;
      assert i < j || j < i;
    }
  }

  /** The gated sample and the challenge set never use a new row twice, in either or across. */
  lemma PartsShareNoNewRow(tops: seq<Top>, cue: Top -> bool, shuffle: seq<Top> -> seq<Top>)
    requires OnePerNew(tops) && Shuffles(shuffle)
    ensures var prob := Probability(tops, shuffle);
      var rest := Challenge(tops, NewIds(prob), cue, shuffle);
      && OnePerNew(prob + rest) && |prob| <= PROB_TARGET && |rest| <= 3 * CHALLENGE_PER_BAND
      && (forall t :: t in prob ==> t in tops && t.cos >= GATED_FLOOR)
      && (forall t :: t in rest ==> t in tops && t.neu.id !in NewIds(prob))
  {
    hide Probability, ChallengeBand, Band;
    var prob := Probability(tops, shuffle);
    ProbabilitySample(tops, shuffle);
    var used := NewIds(prob);
    BandSample(tops, used, cue, shuffle, 0);
    BandSample(tops, used, cue, shuffle, 1);
    BandSample(tops, used, cue, shuffle, 2);
    var b0, b1, b2 := ChallengeBand(tops, used, cue, shuffle, 0), ChallengeBand(tops, used, cue, shuffle, 1), ChallengeBand(tops, used, cue, shuffle, 2);
    ApartBy(tops, b0, b1, (t: Top) => Band(t.cos).Some? && Band(t.cos).value == 0);
    JoinOne(b0, b1);
    ApartBy(tops, b0 + b1, b2, (t: Top) => Band(t.cos).Some? && Band(t.cos).value != 2);
    JoinOne(b0 + b1, b2);
    JoinOne(prob, b0 + b1 + b2);
  }

  lemma ProbabilitySample(tops: seq<Top>, shuffle: seq<Top> -> seq<Top>)
    requires OnePerNew(tops) && Shuffles(shuffle)
    ensures var s := Probability(tops, shuffle);
      OnePerNew(s) && |s| <= PROB_TARGET && forall t :: t in s ==> t in tops && t.cos >= GATED_FLOOR
  {
    SampleOne(tops, (t: Top) => t.cos >= GATED_FLOOR, shuffle, PROB_TARGET);
  }

  ghost predicate RowsDistinct(rows: seq<Row>) {
    forall i, j :: 0 <= i < j < |rows| ==> rows[i].id != rows[j].id
  }

  /** Mining itself gives each new row at most one pair. */
  lemma {:induction false} MinedOncePerNew(contains: Contains, rows: seq<Row>, news: seq<Row>)
    requires RowsDistinct(news) && forall r, q :: r in rows && q in news ==> |r.embedding| == |q.embedding|
    ensures OnePerNew(BruteForce(contains, rows, news))
    decreases |news|
  {
    if news != [] {
      var n := |news| - 1;
      MinedOncePerNew(contains, rows, news[..n]);
      var before := BruteForce(contains, rows, news[..n]);
      forall i | 0 <= i < |before|
        ensures before[i].neu.id != news[n].id
      {
        MinedFrom(contains, rows, news[..n], before[i]);
      }
      BestIs(contains, rows, news[n], |rows|);
    }
  }
}
