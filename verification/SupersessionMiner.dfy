/** Mining supersession pairs: the sliding window against brute force, and the two sampled
    parts (scripts/judge-benchmark/mine-supersession-pairs.ts:85-104, 149-197). */
module SupersessionMiner {
  import opened OrderedMap
  import opened StableSort
  import opened Cosines

  const LOOKBACK_MS := 72 * 3_600_000
  const COSINE_FLOOR := 0.7
  const GATED_FLOOR := 0.85
  const PROB_TARGET := 200
  const CHALLENGE_PER_BAND := 50

  datatype Scope = Unset | User | Session | Global | Other(name: string)

  /** A row of the window; `norm` is the length of its embedding. */
  datatype Row = Row(id: string, createdMs: int, scope: Scope, sessionId: Option<string>, text: string,
                     mergeUpdated: bool, embedding: seq<real>, norm: real)

  datatype Top = Top(neu: Row, prior: Row, cos: real)

  /** Which texts count as containing each other. */
  type Contains = (string, string) -> bool

  ghost predicate Sound(rows: seq<Row>) {
    && (forall r, q :: r in rows && q in rows ==> |r.embedding| == |q.embedding|)
    && (forall r :: r in rows ==> r.norm >= 0.0 && r.norm * r.norm == Dot(r.embedding, r.embedding))
  }

  ghost predicate ByTime(rows: seq<Row>) {
    forall i, j :: 0 <= i < j < |rows| ==> rows[i].createdMs <= rows[j].createdMs
  }

  function Cos(a: Row, b: Row): real
    requires |a.embedding| == |b.embedding|
  {
    if a.norm == 0.0 || b.norm == 0.0 then 0.0
    else
      NonZero(a.norm, b.norm);
      Dot(a.embedding, b.embedding) / (a.norm * b.norm)
  }

  lemma NonZero(x: real, y: real)
    requires x != 0.0 && y != 0.0
    ensures x * y != 0.0
  {
  }

  predicate ScopeEligible(neu: Row, prior: Row) {
    match neu.scope
    case Session => prior.scope == Session && prior.sessionId == neu.sessionId
    case Global => prior.scope == Global
    case _ => prior.scope == Unset || prior.scope == User
  }

  /** Rows that are never part of a pair. */
  predicate Usable(r: Row) {
    !r.mergeUpdated && |r.text| >= 20
  }

  /** An old row that may be paired with `neu`: within 72 hours before it, in scope, usable. */
  predicate Eligible(neu: Row, prior: Row) {
    && neu.createdMs - LOOKBACK_MS <= prior.createdMs < neu.createdMs
    && prior.id != neu.id && ScopeEligible(neu, prior) && Usable(prior)
  }

  predicate Candidate(contains: Contains, neu: Row, prior: Row)
    requires |neu.embedding| == |prior.embedding|
  {
    Eligible(neu, prior) && Cos(neu, prior) >= COSINE_FLOOR && !contains(neu.text, prior.text)
  }

  // ---------------------------------------------------------------- brute force

  /** The best candidate among the first `n` rows; an equal later one does not replace it. */
  function Best(contains: Contains, rows: seq<Row>, neu: Row, n: nat): (best: Option<Top>)
    requires n <= |rows| && forall r :: r in rows ==> |r.embedding| == |neu.embedding|
  {
    if n == 0 then None
    else
      var best, prior := Best(contains, rows, neu, n - 1), rows[n - 1];
      if Candidate(contains, neu, prior) && (best.None? || Cos(neu, prior) > best.value.cos)
      then Some(Top(neu, prior, Cos(neu, prior))) else best
  }

  /** It is the earliest candidate of the highest cosine, or none exists. */
  lemma {:induction false} BestIs(contains: Contains, rows: seq<Row>, neu: Row, n: nat)
    requires n <= |rows| && forall r :: r in rows ==> |r.embedding| == |neu.embedding|
    ensures var best := Best(contains, rows, neu, n);
      && (best.None? <==> forall i :: 0 <= i < n ==> !Candidate(contains, neu, rows[i]))
      && (best.Some? ==> exists i :: 0 <= i < n && IsBest(contains, rows, neu, n, i) && best.value == Paired(neu, rows[i]))
  {
    hide Candidate, Cos, IsBest;
    if n > 0 {
      BestIs(contains, rows, neu, n - 1);
      var before := Best(contains, rows, neu, n - 1);
      if before.Some? {
        var k :| 0 <= k < n - 1 && IsBest(contains, rows, neu, n - 1, k) && before.value == Paired(neu, rows[k]);
        BestNext(contains, rows, neu, n, k);
      } else {
        FirstBest(contains, rows, neu, n);
      }
    }
  }

  function Paired(neu: Row, prior: Row): Top
    requires |prior.embedding| == |neu.embedding|
  {
    Top(neu, prior, Cos(neu, prior))
  }

  lemma BestNext(contains: Contains, rows: seq<Row>, neu: Row, n: nat, k: nat)
    requires 0 < n <= |rows| && k < n - 1 && forall r :: r in rows ==> |r.embedding| == |neu.embedding|
    requires IsBest(contains, rows, neu, n - 1, k)
    ensures if Candidate(contains, neu, rows[n - 1]) && Cos(neu, rows[n - 1]) > Cos(neu, rows[k])
      then IsBest(contains, rows, neu, n, n - 1) else IsBest(contains, rows, neu, n, k)
  {
    hide Candidate, Cos;
  }

  lemma FirstBest(contains: Contains, rows: seq<Row>, neu: Row, n: nat)
    requires 0 < n <= |rows| && forall r :: r in rows ==> |r.embedding| == |neu.embedding|
    requires forall i :: 0 <= i < n - 1 ==> !Candidate(contains, neu, rows[i])
    ensures Candidate(contains, neu, rows[n - 1]) ==> IsBest(contains, rows, neu, n, n - 1)
  {
    hide Candidate, Cos;
  }

  ghost predicate IsBest(contains: Contains, rows: seq<Row>, neu: Row, n: nat, i: nat)
    requires i < n <= |rows| && forall r :: r in rows ==> |r.embedding| == |neu.embedding|
  {
    && Candidate(contains, neu, rows[i])
    && (forall j :: 0 <= j < n && Candidate(contains, neu, rows[j]) ==> Cos(neu, rows[j]) <= Cos(neu, rows[i]))
    && (forall j :: 0 <= j < i && Candidate(contains, neu, rows[j]) ==> Cos(neu, rows[j]) < Cos(neu, rows[i]))
  }

  /** Rows that are no candidates can be skipped, before and after. */
  lemma {:induction false} BestSkips(contains: Contains, rows: seq<Row>, neu: Row, m: nat, n: nat)
    requires m <= n <= |rows| && forall r :: r in rows ==> |r.embedding| == |neu.embedding|
    requires forall i :: m <= i < n ==> !Candidate(contains, neu, rows[i])
    ensures Best(contains, rows, neu, n) == Best(contains, rows, neu, m)
  {
    if m < n {
      BestSkips(contains, rows, neu, m, n - 1);
    }
  }

  /** The rows to find pairs for. */
  function News(rows: seq<Row>, startMs: int): (news: seq<Row>)
    ensures forall r :: r in news <==> r in rows && r.createdMs >= startMs
  {
    FilterIs(rows, (r: Row) => r.createdMs >= startMs);
    Filter(rows, (r: Row) => r.createdMs >= startMs)
  }

  /** What mining should find: for each usable new row, in order, its brute-force best. */
  function BruteForce(contains: Contains, rows: seq<Row>, news: seq<Row>): seq<Top>
    requires forall r, q :: r in rows && q in news ==> |r.embedding| == |q.embedding|
  {
    if news == [] then []
    else
      var n := |news| - 1;
      var best := if Usable(news[n]) then Best(contains, rows, news[n], |rows|) else None;
      BruteForce(contains, rows, news[..n]) + if best.Some? then [best.value] else []
  }

  // ---------------------------------------------------------------- the sliding window

  /** The scan of one new row, from the window's start to the first row that is not older. */
  method ScanWindow(contains: Contains, rows: seq<Row>, neu: Row, windowStart: nat) returns (best: Option<Top>)
    requires ByTime(rows) && windowStart <= |rows| && forall r :: r in rows ==> |r.embedding| == |neu.embedding|
    requires forall i :: 0 <= i < windowStart ==> rows[i].createdMs < neu.createdMs - LOOKBACK_MS
    requires windowStart < |rows| ==> rows[windowStart].createdMs >= neu.createdMs - LOOKBACK_MS
    ensures best == Best(contains, rows, neu, |rows|)
  {
    hide Cos, ScopeEligible, Usable;
    best := None;
    var index := windowStart;
    BestSkips(contains, rows, neu, 0, windowStart);
    while index < |rows|
      invariant windowStart <= index <= |rows| && best == Best(contains, rows, neu, index)
      invariant best.Some? ==> best.value.cos >= COSINE_FLOOR
    {
      var prior := rows[index];
      if prior.createdMs >= neu.createdMs {
        BestSkips(contains, rows, neu, index, |rows|);
        return;
      }
      index := index + 1;
      if prior.id == neu.id || !ScopeEligible(neu, prior) {
        continue;
      }
      if !Usable(prior) {
        continue;
      }
      var c := Cos(neu, prior);
      if c < COSINE_FLOOR || (best.Some? && c <= best.value.cos) {
        continue;
      }
      if contains(neu.text, prior.text) {
        continue;
      }
      best := Some(Top(neu, prior, c));
    }
  }

  lemma NothingMined(contains: Contains, rows: seq<Row>)
    ensures BruteForce(contains, rows, []) == []
  {
  }

  lemma MineNext(contains: Contains, rows: seq<Row>, news: seq<Row>, k: nat)
    requires k < |news| && forall r, q :: r in rows && q in news ==> |r.embedding| == |q.embedding|
    ensures var best := if Usable(news[k]) then Best(contains, rows, news[k], |rows|) else None;
      BruteForce(contains, rows, news[..k + 1]) == BruteForce(contains, rows, news[..k]) + if best.Some? then [best.value] else []
  {
    assert news[..k + 1][..k] == news[..k] && news[..k + 1][k] == news[k];
  }

  /** Moves the window's start forward to the first row that is recent enough. */
  method Advance(rows: seq<Row>, from: nat, lo: int) returns (windowStart: nat)
    requires from <= |rows| && forall i :: 0 <= i < from ==> rows[i].createdMs < lo
    ensures from <= windowStart <= |rows|
    ensures forall i :: 0 <= i < windowStart ==> rows[i].createdMs < lo
    ensures windowStart < |rows| ==> rows[windowStart].createdMs >= lo
  {
    windowStart := from;
    while windowStart < |rows| && rows[windowStart].createdMs < lo
      invariant from <= windowStart <= |rows|
      invariant forall i :: 0 <= i < windowStart ==> rows[i].createdMs < lo
    {
      windowStart := windowStart + 1;
    }
  }

  /** Mining with one window start that only moves forward. */
  method MineTops(contains: Contains, rows: seq<Row>, startMs: int) returns (tops: seq<Top>)
    requires Sound(rows) && ByTime(rows)
    ensures tops == BruteForce(contains, rows, News(rows, startMs))
  {
    hide Usable, BruteForce, Best, Dot;
    var news := News(rows, startMs);
    NewsByTime(rows, (r: Row) => r.createdMs >= startMs);
    tops := [];
    var windowStart, k := 0, 0;
    assert news[..0] == [];
    NothingMined(contains, rows);
    while k < |news|
      invariant 0 <= k <= |news| && windowStart <= |rows|
      invariant forall i :: 0 <= i < windowStart && k < |news| ==> rows[i].createdMs < news[k].createdMs - LOOKBACK_MS
      invariant tops == BruteForce(contains, rows, news[..k])
    {
      var neu := news[k];
      assert neu in news && neu in rows;
      MineNext(contains, rows, news, k);
      k := k + 1;
      if !Usable(neu) {
        continue;
      }
      var lo := neu.createdMs - LOOKBACK_MS;
      windowStart := Advance(rows, windowStart, lo);
      var best := ScanWindow(contains, rows, neu, windowStart);
      if best.None? {
        continue;
      }
      tops := tops + [best.value];
    }
    assert news[..k] == news;
  }

  lemma {:induction false} NewsByTime(rows: seq<Row>, p: Row -> bool)
    requires ByTime(rows)
    ensures ByTime(Filter(rows, p))
  {
    if rows != [] {
      assert rows == [rows[0]] + rows[1..];
      NewsByTime(rows[1..], p);
      FilterIs(rows[1..], p);
      assert forall r :: r in rows[1..] ==> rows[0].createdMs <= r.createdMs;
    }
  }

  // ---------------------------------------------------------------- bands

  /** The three cosine bands; the last is open just above one. */
  function Band(c: real): Option<nat> {
    if 0.7 <= c < 0.85 then Some(0)
    else if 0.85 <= c < 0.95 then Some(1)
    else if 0.95 <= c < 1.0001 then Some(2)
    else None
  }

  lemma CosIs(a: Row, b: Row, d: real, p: real)
    requires |a.embedding| == |b.embedding| && d == Dot(a.embedding, b.embedding) && p == a.norm * b.norm && p != 0.0
    ensures Cos(a, b) == d / p
  {
    assert a.norm != 0.0 && b.norm != 0.0;
  }

  lemma CosBounds(a: Row, b: Row)
    requires |a.embedding| == |b.embedding| && a.norm >= 0.0 && b.norm >= 0.0
    requires a.norm * a.norm == Dot(a.embedding, a.embedding) && b.norm * b.norm == Dot(b.embedding, b.embedding)
    ensures -1.0 <= Cos(a, b) <= 1.0
  {
    if a.norm != 0.0 && b.norm != 0.0 {
      Cauchy(a.embedding, b.embedding, a.norm, b.norm, a, b);
    }
  }

  lemma Cauchy(x: seq<real>, y: seq<real>, s: real, t: real, a: Row, b: Row)
    requires |x| == |y| && s > 0.0 && t > 0.0 && s * s == Dot(x, x) && t * t == Dot(y, y)
    requires a.embedding == x && b.embedding == y && a.norm == s && b.norm == t
    ensures -1.0 <= Cos(a, b) <= 1.0
  {
    hide Cos, Dot;
    CauchySchwarz(x, y, s, t);
    CosIs(a, b, Dot(x, y), s * t);
    Quotient(Dot(x, y), s * t);
  }

  lemma {:induction false} MinedFrom(contains: Contains, rows: seq<Row>, news: seq<Row>, t: Top)
    requires forall r, q :: r in rows && q in news ==> |r.embedding| == |q.embedding|
    requires t in BruteForce(contains, rows, news)
    ensures t.neu in news && Best(contains, rows, t.neu, |rows|) == Some(t)
    ensures t.prior in rows && Candidate(contains, t.neu, t.prior) && t.cos == Cos(t.neu, t.prior)
    decreases |news|
  {
    var n := |news| - 1;
    if t in BruteForce(contains, rows, news[..n]) {
      MinedFrom(contains, rows, news[..n], t);
    } else {
      BestIs(contains, rows, news[n], |rows|);
    }
  }

  /** Every mined pair falls into a band: its cosine reaches the floor and never exceeds one. */
  lemma EveryTopHasBand(contains: Contains, rows: seq<Row>, startMs: int, t: Top)
    requires Sound(rows) && t in BruteForce(contains, rows, News(rows, startMs))
    ensures Band(t.cos).Some?
  {
    hide BruteForce, Best, Cos, Dot;
    MinedFrom(contains, rows, News(rows, startMs), t);
    CosBounds(t.neu, t.prior);
  }
}
