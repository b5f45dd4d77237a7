/** scoreHexisFit: the loops that add up token overlap and topic bias
    (src/hexis/runtime-hexis.ts:196-261). */
module HexisFit {
  import opened StableSort
  import opened HexisRerank

  /** The parts of a candidate and a Hexis state that the fit reads. `hexisTokens` lists a set. */
  datatype Evidence = Evidence(allowed: bool, candidateTokens: set<string>, candidateText: string,
                               hexisTokens: seq<string>, topics: seq<Topic>, roleWeight: real)

  /** One topic bias; `named` says whether the topic occurs in the candidate's text or tokens. */
  datatype Topic = Topic(named: bool, weight: real)

  function Overlap(e: Evidence): (n: nat)
    ensures n <= |e.hexisTokens|
  {
    CountBefore(e.hexisTokens, t => t in e.candidateTokens, |e.hexisTokens|);
    Count(e.hexisTokens, t => t in e.candidateTokens)
  }

  function TopicSum(topics: seq<Topic>): real {
    if topics == [] then 0.0
    else
      var last := topics[|topics| - 1];
      TopicSum(topics[..|topics| - 1]) + if last.named then Max0(last.weight) else 0.0
  }

  function SemanticFit(e: Evidence): real {
    if e.hexisTokens == [] then 0.0 else Overlap(e) as real / |e.hexisTokens| as real
  }

  function TopicFit(e: Evidence): real {
    Clamp01(TopicSum(e.topics) / (if e.topics == [] then 1.0 else |e.topics| as real))
  }

  /** The weighted mean of three fits; a blocked candidate has none. */
  function Fit(e: Evidence): real {
    if !e.allowed then 0.0
    else SemanticFit(e) * 0.6 + TopicFit(e) * 0.25 + Clamp01(e.roleWeight) * 0.15
  }

  /** Each part is a number in [0, 1], so the mean is and the final clamp never cuts. */
  lemma FitBounds(e: Evidence)
    ensures 0.0 <= SemanticFit(e) <= 1.0 && 0.0 <= TopicFit(e) <= 1.0
    ensures 0.0 <= Fit(e) <= 1.0 && Clamp01(Fit(e)) == Fit(e)
    ensures SemanticFit(e) == 1.0 <==> e.hexisTokens != [] && forall t :: t in e.hexisTokens ==> t in e.candidateTokens
  {
    if e.hexisTokens != [] {
      var n, d := Overlap(e), |e.hexisTokens|;
      var q := n as real / d as real;
      assert q * d as real == n as real;
      if q > 1.0 {
        MulMonotone(1.0, q, d as real);
      }
      AllCount(e.hexisTokens, e.candidateTokens);
    }
  }

  lemma {:induction false} AllCount(tokens: seq<string>, known: set<string>)
    ensures Count(tokens, t => t in known) <= |tokens|
    ensures Count(tokens, t => t in known) == |tokens| <==> forall t :: t in tokens ==> t in known
  {
    if tokens != [] {
      assert tokens == [tokens[0]] + tokens[1..];
      AllCount(tokens[1..], known);
    }
  }

  lemma {:induction false} CountSnoc<T>(s: seq<T>, x: T, p: T -> bool)
    ensures Count(s + [x], p) == Count(s, p) + if p(x) then 1 else 0
  {
    if s == [] {
      assert s + [x] == [x];
    } else {
      assert (s + [x])[1..] == s[1..] + [x];
      CountSnoc(s[1..], x, p);
    }
  }

  method ScoreHexisFit(e: Evidence) returns (fit: real)
    ensures fit == Fit(e) && 0.0 <= fit <= 1.0
  {
    if !e.allowed {
      return 0.0;
    }
    FitBounds(e);
    var overlap, i := 0, 0;
    while i < |e.hexisTokens|
      invariant 0 <= i <= |e.hexisTokens|
      invariant overlap == Count(e.hexisTokens[..i], t => t in e.candidateTokens)
    {
      CountSnoc(e.hexisTokens[..i], e.hexisTokens[i], t => t in e.candidateTokens);
      assert e.hexisTokens[..i + 1] == e.hexisTokens[..i] + [e.hexisTokens[i]];
      if e.hexisTokens[i] in e.candidateTokens {
        overlap := overlap + 1;
      }
      i := i + 1;
    }
    assert e.hexisTokens[..i] == e.hexisTokens;
    var semanticFit := 0.0;
    if |e.hexisTokens| > 0 {
      semanticFit := overlap as real / |e.hexisTokens| as real;
    }
    var topicFit, j := 0.0, 0;
    while j < |e.topics|
      invariant 0 <= j <= |e.topics| && topicFit == TopicSum(e.topics[..j])
    {
      assert e.topics[..j + 1][..j] == e.topics[..j];
      if e.topics[j].named {
        topicFit := topicFit + Max0(e.topics[j].weight);
      }
      j := j + 1;
    }
    assert e.topics[..j] == e.topics;
    topicFit := Clamp01(topicFit / (if e.topics == [] then 1.0 else |e.topics| as real));
    fit := Clamp01(semanticFit * 0.6 + topicFit * 0.25 + Clamp01(e.roleWeight) * 0.15);
  }
}
