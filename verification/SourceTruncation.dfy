/** Shortening a source turn that is too large (src/capture/source-turn-identity.ts:59-66). */
module SourceTruncation {
  import opened SourceChunker

  const MAX_SOURCE_BYTES: nat := 262144

  const REPLACEMENT: Unit := 0xFFFD

  /** A newline and the marker [TRUNCATED_SOURCE_TURN]. */
  const OMISSION: seq<Unit> :=
    [10, 91, 84, 82, 85, 78, 67, 65, 84, 69, 68, 95, 83, 79, 85, 82, 67, 69, 95, 84, 85, 82, 78, 93]

  /** What encoding to UTF-8 and decoding again gives: a lone surrogate becomes U+FFFD. */
  function WellFormed(s: seq<Unit>): (t: seq<Unit>)
    ensures |t| == |s|
    decreases |s|
  {
    if s == [] then []
    else if Width(s) == 2 then s[..2] + WellFormed(s[2..])
    else [if High(s[0]) || Low(s[0]) then REPLACEMENT else s[0]] + WellFormed(s[1..])
  }

  /** Units of the code points whose bytes all lie in the first `max` bytes. */
  function Fit(s: seq<Unit>, max: nat): (p: nat)
    ensures p <= |s|
    decreases |s|
  {
    if s == [] || Size(s) > max then 0 else Width(s) + Fit(s[Width(s)..], max - Size(s))
  }

  /** Decoding a cut code point ends in U+FFFD, which is stripped with any other at the end. */
  function Strip(s: seq<Unit>): (t: seq<Unit>)
    ensures |t| <= |s| && t == s[..|t|] && (t != [] ==> t[|t| - 1] != REPLACEMENT)
    ensures forall i :: |t| <= i < |s| ==> s[i] == REPLACEMENT
    decreases |s|
  {
    if s != [] && s[|s| - 1] == REPLACEMENT then Strip(s[..|s| - 1]) else s
  }

  function Shorten(redacted: seq<Unit>): seq<Unit> {
    if Bytes(redacted) <= MAX_SOURCE_BYTES then redacted
    else Strip(WellFormed(redacted[..Fit(redacted, MAX_SOURCE_BYTES - |OMISSION|)])) + OMISSION
  }

  /** The longest run of whole code points within the limit. */
  lemma {:induction false} FitIs(s: seq<Unit>, max: nat)
    ensures var p := Fit(s, max);
      && CleanCut(s, p) && Bytes(s[..p]) <= max
      && (p < |s| ==> Bytes(s[..p]) + Size(s[p..]) > max)
    decreases |s|
  {
    hide Bytes;
    if s == [] || Size(s) > max {
      NothingFits(s);
    } else {
      var w := Width(s);
      var rest, q := s[w..], Fit(s[w..], max - Size(s));
      FitIs(rest, max - Size(s));
      AfterPoint(s, q);
    }
  }

  lemma NothingFits(s: seq<Unit>)
    ensures Bytes(s[..0]) == 0 && s[0..] == s
  {
  }

  /** A cut in the rest is a cut one code point further on. */
  lemma AfterPoint(s: seq<Unit>, q: nat)
    requires s != [] && q <= |s| - Width(s) && CleanCut(s[Width(s)..], q)
    ensures var w := Width(s);
      CleanCut(s, w + q) && Bytes(s[..w + q]) == Size(s) + Bytes(s[w..][..q]) && s[w + q..] == s[w..][q..]
  {
    var w := Width(s);
    var head := s[..w + q];
    assert head[w..] == s[w..][..q];
    assert Width(head) == w && Size(head) == Size(s);
  }

  /** A unit is one half of a surrogate pair. */
  predicate InPair(s: seq<Unit>, i: nat)
    requires i < |s|
  {
    (High(s[i]) && i + 1 < |s| && Low(s[i + 1])) || (Low(s[i]) && i > 0 && High(s[i - 1]))
  }

  /** Exactly the surrogates without their other half become U+FFFD; every other unit stays. */
  lemma {:induction false} WellFormedAt(s: seq<Unit>, i: nat)
    requires i < |s|
    ensures WellFormed(s)[i] == if (High(s[i]) || Low(s[i])) && !InPair(s, i) then REPLACEMENT else s[i]
    decreases |s|
  {
    var w := Width(s);
    if i >= w {
      WellFormedAt(s[w..], i - w);
      assert s[w..][i - w] == s[i];
    }
  }

  lemma {:induction false} WellFormedBytes(s: seq<Unit>)
    ensures Bytes(WellFormed(s)) == Bytes(s)
    decreases |s|
  {
    if s != [] {
      var w := Width(s);
      WellFormedBytes(s[w..]);
      WellFormedHead(s);
      assert WellFormed(s)[w..] == WellFormed(s[w..]);
    }
  }

  /** The first code point keeps its width and size. */
  lemma WellFormedHead(s: seq<Unit>)
    requires s != []
    ensures Width(WellFormed(s)) == Width(s) && Size(WellFormed(s)) == Size(s)
  {
    if Width(s) == 1 && |s| > 1 {
      assert Low(WellFormed(s)[1]) ==> Low(s[1]) || High(s[1]);
    }
  }

  /** Encoding a prefix that ends between code points is a prefix of encoding the whole. */
  lemma {:induction false} WellFormedCut(s: seq<Unit>, p: nat)
    requires p <= |s| && CleanCut(s, p)
    ensures WellFormed(s[..p]) == WellFormed(s)[..p]
    decreases |s|
  {
    if p > 0 {
      var w := Width(s);
      WellFormedCut(s[w..], p - w);
      assert Width(s[..p]) == w && s[..p][w..] == s[w..][..p - w];
    }
  }

  lemma {:induction false} AsciiBytes(s: seq<Unit>)
    requires forall i :: 0 <= i < |s| ==> s[i] < 0x80
    ensures Bytes(s) == |s|
    decreases |s|
  {
    if s != [] {
      AsciiBytes(s[1..]);
    }
  }

  lemma BytesJoin(a: seq<Unit>, b: seq<Unit>)
    requires b == [] || !Low(b[0])
    ensures Bytes(a + b) == Bytes(a) + Bytes(b)
  {
    assert (a + b)[..|a|] == a && (a + b)[|a|..] == b;
    BytesCut(a + b, |a|);
  }

  /** Stripping takes nothing but whole code points away. */
  lemma {:induction false} StripBytes(s: seq<Unit>)
    ensures Bytes(Strip(s)) <= Bytes(s)
    decreases |s|
  {
    if s != [] && s[|s| - 1] == REPLACEMENT {
      BytesCut(s, |s| - 1);
      StripBytes(s[..|s| - 1]);
    }
  }

  /** Cutting a text that is too large and appending a mark of one-byte units. */
  lemma CutAndMark(s: seq<Unit>, max: nat, mark: seq<Unit>) returns (kept: nat, fit: nat)
    requires Bytes(mark) == |mark| <= max < Bytes(s) && mark != [] && !Low(mark[0])
    ensures kept <= fit < |s| && CleanCut(s, fit) && fit == Fit(s, max - |mark|)
    ensures Bytes(s[..fit]) + |mark| <= max < Bytes(s[..fit]) + Size(s[fit..]) + |mark|
    ensures Strip(WellFormed(s[..fit])) == WellFormed(s)[..kept]
    ensures Bytes(WellFormed(s)[..kept] + mark) <= max
    ensures forall i :: kept <= i < fit ==> WellFormed(s)[i] == REPLACEMENT
  {
    hide Bytes, WellFormed, Fit, Strip;
    fit := Fit(s, max - |mark|);
    FitIs(s, max - |mark|);
    assert s[..|s|] == s;
    var head := WellFormed(s[..fit]);
    kept := |Strip(head)|;
    WellFormedCut(s, fit);
    WellFormedBytes(s[..fit]);
    StripBytes(head);
    BytesJoin(Strip(head), mark);
    assert head[..kept] == WellFormed(s)[..kept];
  }

  lemma OmissionBytes()
    ensures Bytes(OMISSION) == |OMISSION| == 24 && !Low(OMISSION[0])
  {
    AsciiBytes(OMISSION);
  }

  /** The stored text always fits, keeps as much of the front as fits, and says when something
      is missing; storing it again changes nothing. */
  lemma ShortenFits(redacted: seq<Unit>) returns (kept: nat, fit: nat)
    ensures Bytes(Shorten(redacted)) <= MAX_SOURCE_BYTES && Shorten(Shorten(redacted)) == Shorten(redacted)
    ensures Bytes(redacted) <= MAX_SOURCE_BYTES ==> Shorten(redacted) == redacted
    ensures Bytes(redacted) > MAX_SOURCE_BYTES ==>
      && kept <= fit < |redacted| && CleanCut(redacted, fit)
      && Bytes(redacted[..fit]) + |OMISSION| <= MAX_SOURCE_BYTES < Bytes(redacted[..fit]) + Size(redacted[fit..]) + |OMISSION|
      && Shorten(redacted) == WellFormed(redacted)[..kept] + OMISSION
      && (forall i :: kept <= i < fit ==> WellFormed(redacted)[i] == REPLACEMENT)
  {
    hide Bytes, WellFormed, Fit, Strip;
    kept, fit := 0, 0;
    if Bytes(redacted) > MAX_SOURCE_BYTES {
      OmissionBytes();
      kept, fit := CutAndMark(redacted, MAX_SOURCE_BYTES, OMISSION);
    }
  }
}
