/** Splitting a source turn into chunks of bounded UTF-8 size, over UTF-16 units
    (src/capture/source-turn-identity.ts:96-113). */
module SourceChunker {
  import opened Sequences

  type Unit = u: int | 0 <= u < 65536

  const NEWLINE: Unit := 10
  const BACKTICK: Unit := 96

  predicate High(u: Unit) {
    0xD800 <= u < 0xDC00
  }

  predicate Low(u: Unit) {
    0xDC00 <= u < 0xE000
  }

  /** Units of the first code point; a surrogate without its partner stands alone. */
  function Width(s: seq<Unit>): (n: nat)
    requires s != []
    ensures 1 <= n <= 2 && n <= |s|
  {
    if |s| > 1 && High(s[0]) && Low(s[1]) then 2 else 1
  }

  /** UTF-8 size of the first code point; a lone surrogate is replaced by three bytes. */
  function Size(s: seq<Unit>): (n: nat)
    requires s != []
    ensures Width(s) <= n <= 4 && n <= 3 * Width(s)
  {
    if Width(s) == 2 then 4 else if s[0] < 0x80 then 1 else if s[0] < 0x800 then 2 else 3
  }

  function Bytes(s: seq<Unit>): nat {
    if s == [] then 0 else Size(s) + Bytes(s[Width(s)..])
  }

  /** A cut at `k` does not separate a surrogate pair. */
  predicate CleanCut(s: seq<Unit>, k: nat)
    requires k <= |s|
  {
    !(0 < k < |s| && High(s[k - 1]) && Low(s[k]))
  }

  lemma {:induction false} BytesCut(s: seq<Unit>, k: nat)
    requires k <= |s| && CleanCut(s, k)
    ensures Bytes(s) == Bytes(s[..k]) + Bytes(s[k..])
    decreases |s|
  {
    if k == 0 {
      assert s[..0] == [] && s[0..] == s;
    } else {
      var w := Width(s);
      assert w <= k;
      assert Width(s[..k]) == w && Size(s[..k]) == Size(s);
      assert s[..k][w..] == s[w..][..k - w] && s[w..][k - w..] == s[k..];
      BytesCut(s[w..], k - w);
    }
  }

  lemma {:induction false} BytesBounds(s: seq<Unit>)
    ensures |s| <= Bytes(s) <= 3 * |s|
    decreases |s|
  {
    if s != [] {
      BytesBounds(s[Width(s)..]);
    }
  }

  predicate OccursAt(s: seq<Unit>, pattern: seq<Unit>, i: int) {
    0 <= i && i + |pattern| <= |s| && s[i..i + |pattern|] == pattern
  }

  /** The position of the last occurrence of a pattern, or -1. */
  function LastIndexOf(s: seq<Unit>, pattern: seq<Unit>): (i: int)
    ensures i == -1 || OccursAt(s, pattern, i)
    ensures forall j :: OccursAt(s, pattern, j) ==> j <= i
  {
    LastIndexBelow(s, pattern, |s|)
  }

  function LastIndexBelow(s: seq<Unit>, pattern: seq<Unit>, n: nat): (i: int)
    ensures -1 <= i <= n && (i == -1 || OccursAt(s, pattern, i))
    ensures forall j :: OccursAt(s, pattern, j) && j <= n ==> j <= i
    decreases n
  {
    if OccursAt(s, pattern, n) then n else if n == 0 then -1 else LastIndexBelow(s, pattern, n - 1)
  }

  function Max(a: int, b: int): int {
    if a > b then a else b
  }

  /** Where the prefix is cut: two units into a late paragraph break or fence, else at its end. */
  function Split(prefix: seq<Unit>): (k: nat)
    ensures k <= |prefix|
    ensures 2 * k > |prefix| || |prefix| == 0
    ensures k == |prefix| || (k > 0 && !High(prefix[k - 1]))
  {
    var boundary := Max(LastIndexOf(prefix, [NEWLINE, NEWLINE]), LastIndexOf(prefix, [NEWLINE, BACKTICK, BACKTICK, BACKTICK]));
    if 2 * boundary > |prefix| then
      SplitAfter(prefix, boundary);
      boundary + 2
    else |prefix|
  }

  lemma SplitAfter(prefix: seq<Unit>, boundary: int)
    requires boundary >= 0
    requires boundary == LastIndexOf(prefix, [NEWLINE, NEWLINE])
          || boundary == LastIndexOf(prefix, [NEWLINE, BACKTICK, BACKTICK, BACKTICK])
    ensures boundary + 2 <= |prefix| && !High(prefix[boundary + 1])
  {
    if boundary == LastIndexOf(prefix, [NEWLINE, NEWLINE]) {
      assert prefix[boundary..boundary + 2][1] == NEWLINE;
    } else {
      assert prefix[boundary..boundary + 4][1] == BACKTICK;
    }
  }

  /** A cut inside the prefix is right after a paragraph break, or it cuts a fence in two: the
      chunk keeps one backtick and the next chunk begins with the other two. */
  lemma SplitPlace(prefix: seq<Unit>)
    requires Split(prefix) < |prefix|
    ensures var k := Split(prefix);
      && k >= 2
      && (OccursAt(prefix, [NEWLINE, NEWLINE], k - 2) <==>
          LastIndexOf(prefix, [NEWLINE, NEWLINE]) > LastIndexOf(prefix, [NEWLINE, BACKTICK, BACKTICK, BACKTICK]))
      && (OccursAt(prefix, [NEWLINE, BACKTICK, BACKTICK, BACKTICK], k - 2) <==>
          LastIndexOf(prefix, [NEWLINE, BACKTICK, BACKTICK, BACKTICK]) > LastIndexOf(prefix, [NEWLINE, NEWLINE]))
  {
    var k := Split(prefix);
    var breaks, fence := LastIndexOf(prefix, [NEWLINE, NEWLINE]), LastIndexOf(prefix, [NEWLINE, BACKTICK, BACKTICK, BACKTICK]);
    assert OccursAt(prefix, [NEWLINE, NEWLINE], k - 2) ==> prefix[k - 2..k][1] == NEWLINE;
    assert OccursAt(prefix, [NEWLINE, BACKTICK, BACKTICK, BACKTICK], k - 2) ==> prefix[k - 2..k + 2][1] == BACKTICK;
  }

  /** A paragraph break or a fence starts at place `i`. */
  predicate Break(prefix: seq<Unit>, i: nat) {
    || (i + 2 <= |prefix| && prefix[i] == 10 && prefix[i + 1] == 10)
    || (i + 4 <= |prefix| && prefix[i] == 10 && prefix[i + 1] == 96 && prefix[i + 2] == 96 && prefix[i + 3] == 96)
  }

  /** The cut lies two units behind the last break if that starts in the second half of the prefix, else at
      its end. */
  lemma SplitAtBreak(prefix: seq<Unit>)
    ensures forall i: nat :: Break(prefix, i) && 2 * i > |prefix| && (forall j: nat :: Break(prefix, j) ==> j <= i) ==> Split(prefix) == i + 2
    ensures (forall i: nat :: Break(prefix, i) ==> 2 * i <= |prefix|) ==> Split(prefix) == |prefix|
  {
    forall i: nat
      ensures Break(prefix, i) <==> OccursAt(prefix, [NEWLINE, NEWLINE], i) || OccursAt(prefix, [NEWLINE, BACKTICK, BACKTICK, BACKTICK], i)
    {
      BreakOccurs(prefix, i);
    }
  }

  lemma BreakOccurs(prefix: seq<Unit>, i: nat)
    ensures Break(prefix, i) <==> OccursAt(prefix, [NEWLINE, NEWLINE], i) || OccursAt(prefix, [NEWLINE, BACKTICK, BACKTICK, BACKTICK], i)
  {
    if i + 2 <= |prefix| {
      assert prefix[i..i + 2] == [prefix[i], prefix[i + 1]];
    }
    if i + 4 <= |prefix| {
      assert prefix[i..i + 4] == [prefix[i], prefix[i + 1], prefix[i + 2], prefix[i + 3]];
    }
  }

  /** As many code points as fit. */
  method Prefix(rest: seq<Unit>, maxBytes: nat) returns (p: nat)
    requires maxBytes >= 4 && Bytes(rest) > maxBytes
    ensures 0 < p < |rest| && CleanCut(rest, p)
    ensures maxBytes - 3 <= Bytes(rest[..p]) <= maxBytes
  {
    p := 0;
    var bytes := 0;
    assert rest[..0] == [] && rest[0..] == rest;
    while p < |rest| && bytes + Size(rest[p..]) <= maxBytes
      invariant p <= |rest| && CleanCut(rest, p)
      invariant bytes == Bytes(rest[..p]) <= maxBytes
      decreases |rest| - p
    {
      var w := Width(rest[p..]);
      NextPoint(rest, p);
      bytes := bytes + Size(rest[p..]);
      p := p + w;
    }
    assert rest[..|rest|] == rest;
  }

  lemma NextPoint(s: seq<Unit>, p: nat)
    requires p < |s| && CleanCut(s, p)
    ensures var q := p + Width(s[p..]);
      q <= |s| && CleanCut(s, q) && Bytes(s[..q]) == Bytes(s[..p]) + Size(s[p..])
  {
    var w := Width(s[p..]);
    var q := p + w;
    var t := s[..q];
    assert t[..p] == s[..p] && t[p..] == s[p..][..w];
    assert CleanCut(t, p);
    BytesCut(t, p);
    var first := s[p..][..w];
    assert Width(first) == w && Size(first) == Size(s[p..]) && first[w..] == [];
  }

  /** A chunk that is not the last one. */
  ghost predicate Filled(chunk: seq<Unit>, maxBytes: nat) {
    chunk != [] && Bytes(chunk) <= maxBytes && 6 * Bytes(chunk) > maxBytes - 3
  }

  /** Every cut between chunks keeps surrogate pairs whole. */
  ghost predicate CutsClean(chunks: seq<seq<Unit>>) {
    forall i :: 0 <= i < |chunks| - 1 && chunks[i] != [] && chunks[i + 1] != [] ==>
      !(High(chunks[i][|chunks[i]| - 1]) && Low(chunks[i + 1][0]))
  }

  lemma SplitFills(rest: seq<Unit>, p: nat, maxBytes: nat)
    requires 0 < p < |rest| && CleanCut(rest, p) && maxBytes - 3 <= Bytes(rest[..p]) <= maxBytes
    ensures var k := Split(rest[..p]);
      0 < k <= p && CleanCut(rest, k) && Filled(rest[..k], maxBytes)
  {
    var prefix := rest[..p];
    var k := Split(prefix);
    assert CleanCut(prefix, k) && prefix[..k] == rest[..k];
    BytesCut(prefix, k);
    BytesBounds(prefix);
    BytesBounds(rest[..k]);
  }

  /** The chunks put together are the text; each is non-empty and fits; all but the last hold
      more than a sixth of the limit; no code point is cut. */
  method ChunkSourceTurn(content: seq<Unit>, maxBytes: nat) returns (chunks: seq<seq<Unit>>)
    requires maxBytes >= 4
    ensures Concat(chunks) == content
    ensures forall i :: 0 <= i < |chunks| ==> chunks[i] != [] && Bytes(chunks[i]) <= maxBytes
    ensures forall i :: 0 <= i < |chunks| - 1 ==> 6 * Bytes(chunks[i]) > maxBytes - 3
    ensures CutsClean(chunks)
  {
    hide Bytes, Split;
    chunks := [];
    if content == [] {
      return;
    }
    var rest := content;
    while Bytes(rest) > maxBytes
      invariant Concat(chunks) + rest == content && rest != []
      invariant forall i :: 0 <= i < |chunks| ==> Filled(chunks[i], maxBytes)
      invariant CutsClean(chunks + [rest])
      decreases |rest|
    {
      var p := Prefix(rest, maxBytes);
      var split := Split(rest[..p]);
      SplitFills(rest, p, maxBytes);
      ConcatSnoc(chunks, rest[..split]);
      assert Concat(chunks) + rest == Concat(chunks) + rest[..split] + rest[split..];
      CutNext(chunks, rest, split);
      chunks := chunks + [rest[..split]];
      rest := rest[split..];
    }
    ConcatSnoc(chunks, rest);
    chunks := chunks + [rest];
  }

  lemma CutNext(chunks: seq<seq<Unit>>, rest: seq<Unit>, k: nat)
    requires 0 < k < |rest| && CleanCut(rest, k) && CutsClean(chunks + [rest])
    ensures CutsClean(chunks + [rest[..k]] + [rest[k..]])
  {
    var before, after := chunks + [rest], chunks + [rest[..k]] + [rest[k..]];
    forall i | 0 <= i < |after| - 1 && after[i] != [] && after[i + 1] != []
      ensures !(High(after[i][|after[i]| - 1]) && Low(after[i + 1][0]))
    {
      if i < |chunks| {
        assert after[i] == before[i] && after[i + 1][0] == before[i + 1][0];
      }
    }
  }
}
