/** Excerpt windows, their budget and the rendered block (src/recall/source-excerpts.ts:19-103). */
module SourceExcerpts {
  import opened OrderedMap
  import ClaimText

  /** A word by its place in the source. */
  datatype Word = Word(start: nat, end: nat)

  /** Term matching: what a text mentions, a longer one mentions too. */
  datatype Env = Env(mentions: (string, string) -> bool) {
    ghost predicate Valid() {
      forall a, b, t :: Within(a, b) && mentions(a, t) ==> mentions(b, t)
    }
  }

  ghost predicate Within(a: string, b: string) {
    exists x, y :: b == x + a + y
  }

  // ---------------------------------------------------------------- token counts

  /** Angle brackets become entities. */
  function EscapeAngles(s: string): (r: string)
    ensures forall c :: c in r ==> c != '<' && c != '>'
  {
    if s == "" then ""
    else (if s[0] == '<' then "&lt;" else if s[0] == '>' then "&gt;" else [s[0]]) + EscapeAngles(s[1..])
  }

  /** neutralize without a nonce: escapes, then joins words with an invisible separator. */
  function Neutral(s: string): (r: string)
    ensures forall c :: c in r ==> c != '<' && c != '>'
  {
    Separate(EscapeAngles(s))
  }

  /** Every run of white space becomes one U+2063. */
  function Separate(s: string): (r: string)
    ensures forall c :: c in r ==> c == '\U{2063}' || c in s
  {
    if s == "" then ""
    else if !ClaimText.Space(s[0]) then [s[0]] + Separate(s[1..])
    else if |s| > 1 && ClaimText.Space(s[1]) then Separate(s[1..])
    else ['\U{2063}'] + Separate(s[1..])
  }

  function Tokens(text: string): nat {
    (|text| + 3) / 4
  }

  /** The tokens of a window once it is neutralized. */
  function WindowTokens(text: string): nat {
    Tokens(Neutral(text))
  }

  lemma {:induction false} EscapeJoin(a: string, b: string)
    ensures EscapeAngles(a + b) == EscapeAngles(a) + EscapeAngles(b)
  {
    if a == "" {
      assert a + b == b;
    } else {
      assert (a + b)[0] == a[0] && (a + b)[1..] == a[1..] + b;
      EscapeJoin(a[1..], b);
    }
  }

  lemma {:induction false} SeparateSome(s: string)
    requires s != ""
    ensures Separate(s) != ""
  {
    if ClaimText.Space(s[0]) && |s| > 1 && ClaimText.Space(s[1]) {
      SeparateSome(s[1..]);
    }
  }

  lemma {:induction false} SeparatePrefix(a: string, y: string)
    ensures |Separate(a)| <= |Separate(a + y)|
  {
    if a != "" {
      assert (a + y)[0] == a[0] && (a + y)[1..] == a[1..] + y;
      if |a| == 1 {
        SeparateSome(a + y);
        assert a[1..] == "";
      } else {
        assert (a + y)[1] == a[1];
        SeparatePrefix(a[1..], y);
      }
    }
  }

  lemma {:induction false} SeparateSuffix(x: string, a: string)
    ensures |Separate(a)| <= |Separate(x + a)|
  {
    if x == "" {
      assert x + a == a;
    } else {
      assert (x + a)[1..] == x[1..] + a;
      SeparateSuffix(x[1..], a);
    }
  }

  /** A text needs at least the tokens of every piece of it. */
  lemma TokensGrow(a: string, b: string)
    requires Within(a, b)
    ensures WindowTokens(a) <= WindowTokens(b)
  {
    var x, y :| b == x + a + y;
    EscapeJoin(x + a, y);
    EscapeJoin(x, a);
    SeparateSuffix(EscapeAngles(x), EscapeAngles(a));
    SeparatePrefix(EscapeAngles(x) + EscapeAngles(a), EscapeAngles(y));
  }

  lemma EscapeSome(s: string)
    requires s != ""
    ensures EscapeAngles(s) != ""
  {
  }

  lemma TokensSome(s: string)
    requires s != ""
    ensures WindowTokens(s) > 0
  {
    EscapeSome(s);
    SeparateSome(EscapeAngles(s));
  }

  // ---------------------------------------------------------------- words

  /** Where the run of other characters at `i` ends. */
  function WordEnd(s: string, i: nat): (e: nat)
    requires i <= |s|
    ensures i <= e <= |s| && (e < |s| ==> ClaimText.Space(s[e]))
    ensures forall k :: i <= k < e ==> !ClaimText.Space(s[k])
    decreases |s| - i
  {
    if i == |s| || ClaimText.Space(s[i]) then i else WordEnd(s, i + 1)
  }

  /** The words from place `i` on: the runs of characters that are not white space. */
  function Words(s: string, i: nat): seq<Word>
    requires i <= |s|
    decreases |s| - i
  {
    if i == |s| then []
    else if ClaimText.Space(s[i]) then Words(s, i + 1)
    else [Word(i, WordEnd(s, i))] + Words(s, WordEnd(s, i))
  }

  ghost predicate InWord(words: seq<Word>, k: nat) {
    exists w :: w in words && w.start <= k < w.end
  }

  /** The words are in order and apart, and a place lies in one of them exactly when it holds no
      white space. */
  lemma {:induction false} WordsAre(s: string, i: nat)
    requires i <= |s|
    ensures WordsOf(Words(s, i), s) && forall w :: w in Words(s, i) ==> i <= w.start
    ensures forall k :: i <= k < |s| ==> (InWord(Words(s, i), k) <==> !ClaimText.Space(s[k]))
    ensures i < |s| && ClaimText.Space(s[i]) ==> forall w :: w in Words(s, i) ==> i < w.start
    decreases |s| - i
  {
    if i < |s| {
      if ClaimText.Space(s[i]) {
        WordsAre(s, i + 1);
      } else {
        var e := WordEnd(s, i);
        WordsAre(s, e);
        WordFirst(Word(i, e), Words(s, e), s);
      }
    }
  }

  lemma WordFirst(w: Word, rest: seq<Word>, s: string)
    requires w.start < w.end <= |s| && WordsOf(rest, s) && forall v :: v in rest ==> w.end < v.start
    ensures WordsOf([w] + rest, s)
    ensures forall k: nat :: InWord([w] + rest, k) <==> w.start <= k < w.end || InWord(rest, k)
  {
    forall k: nat | w.start <= k < w.end || InWord(rest, k)
      ensures InWord([w] + rest, k)
    {
      if w.start <= k < w.end {
        assert w in [w] + rest;
      } else {
        var v :| v in rest && v.start <= k < v.end;
        assert v in [w] + rest;
      }
    }
  }

  /** Words in order, non-empty, inside the source. */
  ghost predicate WordsOf(words: seq<Word>, source: string) {
    && (forall i :: 0 <= i < |words| ==> words[i].start < words[i].end <= |source|)
    && (forall i, j :: 0 <= i < j < |words| ==> words[i].end < words[j].start)
  }

  /** The source from word `i` up to, not including, word `j`. */
  function Slice(source: string, words: seq<Word>, i: nat, j: nat): string
    requires WordsOf(words, source) && i < j <= |words|
  {
    assert i == j - 1 || words[i].end < words[j - 1].start;
    source[words[i].start..words[j - 1].end]
  }

  lemma SliceWithin(source: string, words: seq<Word>, i: nat, j: nat, k: nat, l: nat)
    requires WordsOf(words, source) && k <= i < j <= l <= |words|
    ensures Within(Slice(source, words, i, j), Slice(source, words, k, l))
    ensures |Slice(source, words, i, j)| <= |Slice(source, words, k, l)|
    ensures k < i ==> |Slice(source, words, i, j)| < |Slice(source, words, k, l)|
  {
    var a, b, c, d := words[k].start, words[i].start, words[j - 1].end, words[l - 1].end;
    assert k == i || words[k].end < words[i].start;
    assert j == l || words[j - 1].end < words[l - 1].start;
    assert i == j - 1 || words[i].end < words[j - 1].start;
    assert source[a..d] == source[a..b] + source[b..c] + source[c..d];
  }

  /** How many fact tokens the text mentions. */
  function Score(env: Env, text: string, terms: seq<string>): nat {
    if terms == [] then 0 else (if env.mentions(text, terms[0]) then 1 else 0) + Score(env, text, terms[1..])
  }

  lemma {:induction false} ScoreGrows(env: Env, a: string, b: string, terms: seq<string>)
    requires env.Valid() && Within(a, b)
    ensures Score(env, a, terms) <= Score(env, b, terms)
  {
    if terms != [] {
      ScoreGrows(env, a, b, terms[1..]);
    }
  }

  // ---------------------------------------------------------------- the best window

  /** The longest window from word `i` that fits: its end, or `i` if not even one word fits. */
  function Reach(source: string, words: seq<Word>, maxTokens: nat, i: nat, j: nat): (end: nat)
    requires WordsOf(words, source) && i <= j <= |words| && i < |words|
    ensures j <= end <= |words|
    decreases |words| - j
  {
    if j < |words| && WindowTokens(Slice(source, words, i, j + 1)) <= maxTokens
    then Reach(source, words, maxTokens, i, j + 1) else j
  }

  datatype Window = Window(start: nat, end: nat, score: int)

  const NONE_YET := Window(0, 0, -1)

  /** Whether the window from word `i` replaces the best so far, and the best after it. */
  function Improve(env: Env, source: string, words: seq<Word>, terms: seq<string>, maxTokens: nat, best: Window, i: nat): Window
    requires WordsOf(words, source) && i < |words|
  {
    var end := Reach(source, words, maxTokens, i, i);
    if end == i then best
    else
      var text := Slice(source, words, i, end);
      var score := Score(env, text, terms);
      if score > best.score || (score == best.score && |text| > best.end - best.start)
      then Window(words[i].start, words[end - 1].end, score) else best
  }

  /** Every start, without an early exit. */
  function Scan(env: Env, source: string, words: seq<Word>, terms: seq<string>, maxTokens: nat, n: nat): Window
    requires WordsOf(words, source) && n <= |words|
  {
    if n == 0 then NONE_YET
    else Improve(env, source, words, terms, maxTokens, Scan(env, source, words, terms, maxTokens, n - 1), n - 1)
  }

  lemma {:induction false} ReachIs(source: string, words: seq<Word>, maxTokens: nat, i: nat, j: nat)
    requires WordsOf(words, source) && i <= j <= |words| && i < |words|
    requires j == i || WindowTokens(Slice(source, words, i, j)) <= maxTokens
    ensures var end := Reach(source, words, maxTokens, i, j);
      && (end == i || WindowTokens(Slice(source, words, i, end)) <= maxTokens)
      && (end < |words| ==> WindowTokens(Slice(source, words, i, end + 1)) > maxTokens)
    decreases |words| - j
  {
    if j < |words| && WindowTokens(Slice(source, words, i, j + 1)) <= maxTokens {
      ReachIs(source, words, maxTokens, i, j + 1);
    }
  }

  lemma {:induction false} ReachTo(source: string, words: seq<Word>, maxTokens: nat, i: nat, j: nat)
    requires WordsOf(words, source) && i <= j <= |words| && i < |words|
    requires forall k :: i < k <= |words| ==> WindowTokens(Slice(source, words, i, k)) <= maxTokens
    ensures Reach(source, words, maxTokens, i, j) == |words|
    decreases |words| - j
  {
    if j < |words| {
      ReachTo(source, words, maxTokens, i, j + 1);
    }
  }

  /** Once a window reaches the last word, every later window lies inside it and reaches the
      last word too. */
  lemma LaterReach(source: string, words: seq<Word>, maxTokens: nat, i: nat, j: nat)
    requires WordsOf(words, source) && i < j < |words|
    requires Reach(source, words, maxTokens, i, i) == |words|
    ensures Reach(source, words, maxTokens, j, j) == |words|
  {
    hide Slice, WindowTokens, Within;
    ReachIs(source, words, maxTokens, i, i);
    forall k | j < k <= |words|
      ensures WindowTokens(Slice(source, words, j, k)) <= maxTokens
    {
      SliceWithin(source, words, j, k, i, |words|);
      TokensGrow(Slice(source, words, j, k), Slice(source, words, i, |words|));
    }
    ReachTo(source, words, maxTokens, j, j);
  }

  /** `best` is at least as good as the window from word `i` to the last word. */
  ghost predicate Covers(env: Env, source: string, words: seq<Word>, terms: seq<string>, best: Window, i: nat)
    requires WordsOf(words, source) && i < |words|
  {
    var text := Slice(source, words, i, |words|);
    var score := Score(env, text, terms);
    best.score > score || (best.score == score && best.end - best.start >= |text|)
  }

  /** The scan's result is at least as good as every start's window, and is one of them. */
  lemma {:induction false} ScanIsBest(env: Env, source: string, words: seq<Word>, terms: seq<string>, maxTokens: nat, n: nat)
    requires WordsOf(words, source) && n <= |words|
    ensures var best := Scan(env, source, words, terms, maxTokens, n);
      && (best == NONE_YET || IsWindow(env, source, words, terms, maxTokens, best))
      && forall i :: 0 <= i < n ==> NotBetter(env, source, words, terms, maxTokens, best, i)
  {
    hide Slice, Score, WindowTokens;
    if n > 0 {
      ScanIsBest(env, source, words, terms, maxTokens, n - 1);
      var before, best := Scan(env, source, words, terms, maxTokens, n - 1), Scan(env, source, words, terms, maxTokens, n);
      var end := Reach(source, words, maxTokens, n - 1, n - 1);
      if end != n - 1 {
        SliceLength(source, words, n - 1, end);
        ReachIs(source, words, maxTokens, n - 1, n - 1);
        if best != before {
          assert IsAt(env, source, words, terms, maxTokens, best, n - 1, end);
        }
      }
      forall i | 0 <= i < n - 1
        ensures NotBetter(env, source, words, terms, maxTokens, best, i)
      {
        assert NotBetter(env, source, words, terms, maxTokens, before, i);
      }
    }
  }

  /** `best` is the window of words `i` to `j`, which fits the token limit. */
  ghost predicate IsAt(env: Env, source: string, words: seq<Word>, terms: seq<string>, maxTokens: nat, best: Window, i: nat, j: nat)
    requires WordsOf(words, source) && i < j <= |words|
  {
    best == Window(words[i].start, words[j - 1].end, Score(env, Slice(source, words, i, j), terms))
    && WindowTokens(Slice(source, words, i, j)) <= maxTokens
  }

  ghost predicate IsWindow(env: Env, source: string, words: seq<Word>, terms: seq<string>, maxTokens: nat, best: Window)
    requires WordsOf(words, source)
  {
    exists i, j :: 0 <= i < j <= |words| && IsAt(env, source, words, terms, maxTokens, best, i, j)
  }

  /** The longest fitting window from word `i` mentions fewer fact tokens, or as many and is not longer. */
  ghost predicate NotBetter(env: Env, source: string, words: seq<Word>, terms: seq<string>, maxTokens: nat, best: Window, i: nat)
    requires WordsOf(words, source) && i < |words|
  {
    var end := Reach(source, words, maxTokens, i, i);
    end != i ==>
      var score := Score(env, Slice(source, words, i, end), terms);
      best.score > score || (best.score == score && best.end - best.start >= |Slice(source, words, i, end)|)
  }

  /** Early exit: after a window that reaches the last word no later start changes the best. */
  lemma {:induction false} EarlyExit(env: Env, source: string, words: seq<Word>, terms: seq<string>, maxTokens: nat, i: nat, n: nat)
    requires env.Valid() && WordsOf(words, source) && i < n <= |words|
    requires Reach(source, words, maxTokens, i, i) == |words|
    ensures Scan(env, source, words, terms, maxTokens, n) == Scan(env, source, words, terms, maxTokens, i + 1)
    ensures Covers(env, source, words, terms, Scan(env, source, words, terms, maxTokens, i + 1), i)
  {
    hide Slice, Within, WindowTokens;
    if n > i + 1 {
      EarlyExit(env, source, words, terms, maxTokens, i, n - 1);
      LaterReach(source, words, maxTokens, i, n - 1);
      SliceWithin(source, words, n - 1, |words|, i, |words|);
      ScoreGrows(env, Slice(source, words, n - 1, |words|), Slice(source, words, i, |words|), terms);
    } else {
      SliceLength(source, words, i, |words|);
    }
  }

  lemma SliceLength(source: string, words: seq<Word>, i: nat, j: nat)
    requires WordsOf(words, source) && i < j <= |words|
    ensures |Slice(source, words, i, j)| == words[j - 1].end - words[i].start
  {
  }

  lemma ScanStart(env: Env, source: string, words: seq<Word>, terms: seq<string>, maxTokens: nat)
    requires WordsOf(words, source)
    ensures Scan(env, source, words, terms, maxTokens, 0) == NONE_YET
  {
  }

  lemma ScanNext(env: Env, source: string, words: seq<Word>, terms: seq<string>, maxTokens: nat, i: nat)
    requires WordsOf(words, source) && i < |words|
    ensures Scan(env, source, words, terms, maxTokens, i + 1)
         == Improve(env, source, words, terms, maxTokens, Scan(env, source, words, terms, maxTokens, i), i)
  {
  }

  /** excerptWindow's search, with its early exit, finds the best window over all starts. */
  method BestWindow(env: Env, source: string, words: seq<Word>, terms: seq<string>, maxTokens: nat) returns (best: Window)
    requires env.Valid() && WordsOf(words, source)
    ensures best == Scan(env, source, words, terms, maxTokens, |words|)
  {
    hide Slice, Score, Within, Scan, WindowTokens;
    best := NONE_YET;
    ScanStart(env, source, words, terms, maxTokens);
    var start := 0;
    while start < |words|
      invariant 0 <= start <= |words| && best == Scan(env, source, words, terms, maxTokens, start)
    {
      var end := start;
      while end < |words| && WindowTokens(Slice(source, words, start, end + 1)) <= maxTokens
        invariant start <= end <= |words|
        invariant Reach(source, words, maxTokens, start, end) == Reach(source, words, maxTokens, start, start)
      {
        end := end + 1;
      }
      ScanNext(env, source, words, terms, maxTokens, start);
      start := start + 1;
      if end == start - 1 {
        continue;
      }
      var text := Slice(source, words, start - 1, end);
      var score := Score(env, text, terms);
      if score > best.score || (score == best.score && |text| > best.end - best.start) {
        best := Window(words[start - 1].start, words[end - 1].end, score);
      }
      if end == |words| {
        EarlyExit(env, source, words, terms, maxTokens, start - 1, |words|);
        break;
      }
    }
  }

  /** The text a window shows: nothing if not even one word fits. */
  function Shown(source: string, best: Window): string {
    if best.start <= best.end <= |source| then source[best.start..best.end] else ""
  }

  /** Where the window starts, ends and what it shows. */
  lemma WindowText(env: Env, source: string, words: seq<Word>, terms: seq<string>, maxTokens: nat, best: Window)
    requires WordsOf(words, source) && IsWindow(env, source, words, terms, maxTokens, best)
    ensures best.start < best.end <= |source| && best.score >= 0 && WindowTokens(Shown(source, best)) <= maxTokens
  {
    hide Score, WindowTokens;
    var i, j :| 0 <= i < j <= |words| && IsAt(env, source, words, terms, maxTokens, best, i, j);
    assert i == j - 1 || words[i].end < words[j - 1].start;
  }

  lemma NothingShown(env: Env, source: string, words: seq<Word>, terms: seq<string>, maxTokens: nat)
    requires WordsOf(words, source) && (words == [] || maxTokens == 0)
    ensures Scan(env, source, words, terms, maxTokens, |words|) == NONE_YET
  {
    hide Score, WindowTokens;
    ScanIsBest(env, source, words, terms, maxTokens, |words|);
    var best := Scan(env, source, words, terms, maxTokens, |words|);
    if best != NONE_YET {
      WindowText(env, source, words, terms, maxTokens, best);
      TokensSome(Shown(source, best));
      assert false;
    }
  }

  /** The window of a source: its text, and whether that is less than the source. */
  method ExcerptWindow(env: Env, source: string, terms: seq<string>, maxTokens: nat) returns (text: string, truncated: bool)
    requires env.Valid()
    ensures WordsOf(Words(source, 0), source)
    ensures text == Shown(source, Scan(env, source, Words(source, 0), terms, maxTokens, |Words(source, 0)|))
    ensures truncated <==> text != source
    ensures text == "" || WindowTokens(text) <= maxTokens
  {
    hide Scan, Score, Slice, WindowTokens, Words;
    WordsAre(source, 0);
    var words := Words(source, 0);
    if words == [] || maxTokens <= 0 {
      NothingShown(env, source, words, terms, maxTokens);
      return "", source != "";
    }
    var best := BestWindow(env, source, words, terms, maxTokens);
    ScanIsBest(env, source, words, terms, maxTokens, |words|);
    if best.score < 0 {
      assert words[0].start < words[0].end <= |source|;
      return "", true;
    }
    WindowText(env, source, words, terms, maxTokens, best);
    text := source[best.start..best.end];
    truncated := best.start > 0 || best.end < |source|;
  }

  // ---------------------------------------------------------------- rendering

  /** Which turn an excerpt quotes. */
  datatype Origin = Origin(fact: string, turn: string, client: string, role: string, occurredAt: Option<string>)

  datatype Excerpt = Excerpt(origin: Origin, text: string, truncated: bool)

  function CountChar(c: char, s: string): nat {
    if s == "" then 0 else (if s[0] == c then 1 else 0) + CountChar(c, s[1..])
  }

  lemma {:induction false} CountJoin(c: char, a: string, b: string)
    ensures CountChar(c, a + b) == CountChar(c, a) + CountChar(c, b)
  {
    if a == "" {
      assert a + b == b;
    } else {
      assert (a + b)[1..] == a[1..] + b;
      CountJoin(c, a[1..], b);
    }
  }

  /** `&`, `"` and angle brackets are dropped from attributes. */
  function Attribute(s: string): (r: string)
    ensures forall c :: c in r ==> c != '<' && c != '>'
  {
    if s == "" then ""
    else (if s[0] == '&' || s[0] == '\"' || s[0] == '<' || s[0] == '>' then "" else [s[0]]) + Attribute(s[1..])
  }

  lemma {:induction false} NoneOf(c: char, s: string)
    requires forall d :: d in s ==> d != c
    ensures CountChar(c, s) == 0
  {
    if s != "" {
      assert s[0] in s && forall d :: d in s[1..] ==> d in s;
      NoneOf(c, s[1..]);
    }
  }

  /** One attribute of a tag, by name and value. */
  datatype Attr = Attr(name: string, value: string)

  function Quoted(attributes: seq<Attr>): string {
    if attributes == [] then ""
    else " " + attributes[0].name + "=\"" + Attribute(attributes[0].value) + "\"" + Quoted(attributes[1..])
  }

  /** The attributes of an excerpt's tag; an empty or missing time is left out. */
  function Attributes(e: Excerpt): seq<Attr> {
    [Attr("fact", e.origin.fact), Attr("turn", e.origin.turn), Attr("client", e.origin.client), Attr("role", e.origin.role)]
    + (if e.origin.occurredAt.Some? && e.origin.occurredAt.value != "" then [Attr("occurred_at", e.origin.occurredAt.value)] else [])
    + [Attr("truncated", if e.truncated then "true" else "false")]
  }

  /** One excerpt: an opening tag with its attributes, the text, a closing tag. */
  function RenderOne(e: Excerpt): string {
    ("<" + ("excerpt" + Quoted(Attributes(e)) + ">\n" + e.text + "\n")) + ("<" + "/excerpt>\n")
  }

  function RenderAll(es: seq<Excerpt>): string {
    if es == [] then "" else RenderOne(es[0]) + RenderAll(es[1..])
  }

  /** The block: nothing without excerpts. `notice` is its fixed second line. */
  function Render(es: seq<Excerpt>, notice: string, nonce: string): string {
    if es == [] then ""
    else "<" + (Opener(nonce) + notice) + RenderAll(es) + ("<" + Closer(nonce))
  }

  function Opener(nonce: string): string {
    "source_excerpts nonce=\"" + nonce + "\">\n"
  }

  function Closer(nonce: string): string {
    "/source_excerpts nonce=\"" + nonce + "\">"
  }

  ghost predicate Tagless(s: string) {
    forall c :: c in s ==> c != '<' && c != '>'
  }

  ghost predicate NoOpen(s: string) {
    forall c :: c in s ==> c != '<'
  }

  lemma NoOpenJoin(a: string, b: string)
    requires NoOpen(a) && NoOpen(b)
    ensures NoOpen(a + b)
  {
  }

  lemma {:induction false} QuotedTagless(attributes: seq<Attr>)
    requires forall a :: a in attributes ==> NoOpen(a.name)
    ensures NoOpen(Quoted(attributes))
  {
    if attributes != [] {
      QuotedTagless(attributes[1..]);
    }
  }

  lemma AttributeNames(e: Excerpt)
    ensures forall a :: a in Attributes(e) ==> NoOpen(a.name)
  {
  }

  lemma Literals()
    ensures NoOpen("excerpt") && NoOpen(">\n") && NoOpen("\n") && NoOpen("/excerpt>\n") && NoOpen("\">\n") && NoOpen("\">")
    ensures NoOpen("source_excerpts nonce=\"") && NoOpen("/source_excerpts nonce=\"")
  {
  }

  lemma OneTag(a: string)
    requires NoOpen(a)
    ensures CountChar('<', "<" + a) == 1
  {
    NoneOf('<', a);
    assert ("<" + a)[1..] == a;
  }

  lemma TagsOfOne(e: Excerpt)
    requires Tagless(e.text)
    ensures CountChar('<', RenderOne(e)) == 2
  {
    hide CountChar, NoOpen, Quoted, Attributes;
    var quoted := Quoted(Attributes(e));
    AttributeNames(e);
    QuotedTagless(Attributes(e));
    Literals();
    TaglessNoOpen(e.text);
    NoOpenJoin("excerpt", quoted);
    NoOpenJoin("excerpt" + quoted, ">\n");
    NoOpenJoin("excerpt" + quoted + ">\n", e.text);
    NoOpenJoin("excerpt" + quoted + ">\n" + e.text, "\n");
    var a, b := "excerpt" + quoted + ">\n" + e.text + "\n", "/excerpt>\n";
    OneTag(a);
    OneTag(b);
    CountJoin('<', "<" + a, "<" + b);
  }

  lemma TaglessNoOpen(s: string)
    requires Tagless(s)
    ensures NoOpen(s)
  {
  }

  lemma {:induction false} TagsOfAll(es: seq<Excerpt>)
    requires forall e :: e in es ==> Tagless(e.text)
    ensures CountChar('<', RenderAll(es)) == 2 * |es|
  {
    if es != [] {
      assert es == [es[0]] + es[1..];
      assert es[0] in es;
      TagsOfOne(es[0]);
      TagsOfAll(es[1..]);
      CountJoin('<', RenderOne(es[0]), RenderAll(es[1..]));
    }
  }

  /** The block holds exactly two tags per excerpt, one opener and one closer: nothing quoted
      can forge a tag. */
  lemma BlockTags(es: seq<Excerpt>, notice: string, nonce: string)
    requires es != [] && Tagless(notice) && Tagless(nonce) && forall e :: e in es ==> Tagless(e.text)
    ensures CountChar('<', Render(es, notice, nonce)) == 2 * |es| + 2
  {
    hide CountChar, NoOpen, RenderAll;
    Literals();
    TaglessNoOpen(notice);
    TaglessNoOpen(nonce);
    NoOpenJoin("source_excerpts nonce=\"", nonce);
    NoOpenJoin("source_excerpts nonce=\"" + nonce, "\">\n");
    NoOpenJoin(Opener(nonce), notice);
    NoOpenJoin("/source_excerpts nonce=\"", nonce);
    NoOpenJoin("/source_excerpts nonce=\"" + nonce, "\">");
    OneTag(Opener(nonce) + notice);
    OneTag(Closer(nonce));
    TagsOfAll(es);
    CountJoin('<', "<" + (Opener(nonce) + notice), RenderAll(es));
    CountJoin('<', "<" + (Opener(nonce) + notice) + RenderAll(es), "<" + Closer(nonce));
  }

  // ---------------------------------------------------------------- the budget loop

  /** The verified source turn behind a fact. */
  datatype Source = Source(text: string, truncated: bool, origin: Origin)

  /** A selected fact: its tokens, and its source if one was found. */
  datatype Fact = Fact(terms: seq<string>, source: Option<Source>)

  /** What a block is rendered with, and the tokens it may take. */
  datatype Frame = Frame(notice: string, nonce: string, breakNonce: string -> string, room: nat)

  const MAX_EXCERPTS := 3
  const EXCERPT_TOKENS := 120
  const BLOCK_TOKENS := 360

  /** `raw` without its last word, or nothing when there is only one or `raw` does not end with one. */
  function Shorter(raw: string): (r: string)
    requires raw != ""
    ensures |r| < |raw| && r <= raw
  {
    var cut := LastBreak(raw, |raw|);
    if ClaimText.Space(raw[|raw| - 1]) || cut < 0 then "" else raw[..cut]
  }

  /** Where the white space before the last word starts, or -1. */
  function LastBreak(s: string, n: nat): (i: int)
    requires n <= |s|
    ensures -1 <= i < |s| || (i == -1)
    ensures i < |s|
    decreases n
  {
    if n == 0 then -1
    else if ClaimText.Space(s[n - 1]) && n < |s| && !ClaimText.Space(s[n]) then RunStart(s, n - 1)
    else LastBreak(s, n - 1)
  }

  function RunStart(s: string, n: nat): (i: nat)
    requires n < |s|
    ensures i <= n
  {
    if n > 0 && ClaimText.Space(s[n - 1]) then RunStart(s, n - 1) else n
  }

  function Candidate(frame: Frame, source: Source, raw: string): Excerpt {
    Excerpt(source.origin, Neutral(frame.breakNonce(raw)), source.truncated || raw != source.text)
  }

  predicate Fits(frame: Frame, es: seq<Excerpt>, candidate: Excerpt) {
    Tokens(candidate.text) <= EXCERPT_TOKENS && Tokens(Render(es + [candidate], frame.notice, frame.nonce)) <= frame.room
  }

  /** The longest of `raw`, shortened word by word, that still fits behind `es`; nothing if none does. */
  function Shrunk(frame: Frame, es: seq<Excerpt>, source: Source, raw: string): (r: string)
    ensures r <= raw
    ensures r != "" ==> Fits(frame, es, Candidate(frame, source, r))
    decreases |raw|
  {
    if raw == "" || Fits(frame, es, Candidate(frame, source, raw)) then raw
    else Shrunk(frame, es, source, Shorter(raw))
  }

  /** What the window search shows of a fact's source. */
  function FactWindow(env: Env, fact: Fact): (text: string)
    requires fact.source.Some?
  {
    var source := fact.source.value.text;
    WordsAre(source, 0);
    Shown(source, Scan(env, source, Words(source, 0), fact.terms, EXCERPT_TOKENS, |Words(source, 0)|))
  }

  /** The excerpts of the facts, behind those already taken. */
  function Annotated(env: Env, frame: Frame, facts: seq<Fact>, es: seq<Excerpt>): seq<Excerpt> {
    if facts == [] || |es| >= MAX_EXCERPTS || frame.room <= 0 then es
    else Annotated(env, frame, facts[1..], es + OfFact(env, frame, facts[0], es))
  }

  function OfFact(env: Env, frame: Frame, fact: Fact, es: seq<Excerpt>): (r: seq<Excerpt>)
    ensures |r| <= 1
  {
    if fact.source.None? then []
    else
      var raw := Shrunk(frame, es, fact.source.value, FactWindow(env, fact));
      if raw == "" then [] else [Candidate(frame, fact.source.value, raw)]
  }

  ghost predicate Bounded(frame: Frame, es: seq<Excerpt>) {
    && |es| <= MAX_EXCERPTS
    && (forall e :: e in es ==> Tagless(e.text) && Tokens(e.text) <= EXCERPT_TOKENS)
    && (es != [] ==> Tokens(Render(es, frame.notice, frame.nonce)) <= frame.room)
  }

  /** `e` quotes a piece of the fact's source, and says whether that is less than the turn. */
  ghost predicate Quotes(frame: Frame, e: Excerpt, fact: Fact) {
    && fact.source.Some?
    && e.origin == fact.source.value.origin
    && exists raw :: raw != "" && Within(raw, fact.source.value.text) && e == Candidate(frame, fact.source.value, raw)
  }

  ghost predicate AllQuote(frame: Frame, es: seq<Excerpt>, facts: seq<Fact>) {
    forall e :: e in es ==> exists fact :: fact in facts && Quotes(frame, e, fact)
  }

  /** At most three excerpts of at most 120 tokens in a block that fits its room, each quoting a
      piece of one of the facts' sources. */
  lemma {:induction false} AnnotatedIs(env: Env, frame: Frame, facts: seq<Fact>, done: seq<Fact>, es: seq<Excerpt>)
    requires Bounded(frame, es) && AllQuote(frame, es, done)
    ensures var r := Annotated(env, frame, facts, es);
      Bounded(frame, r) && AllQuote(frame, r, done + facts) && es <= r
  {
    hide Bounded, OfFact;
    if facts == [] || |es| >= MAX_EXCERPTS || frame.room <= 0 {
      MoreFacts(frame, es, done, facts);
    } else {
      OneMore(env, frame, facts[0], done, es);
      AnnotatedIs(env, frame, facts[1..], done + [facts[0]], es + OfFact(env, frame, facts[0], es));
      assert done + [facts[0]] + facts[1..] == done + facts;
    }
  }

  lemma MoreFacts(frame: Frame, es: seq<Excerpt>, done: seq<Fact>, facts: seq<Fact>)
    requires AllQuote(frame, es, done)
    ensures AllQuote(frame, es, done + facts)
  {
    hide Quotes;
    forall e | e in es
      ensures exists fact :: fact in done + facts && Quotes(frame, e, fact)
    {
      var fact :| fact in done && Quotes(frame, e, fact);
      assert fact in done + facts;
    }
  }

  lemma OneMore(env: Env, frame: Frame, fact: Fact, done: seq<Fact>, es: seq<Excerpt>)
    requires Bounded(frame, es) && AllQuote(frame, es, done) && |es| < MAX_EXCERPTS
    ensures Bounded(frame, es + OfFact(env, frame, fact, es))
    ensures AllQuote(frame, es + OfFact(env, frame, fact, es), done + [fact])
  {
    hide Render, FactWindow, Shrunk, Quotes, Within;
    MoreFacts(frame, es, done, [fact]);
    var more := OfFact(env, frame, fact, es);
    if more == [] {
      assert es + more == es;
    } else {
      var raw := Shrunk(frame, es, fact.source.value, FactWindow(env, fact));
      ShrunkWithin(env, frame, fact, es);
      QuotesRaw(frame, fact, raw);
      assert fact in done + [fact];
    }
  }

  lemma QuotesRaw(frame: Frame, fact: Fact, raw: string)
    requires fact.source.Some? && raw != "" && Within(raw, fact.source.value.text)
    ensures Quotes(frame, Candidate(frame, fact.source.value, raw), fact)
  {
    hide Within;
  }

  lemma ShrunkWithin(env: Env, frame: Frame, fact: Fact, es: seq<Excerpt>)
    requires fact.source.Some?
    ensures Within(Shrunk(frame, es, fact.source.value, FactWindow(env, fact)), fact.source.value.text)
  {
    hide Scan, Words, Fits;
    var source := fact.source.value.text;
    WordsAre(source, 0);
    var best := Scan(env, source, Words(source, 0), fact.terms, EXCERPT_TOKENS, |Words(source, 0)|);
    var raw := Shrunk(frame, es, fact.source.value, FactWindow(env, fact));
    PieceWithin(source, best, raw);
  }

  lemma PieceWithin(source: string, best: Window, raw: string)
    requires raw <= Shown(source, best)
    ensures Within(raw, source)
  {
    if raw == "" {
      assert source == source + raw + "";
    } else {
      assert source == source[..best.start] + raw + source[best.start + |raw|..];
    }
  }

  /** A fact whose window, shortened to some of its words, fits the empty block gets quoted: the
      block is empty only without room or when no fact's source fits at all. */
  lemma {:induction false} EmptyOnlyIf(env: Env, frame: Frame, facts: seq<Fact>)
    ensures Annotated(env, frame, facts, []) == [] <==>
      frame.room == 0 || forall fact :: fact in facts ==> OfFact(env, frame, fact, []) == []
  {
    hide OfFact;
    if facts != [] && frame.room > 0 {
      assert facts == [facts[0]] + facts[1..];
      var more := OfFact(env, frame, facts[0], []);
      if more == [] {
        assert [] + more == [];
        EmptyOnlyIf(env, frame, facts[1..]);
      } else {
        assert facts[0] in facts && [] + more == more;
        AnnotatedGrows(env, frame, facts[1..], more);
      }
    }
  }

  lemma {:induction false} AnnotatedGrows(env: Env, frame: Frame, facts: seq<Fact>, es: seq<Excerpt>)
    ensures es <= Annotated(env, frame, facts, es)
  {
    hide OfFact;
    if !(facts == [] || |es| >= MAX_EXCERPTS || frame.room <= 0) {
      AnnotatedGrows(env, frame, facts[1..], es + OfFact(env, frame, facts[0], es));
    }
  }

  /** annotateSelectedFacts: the room is what the budget leaves, never more than 360 tokens. */
  method AnnotateSelectedFacts(env: Env, facts: seq<Fact>, notice: string, nonce: string, breakNonce: string -> string,
                               budgetTokens: Option<int>, factTokens: nat) returns (excerpts: seq<Excerpt>, block: string, ghost frame: Frame)
    requires env.Valid() && Tagless(notice) && Tagless(nonce)
    ensures var left := if budgetTokens.None? then BLOCK_TOKENS else if budgetTokens.value > factTokens then budgetTokens.value - factTokens else 0;
      frame == Frame(notice, nonce, breakNonce, if left < BLOCK_TOKENS then left else BLOCK_TOKENS)
    ensures excerpts == Annotated(env, frame, facts, []) && Bounded(frame, excerpts) && AllQuote(frame, excerpts, facts)
    ensures block == Render(excerpts, notice, nonce)
    ensures excerpts != [] ==> CountChar('<', block) == 2 * |excerpts| + 2
  {
    hide Render, Shrunk, Scan, Words, Within, Candidate, Fits, Bounded, AllQuote;
    var left := if budgetTokens.None? then BLOCK_TOKENS else if budgetTokens.value > factTokens then budgetTokens.value - factTokens else 0;
    var f := Frame(notice, nonce, breakNonce, if left < BLOCK_TOKENS then left else BLOCK_TOKENS);
    frame := f;
    excerpts := [];
    var i := 0;
    while i < |facts|
      invariant 0 <= i <= |facts|
      invariant Annotated(env, f, facts[i..], excerpts) == Annotated(env, f, facts, [])
    {
      if |excerpts| >= MAX_EXCERPTS || f.room <= 0 {
        break;
      }
      var fact := facts[i];
      ghost var before := excerpts;
      assert facts[i..][0] == fact && facts[i..][1..] == facts[i + 1..];
      i := i + 1;
      if fact.source.None? {
        assert before + [] == before;
        continue;
      }
      var source := fact.source.value;
      var window, truncated := ExcerptWindow(env, source.text, fact.terms, EXCERPT_TOKENS);
      var raw := window;
      while raw != ""
        invariant excerpts == before && raw <= window
        invariant Shrunk(f, before, source, raw) == Shrunk(f, before, source, window)
        decreases |raw|
      {
        ShrunkNext(f, before, source, raw);
        var candidate := Excerpt(source.origin, Neutral(breakNonce(raw)), truncated || source.truncated || raw != window);
        CandidateIs(f, source, raw, candidate);
        if Fits(f, excerpts, candidate) {
          excerpts := excerpts + [candidate];
          break;
        }
        raw := Shorter(raw);
      }
      if raw == "" {
        ShrunkNothing(f, before, source);
        assert before + [] == before;
      }
    }
    block := Render(excerpts, notice, nonce);
    NothingYet(f);
    AnnotatedIs(env, f, facts, [], []);
    assert [] + facts == facts;
    if excerpts != [] {
      BoundedTagless(f, excerpts);
      BlockTags(excerpts, notice, nonce);
    }
  }

  lemma ShrunkNext(frame: Frame, es: seq<Excerpt>, source: Source, raw: string)
    requires raw != ""
    ensures Shrunk(frame, es, source, raw)
         == if Fits(frame, es, Candidate(frame, source, raw)) then raw else Shrunk(frame, es, source, Shorter(raw))
  {
  }

  lemma ShrunkNothing(frame: Frame, es: seq<Excerpt>, source: Source)
    ensures Shrunk(frame, es, source, "") == ""
  {
  }

  lemma CandidateIs(frame: Frame, source: Source, raw: string, candidate: Excerpt)
    requires candidate == Excerpt(source.origin, Neutral(frame.breakNonce(raw)), source.truncated || raw != source.text)
    ensures candidate == Candidate(frame, source, raw)
  {
  }

  lemma NothingYet(frame: Frame)
    ensures Bounded(frame, []) && AllQuote(frame, [], [])
  {
  }

  lemma BoundedTagless(frame: Frame, es: seq<Excerpt>)
    requires Bounded(frame, es)
    ensures forall e :: e in es ==> Tagless(e.text)
  {
  }
}
