/** What a fact is quoted with, and what can be read back from a block (src/recall/source-excerpts.ts:38-103). */
module ExcerptBlock {
  import opened OrderedMap
  import opened SourceExcerpts
  import ClaimText

  // ---------------------------------------------------------------- the quoted words

  /** In `raw` a run of white space from `i` to `j` is followed by nothing but one word. */
  ghost predicate LastGap(raw: string, i: nat, j: nat) {
    && i < j < |raw|
    && (forall k :: i <= k < j ==> ClaimText.Space(raw[k])) && (i > 0 ==> !ClaimText.Space(raw[i - 1]))
    && forall k :: j <= k < |raw| ==> !ClaimText.Space(raw[k])
  }

  lemma {:induction false} RunStartIs(s: string, n: nat)
    requires n < |s| && ClaimText.Space(s[n])
    ensures var i := RunStart(s, n); (forall k :: i <= k <= n ==> ClaimText.Space(s[k])) && (i > 0 ==> !ClaimText.Space(s[i - 1]))
  {
    if n > 0 && ClaimText.Space(s[n - 1]) {
      RunStartIs(s, n - 1);
    }
  }

  lemma {:induction false} LastBreakIs(s: string, n: nat)
    requires n <= |s| && (n < |s| ==> !ClaimText.Space(s[n])) && forall k :: n <= k < |s| ==> !ClaimText.Space(s[k])
    requires s != "" && !ClaimText.Space(s[|s| - 1])
    ensures var i := LastBreak(s, n);
      if i < 0 then forall k :: 0 <= k < |s| ==> !ClaimText.Space(s[k]) else exists j: nat :: LastGap(s, i, j)
    decreases n
  {
    if n > 0 && ClaimText.Space(s[n - 1]) {
      RunStartIs(s, n - 1);
      assert LastGap(s, RunStart(s, n - 1), n);
    } else if n > 0 {
      LastBreakIs(s, n - 1);
    }
  }

  lemma OneLastGap(raw: string, i: nat, j: nat, k: nat, l: nat)
    requires LastGap(raw, i, j) && LastGap(raw, k, l)
    ensures i == k && j == l
  {
    assert ClaimText.Space(raw[l - 1]) && ClaimText.Space(raw[j - 1]);
  }

  /** Shortening drops exactly the last word and the white space before it; without both nothing is left. */
  lemma ShorterIs(raw: string)
    requires raw != ""
    ensures forall i: nat, j: nat :: LastGap(raw, i, j) ==> Shorter(raw) == raw[..i]
    ensures (forall i: nat, j: nat :: !LastGap(raw, i, j)) ==> Shorter(raw) == ""
  {
    if ClaimText.Space(raw[|raw| - 1]) {
      NoGap(raw);
    } else {
      LastBreakIs(raw, |raw|);
      var cut := LastBreak(raw, |raw|);
      if cut < 0 {
        NoGap(raw);
      } else {
        var n: nat :| LastGap(raw, cut, n);
        forall i: nat, j: nat | LastGap(raw, i, j)
          ensures Shorter(raw) == raw[..i]
        {
          OneLastGap(raw, cut, n, i, j);
        }
      }
    }
  }

  lemma NoGap(raw: string)
    requires raw != ""
    requires ClaimText.Space(raw[|raw| - 1]) || forall k :: 0 <= k < |raw| ==> !ClaimText.Space(raw[k])
    ensures forall i: nat, j: nat :: !LastGap(raw, i, j)
  {
    forall i: nat, j: nat | LastGap(raw, i, j)
      ensures false
    {
      GapMeans(raw, i, j);
    }
  }

  lemma GapMeans(raw: string, i: nat, j: nat)
    requires LastGap(raw, i, j)
    ensures i < |raw| && ClaimText.Space(raw[i]) && !ClaimText.Space(raw[|raw| - 1])
  {
  }

  /** `q` is `raw` up to the end of one of its words. */
  ghost predicate Leads(raw: string, q: string) {
    q <= raw && q != "" && !ClaimText.Space(q[|q| - 1]) && (|q| < |raw| ==> ClaimText.Space(raw[|q|]))
  }

  /** Quoting `q` behind `es` keeps the excerpt within 120 tokens and the block within its room. */
  ghost predicate FitsBehind(frame: Frame, es: seq<Excerpt>, source: Source, q: string) {
    var e := Excerpt(source.origin, Neutral(frame.breakNonce(q)), source.truncated || q != source.text);
    Tokens(e.text) <= 120 && Tokens(Render(es + [e], frame.notice, frame.nonce)) <= frame.room
  }

  lemma FitsIs(frame: Frame, es: seq<Excerpt>, source: Source, q: string)
    ensures FitsBehind(frame, es, source, q) <==> Fits(frame, es, Candidate(frame, source, q))
  {
    hide Tokens, Render, Neutral;
  }

  /** After shortening, the remaining leading runs of words are those that were shorter. */
  lemma ShorterLeads(raw: string, q: string)
    requires raw != "" && !ClaimText.Space(raw[|raw| - 1]) && Leads(raw, q) && q != raw
    ensures Leads(Shorter(raw), q)
  {
    hide Shorter;
    ShorterIs(raw);
    LastBreakIs(raw, |raw|);
    assert ClaimText.Space(raw[|q|]);
    var i: nat, j: nat :| LastGap(raw, i, j);
    assert q[|q| - 1] == raw[|q| - 1];
    assert |q| <= i;
  }

  lemma ShorterEnds(raw: string)
    requires raw != "" && !ClaimText.Space(raw[|raw| - 1])
    ensures Shorter(raw) != "" ==> Leads(raw, Shorter(raw))
  {
    hide Shorter;
    ShorterIs(raw);
    if Shorter(raw) != "" {
      var i: nat, j: nat :| LastGap(raw, i, j);
    }
  }

  lemma LeadsAgain(raw: string, mid: string, q: string)
    requires Leads(raw, mid) && Leads(mid, q)
    ensures Leads(raw, q)
  {
    assert q[|q| - 1] == raw[|q| - 1];
    if |q| < |mid| {
      assert mid[|q|] == raw[|q|];
    }
  }

  /** The longest leading run of words that fits is quoted, and nothing only when none fits. */
  lemma {:induction false} LongestQuoted(frame: Frame, es: seq<Excerpt>, source: Source, raw: string)
    requires raw == "" || !ClaimText.Space(raw[|raw| - 1])
    ensures var r := Shrunk(frame, es, source, raw);
      && (r != "" ==> Leads(raw, r) && FitsBehind(frame, es, source, r))
      && forall q :: Leads(raw, q) && |q| > |r| ==> !FitsBehind(frame, es, source, q)
    decreases |raw|
  {
    hide Shorter, FitsBehind, Fits, Candidate, Leads;
    FitsIs(frame, es, source, raw);
    if raw == "" {
      NoneLead();
    } else if Fits(frame, es, Candidate(frame, source, raw)) {
      LeadsShort(raw);
    } else {
      ShorterEnds(raw);
      LeadsShort(Shorter(raw));
      LeadsShort(raw);
      LongestQuoted(frame, es, source, Shorter(raw));
      var r := Shrunk(frame, es, source, raw);
      if r != "" {
        LeadsAgain(raw, Shorter(raw), r);
      }
      forall q | Leads(raw, q) && |q| > |r|
        ensures !FitsBehind(frame, es, source, q)
      {
        if q != raw {
          ShorterLeads(raw, q);
        }
      }
    }
  }

  lemma NoneLead()
    ensures forall q :: !Leads("", q)
  {
  }

  lemma LeadsShort(raw: string)
    ensures forall q :: Leads(raw, q) ==> |q| <= |raw|
    ensures raw != "" && !ClaimText.Space(raw[|raw| - 1]) ==> Leads(raw, raw)
    ensures forall q :: Leads(q, raw) ==> raw != "" && !ClaimText.Space(raw[|raw| - 1])
  {
  }

  // ---------------------------------------------------------------- what a fact is quoted with

  /** A window ends with a word. */
  lemma WindowEnds(env: Env, fact: Fact)
    requires fact.source.Some?
    ensures var window := FactWindow(env, fact); window == "" || !ClaimText.Space(window[|window| - 1])
  {
    hide Scan, Words, Score, WindowTokens, InWord;
    var source := fact.source.value.text;
    WordsAre(source, 0);
    var words := Words(source, 0);
    ScanIsBest(env, source, words, fact.terms, EXCERPT_TOKENS, |words|);
    var best := Scan(env, source, words, fact.terms, EXCERPT_TOKENS, |words|);
    if best != NONE_YET {
      var i, j :| 0 <= i < j <= |words| && IsAt(env, source, words, fact.terms, EXCERPT_TOKENS, best, i, j);
      WordIn(words, j - 1);
      assert i == j - 1 || words[i].end < words[j - 1].start;
    }
  }

  lemma WordIn(words: seq<Word>, j: nat)
    requires j < |words| && words[j].start < words[j].end
    ensures InWord(words, words[j].end - 1)
  {
    assert words[j] in words;
  }

  /** No leading run of words of the fact's window fits an empty block. */
  ghost predicate Unquotable(env: Env, frame: Frame, fact: Fact) {
    fact.source.Some? ==> forall q :: Leads(FactWindow(env, fact), q) ==> !FitsBehind(frame, [], fact.source.value, q)
  }

  lemma QuotedIf(env: Env, frame: Frame, fact: Fact)
    ensures OfFact(env, frame, fact, []) == [] <==> Unquotable(env, frame, fact)
  {
    hide FactWindow, Shrunk, FitsBehind, Leads;
    if fact.source.Some? {
      var window := FactWindow(env, fact);
      WindowEnds(env, fact);
      LongestQuoted(frame, [], fact.source.value, window);
      LeadsShort(window);
      LeadsSome(window);
    }
  }

  lemma LeadsSome(raw: string)
    ensures forall q :: Leads(raw, q) ==> |q| > 0
  {
  }

  /** The block is empty exactly without room or when of no fact's window a leading run of words fits. */
  lemma EmptyBlock(env: Env, frame: Frame, facts: seq<Fact>)
    ensures Annotated(env, frame, facts, []) == [] <==>
      frame.room == 0 || forall fact :: fact in facts ==> Unquotable(env, frame, fact)
  {
    hide OfFact, Annotated, Unquotable;
    EmptyOnlyIf(env, frame, facts);
    forall fact | fact in facts
      ensures OfFact(env, frame, fact, []) == [] <==> Unquotable(env, frame, fact)
    {
      QuotedIf(env, frame, fact);
    }
  }

  /** The places of the terms a text mentions. */
  function Mentioned(env: Env, text: string, terms: seq<string>): set<nat> {
    set i: nat | i < |terms| && env.mentions(text, terms[i])
  }

  /** A window's score is the number of fact tokens it mentions. */
  lemma {:induction false} ScoreCounts(env: Env, text: string, terms: seq<string>)
    ensures Score(env, text, terms) == |Mentioned(env, text, terms)|
  {
    if terms != [] {
      ScoreCounts(env, text, terms[1..]);
      var rest := Mentioned(env, text, terms[1..]);
      ShiftedSize(rest);
      var first: set<nat> := if env.mentions(text, terms[0]) then {0} else {};
      forall i: nat
        ensures i in Mentioned(env, text, terms) <==> i in first + Shifted(rest)
      {
        if 0 < i < |terms| {
          assert terms[1..][i - 1] == terms[i];
        }
      }
      assert Mentioned(env, text, terms) == first + Shifted(rest);
      assert 0 !in Shifted(rest);
    }
  }

  function Shifted(s: set<nat>): (r: set<nat>)
    ensures forall i :: i in r <==> i > 0 && i - 1 in s
  {
    set i: nat | i in s :: i + 1
  }

  lemma {:induction false} ShiftedSize(s: set<nat>)
    ensures |Shifted(s)| == |s|
  {
    hide Shifted;
    if s == {} {
      assert Shifted(s) == {};
    } else {
      var x :| x in s;
      ShiftedSize(s - {x});
      assert Shifted(s) == Shifted(s - {x}) + {x + 1};
      assert x + 1 !in Shifted(s - {x});
    }
  }

  // ---------------------------------------------------------------- neutral text

  /** Every angle bracket becomes its entity and every other character stays. */
  lemma EscapesEach(a: string, c: char, b: string)
    ensures EscapeAngles(a + [c] + b) ==
      EscapeAngles(a) + (if c == '<' then "&lt;" else if c == '>' then "&gt;" else [c]) + EscapeAngles(b)
    ensures EscapeAngles("") == ""
  {
    hide EscapeAngles;
    EscapeJoin(a + [c], b);
    EscapeJoin(a, [c]);
    EscapeOne(c);
  }

  lemma EscapeOne(c: char)
    ensures EscapeAngles([c]) == if c == '<' then "&lt;" else if c == '>' then "&gt;" else [c]
    ensures EscapeAngles("") == ""
  {
    assert [c][1..] == "";
  }

  /** Joining white space is collapsing it, with the separator for the blank. */
  lemma {:induction false} SeparateCollapses(s: string)
    ensures |Separate(s)| == |ClaimText.Collapse(s)|
    ensures forall i :: 0 <= i < |Separate(s)| ==>
      Separate(s)[i] == if ClaimText.Space(ClaimText.Collapse(s)[i]) then '\U{2063}' else ClaimText.Collapse(s)[i]
  {
    if s != "" {
      SeparateCollapses(s[1..]);
    }
  }

  // ---------------------------------------------------------------- reading a block back

  /** What stands before the first `c`, and what stands behind it, can be read back. */
  lemma Divide(a: string, x: string, b: string, y: string, c: char)
    requires c !in a && c !in b && a + [c] + x == b + [c] + y
    ensures a == b && x == y
  {
    var u, v := a + [c] + x, b + [c] + y;
    assert u[|a|] == c && v[|b|] == c;
    assert a == u[..|a|] && b == v[..|b|] && x == u[|a| + 1..] && y == v[|b| + 1..];
  }

  /** Attributes lose exactly `&`, `"` and angle brackets. */
  lemma AttributeEach(a: string, c: char, b: string)
    ensures Attribute(a + [c] + b) == Attribute(a) + (if c in "&\"<>" then "" else [c]) + Attribute(b)
    ensures Attribute("") == ""
  {
    AttributeJoin(a + [c], b);
    AttributeJoin(a, [c]);
    assert [c][1..] == "";
    var four := "&\"<>";
    assert four[0] == '&' && four[1] == '\"' && four[2] == '<' && four[3] == '>' && |four| == 4;
  }

  lemma {:induction false} AttributeJoin(a: string, b: string)
    ensures Attribute(a + b) == Attribute(a) + Attribute(b)
  {
    if a == "" {
      assert a + b == b;
    } else {
      assert (a + b)[0] == a[0] && (a + b)[1..] == a[1..] + b;
      AttributeJoin(a[1..], b);
    }
  }

  lemma {:induction false} AttributePlain(s: string)
    ensures '\"' !in Attribute(s)
  {
    if s != "" {
      AttributePlain(s[1..]);
    }
  }

  /** The turn an excerpt names, without the characters attributes lose; an empty time is none. */
  function Named(o: Origin): (string, string, string, string, Option<string>) {
    (Attribute(o.fact), Attribute(o.turn), Attribute(o.client), Attribute(o.role),
     if o.occurredAt.Some? && o.occurredAt.value != "" then Some(Attribute(o.occurredAt.value)) else None)
  }

  /** One attribute can be read back, given its name. */
  lemma FirstAttr(name: string, v: string, x: string, w: string, y: string)
    requires " " + name + "=\"" + Attribute(v) + "\"" + x == " " + name + "=\"" + Attribute(w) + "\"" + y
    ensures Attribute(v) == Attribute(w) && x == y
  {
    AttributePlain(v);
    AttributePlain(w);
    var p := " " + name + "=\"";
    assert (p + Attribute(v) + "\"" + x)[|p|..] == Attribute(v) + ['\"'] + x;
    assert (p + Attribute(w) + "\"" + y)[|p|..] == Attribute(w) + ['\"'] + y;
    Divide(Attribute(v), x, Attribute(w), y, '\"');
  }

  lemma QuotedFirst(a: Attr, rest: seq<Attr>)
    ensures Quoted([a] + rest) == " " + a.name + "=\"" + Attribute(a.value) + "\"" + Quoted(rest)
  {
    assert ([a] + rest)[1..] == rest;
  }

  /** Tags of one name: the first values agree, and so does what follows. */
  lemma SameFirst(a: Attr, b: Attr, rest: seq<Attr>, more: seq<Attr>)
    requires a.name == b.name && Quoted([a] + rest) == Quoted([b] + more)
    ensures Attribute(a.value) == Attribute(b.value) && Quoted(rest) == Quoted(more)
  {
    hide Quoted, Attribute;
    QuotedFirst(a, rest);
    QuotedFirst(b, more);
    FirstAttr(a.name, a.value, Quoted(rest), b.value, Quoted(more));
  }

  lemma {:induction false} QuotedPlain(attributes: seq<Attr>)
    requires forall a :: a in attributes ==> '>' !in a.name
    ensures '>' !in Quoted(attributes)
  {
    if attributes != [] {
      QuotedPlain(attributes[1..]);
    }
  }

  lemma NamesPlain(e: Excerpt)
    ensures forall a :: a in Attributes(e) ==> '>' !in a.name
  {
  }

  lemma AttributesAre(e: Excerpt)
    ensures Attributes(e) == [Attr("fact", e.origin.fact)] + ([Attr("turn", e.origin.turn)] + ([Attr("client", e.origin.client)]
      + ([Attr("role", e.origin.role)] + Later(e))))
  {
  }

  /** The attributes behind the role. */
  function Later(e: Excerpt): seq<Attr> {
    (if e.origin.occurredAt.Some? && e.origin.occurredAt.value != "" then [Attr("occurred_at", e.origin.occurredAt.value)] else [])
    + [Attr("truncated", if e.truncated then "true" else "false")]
  }

  lemma TruncatedBack(v: bool, w: bool)
    requires Attribute(if v then "true" else "false") == Attribute(if w then "true" else "false")
    ensures v == w
  {
    assert Attribute("true")[0] == 't' && Attribute("false")[0] == 'f';
  }

  lemma LaterBack(e: Excerpt, f: Excerpt)
    requires Quoted(Later(e)) == Quoted(Later(f))
    ensures Named(e.origin).4 == Named(f.origin).4 && e.truncated == f.truncated
  {
    hide Quoted, Attribute;
    var s, t := Attr("truncated", if e.truncated then "true" else "false"), Attr("truncated", if f.truncated then "true" else "false");
    QuotedFirst(s, []);
    QuotedFirst(t, []);
    assert [s] + [] == [s] && [t] + [] == [t];
    var timed, also := Named(e.origin).4.Some?, Named(f.origin).4.Some?;
    var a, b := Attr("occurred_at", if timed then e.origin.occurredAt.value else ""), Attr("occurred_at", if also then f.origin.occurredAt.value else "");
    QuotedFirst(a, [s]);
    QuotedFirst(b, [t]);
    assert Later(e) == (if timed then [a] + [s] else [s]) && Later(f) == if also then [b] + [t] else [t];
    Starts(a);
    Starts(b);
    Starts(s);
    Starts(t);
    if timed && also {
      SameFirst(a, b, [s], [t]);
    }
    if timed == also {
      SameFirst(s, t, [], []);
      TruncatedBack(e.truncated, f.truncated);
    }
  }

  lemma Starts(a: Attr)
    requires a.name != ""
    ensures |Quoted([a])| > 1 && Quoted([a])[1] == a.name[0]
    ensures forall rest :: |Quoted([a] + rest)| > 1 && Quoted([a] + rest)[1] == a.name[0]
  {
    forall rest
      ensures |Quoted([a] + rest)| > 1 && Quoted([a] + rest)[1] == a.name[0]
    {
      QuotedFirst(a, rest);
    }
    assert [a] + [] == [a];
  }

  lemma AttributesBack(e: Excerpt, f: Excerpt)
    requires Quoted(Attributes(e)) == Quoted(Attributes(f))
    ensures Named(e.origin) == Named(f.origin) && e.truncated == f.truncated
  {
    hide Quoted, Attribute, Attributes, Later;
    AttributesAre(e);
    AttributesAre(f);
    var o, p := e.origin, f.origin;
    var r, q := [Attr("role", o.role)] + Later(e), [Attr("role", p.role)] + Later(f);
    var c, d := [Attr("client", o.client)] + r, [Attr("client", p.client)] + q;
    SameFirst(Attr("fact", o.fact), Attr("fact", p.fact), [Attr("turn", o.turn)] + c, [Attr("turn", p.turn)] + d);
    SameFirst(Attr("turn", o.turn), Attr("turn", p.turn), c, d);
    SameFirst(Attr("client", o.client), Attr("client", p.client), r, q);
    SameFirst(Attr("role", o.role), Attr("role", p.role), Later(e), Later(f));
    LaterBack(e, f);
  }

  /** `e` and `f` name the same turn in their tags, quote the same text and are marked alike. */
  predicate Alike(e: Excerpt, f: Excerpt) {
    Named(e.origin) == Named(f.origin) && e.text == f.text && e.truncated == f.truncated
  }

  lemma OneBack(e: Excerpt, f: Excerpt, x: string, y: string)
    requires Tagless(e.text) && Tagless(f.text) && RenderOne(e) + x == RenderOne(f) + y
    ensures Alike(e, f) && x == y
  {
    hide Quoted, Attribute, Attributes, Named;
    NamesPlain(e);
    NamesPlain(f);
    QuotedPlain(Attributes(e));
    QuotedPlain(Attributes(f));
    RenderParts(e, x);
    RenderParts(f, y);
    var u, v := "\n" + e.text + "\n" + ['<'] + ("/excerpt>\n" + x), "\n" + f.text + "\n" + ['<'] + ("/excerpt>\n" + y);
    Divide(Quoted(Attributes(e)), u, Quoted(Attributes(f)), v, '>');
    AttributesBack(e, f);
    Divide("\n" + e.text + "\n", "/excerpt>\n" + x, "\n" + f.text + "\n", "/excerpt>\n" + y, '<');
    Inside(e.text);
    Inside(f.text);
    Behind("/excerpt>\n", x);
    Behind("/excerpt>\n", y);
  }

  lemma Behind(p: string, x: string)
    ensures (p + x)[|p|..] == x
  {
  }

  lemma Inside(t: string)
    ensures ("\n" + t + "\n")[1..|t| + 1] == t && |"\n" + t + "\n"| == |t| + 2
  {
  }

  lemma RenderParts(e: Excerpt, x: string)
    ensures (RenderOne(e) + x)[8..] == Quoted(Attributes(e)) + ['>'] + ("\n" + e.text + "\n" + ['<'] + ("/excerpt>\n" + x))
  {
    hide Quoted, Attributes;
    var q := Quoted(Attributes(e));
    assert RenderOne(e) + x == "<excerpt" + (q + ['>'] + ("\n" + e.text + "\n" + ['<'] + ("/excerpt>\n" + x)));
    assert |"<excerpt"| == 8;
    Behind("<excerpt", q + ['>'] + ("\n" + e.text + "\n" + ['<'] + ("/excerpt>\n" + x)));
  }

  lemma {:induction false} AllBack(es: seq<Excerpt>, fs: seq<Excerpt>, end: string)
    requires (forall e :: e in es ==> Tagless(e.text)) && (forall f :: f in fs ==> Tagless(f.text))
    requires |end| > 1 && end[1] == '/' && RenderAll(es) + end == RenderAll(fs) + end
    ensures |es| == |fs| && forall i :: 0 <= i < |es| ==> Alike(es[i], fs[i])
  {
    hide RenderOne, Alike;
    if es != [] {
      SecondChar(es[0], RenderAll(es[1..]) + end);
      assert RenderAll(es) + end == RenderOne(es[0]) + (RenderAll(es[1..]) + end);
    }
    if fs != [] {
      SecondChar(fs[0], RenderAll(fs[1..]) + end);
      assert RenderAll(fs) + end == RenderOne(fs[0]) + (RenderAll(fs[1..]) + end);
    }
    assert "" + end == end;
    if es != [] && fs != [] {
      OneBack(es[0], fs[0], RenderAll(es[1..]) + end, RenderAll(fs[1..]) + end);
      AllBack(es[1..], fs[1..], end);
      forall i | 0 <= i < |es|
        ensures Alike(es[i], fs[i])
      {
        if i > 0 {
          assert es[i] == es[1..][i - 1] && fs[i] == fs[1..][i - 1];
        }
      }
    }
  }

  lemma SecondChar(e: Excerpt, x: string)
    ensures |RenderOne(e) + x| > 1 && (RenderOne(e) + x)[1] == 'e'
  {
    hide Quoted, Attributes;
  }

  /** A block tells what it quotes: equal blocks hold as many excerpts, in the same order, naming the same
      turns, with the same texts and marks. */
  lemma BlockReads(es: seq<Excerpt>, fs: seq<Excerpt>, notice: string, nonce: string)
    requires (forall e :: e in es ==> Tagless(e.text)) && (forall f :: f in fs ==> Tagless(f.text))
    requires Render(es, notice, nonce) == Render(fs, notice, nonce)
    ensures |es| == |fs| && forall i :: 0 <= i < |es| ==> Alike(es[i], fs[i])
  {
    hide RenderAll, Opener, Closer, Alike;
    if es != [] && fs != [] {
      var p, end := "<" + (Opener(nonce) + notice), "<" + Closer(nonce);
      assert p + RenderAll(es) + end == p + (RenderAll(es) + end) && p + RenderAll(fs) + end == p + (RenderAll(fs) + end);
      Behind(p, RenderAll(es) + end);
      Behind(p, RenderAll(fs) + end);
      CloserStarts(nonce);
      AllBack(es, fs, end);
    }
  }

  lemma CloserStarts(nonce: string)
    ensures |"<" + Closer(nonce)| > 1 && ("<" + Closer(nonce))[1] == '/'
  {
  }
}
