/** Text normalisation of composition candidates and its idempotence
    (src/noema/composition-log.ts:125-159). */
module ClaimText {
  import opened OrderedMap
  import opened TextOrder

  /** JavaScript's `\s`, which is also what `trim` strips. */
  predicate Space(c: char) {
    || '\U{9}' <= c <= '\U{d}' || c == ' ' || c == '\U{a0}' || c == '\U{1680}'
    || '\U{2000}' <= c <= '\U{200a}' || c == '\U{2028}' || c == '\U{2029}'
    || c == '\U{202f}' || c == '\U{205f}' || c == '\U{3000}' || c == '\U{feff}'
  }

  function TrimStart(s: string): (r: string)
    ensures r == "" || !Space(r[0])
    ensures s != "" && !Space(s[0]) ==> r == s
  {
    if s == "" || !Space(s[0]) then s else TrimStart(s[1..])
  }

  function TrimEnd(s: string): (r: string)
    ensures r == "" || !Space(r[|r| - 1])
    ensures s != "" && !Space(s[|s| - 1]) ==> r == s
    ensures r == "" || (s != "" && r[0] == s[0])
  {
    if s == "" || !Space(s[|s| - 1]) then s else TrimEnd(s[..|s| - 1])
  }

  function Trim(s: string): (r: string)
    ensures r == "" || (!Space(r[0]) && !Space(r[|r| - 1]))
  {
    TrimEnd(TrimStart(s))
  }

  lemma TrimAgain(s: string)
    ensures Trim(Trim(s)) == Trim(s)
  {
  }

  /** Every run of spaces becomes one blank. */
  function Collapse(s: string): string {
    if s == "" then ""
    else if !Space(s[0]) then [s[0]] + Collapse(s[1..])
    else if |s| > 1 && Space(s[1]) then Collapse(s[1..])
    else " " + Collapse(s[1..])
  }

  /** Only single blanks, none next to another. */
  ghost predicate Tidy(s: string) {
    forall i :: 0 <= i < |s| && Space(s[i]) ==> s[i] == ' ' && (i + 1 < |s| ==> !Space(s[i + 1]))
  }

  lemma {:induction false} CollapseIs(s: string)
    ensures Tidy(Collapse(s))
    ensures s != "" ==> Collapse(s) != "" && (Space(Collapse(s)[0]) <==> Space(s[0]))
    ensures s != "" ==> (Space(Collapse(s)[|Collapse(s)| - 1]) <==> Space(s[|s| - 1]))
    ensures s != "" && !Space(s[0]) ==> Collapse(s)[0] == s[0]
  {
    if s != "" {
      CollapseIs(s[1..]);
      var rest := Collapse(s[1..]);
      if !Space(s[0]) {
        TidyCons(s[0], rest);
      } else if |s| == 1 || !Space(s[1]) {
        TidyCons(' ', rest);
      }
    }
  }

  lemma TidyCons(c: char, rest: string)
    requires Tidy(rest) && (Space(c) ==> c == ' ' && (rest == "" || !Space(rest[0])))
    ensures Tidy([c] + rest)
  {
    var s := [c] + rest;
    forall i | 0 <= i < |s| && Space(s[i])
      ensures s[i] == ' ' && (i + 1 < |s| ==> !Space(s[i + 1]))
    {
      assert i > 0 ==> s[i] == rest[i - 1];
      assert i + 1 < |s| ==> s[i + 1] == rest[i];
    }
  }

  lemma {:induction false} CollapseTidy(s: string)
    requires Tidy(s)
    ensures Collapse(s) == s
  {
    if s != "" {
      assert forall i :: 0 <= i < |s[1..]| ==> s[1..][i] == s[i + 1];
      CollapseTidy(s[1..]);
    }
  }

  /** normalizeString. */
  function Normalize(s: Option<string>): string {
    if s.None? then "" else Collapse(Trim(s.value))
  }

  /** Normalising normal text changes nothing. */
  lemma NormalizeAgain(s: Option<string>)
    ensures Normalize(Some(Normalize(s))) == Normalize(s)
  {
    if s.Some? {
      CollapseIs(Trim(s.value));
      CollapseTidy(Normalize(s));
    }
  }

  const SELF: string -> string := (s: string) => s

  /** uniqueSorted: trimmed, non-empty, distinct and in order. */
  function UniqueSorted(values: seq<string>): seq<string> {
    SortUnique(Trimmed(values), SELF)
  }

  function Trimmed(values: seq<string>): seq<string> {
    if values == [] then []
    else (if Trim(values[0]) != "" then [Trim(values[0])] else []) + Trimmed(values[1..])
  }

  lemma {:induction false} TrimmedAre(values: seq<string>)
    ensures forall v :: v in Trimmed(values) ==> v != "" && Trim(v) == v
    ensures forall v :: v in Trimmed(values) <==> v != "" && exists u :: u in values && Trim(u) == v
  {
    if values != [] {
      assert values == [values[0]] + values[1..];
      TrimmedAre(values[1..]);
      TrimAgain(values[0]);
    }
  }

  lemma {:induction false} TrimmedAgain(values: seq<string>)
    requires forall v :: v in values ==> v != "" && Trim(v) == v
    ensures Trimmed(values) == values
  {
    if values != [] {
      assert values == [values[0]] + values[1..];
      assert values[0] in values && forall v :: v in values[1..] ==> v in values;
      TrimmedAgain(values[1..]);
    }
  }

  lemma {:induction false} InsertKeeps(x: string, s: seq<string>)
    requires Ascending(s, SELF)
    ensures forall y :: y in Insert(x, s, SELF) <==> y == x || y in s
  {
    if s != [] {
      assert s == [s[0]] + s[1..];
      LessTotal(x, s[0]);
      InsertKeeps(x, s[1..]);
    }
  }

  lemma {:induction false} SortKeeps(s: seq<string>)
    ensures forall y :: y in SortUnique(s, SELF) <==> y in s
  {
    if s != [] {
      assert s == [s[0]] + s[1..];
      SortKeeps(s[1..]);
      SortUniqueIs(s[1..], SELF);
      InsertKeeps(s[0], SortUnique(s[1..], SELF));
    }
  }

  /** The result holds exactly the trimmed non-empty values, in strict order. */
  lemma UniqueSortedIs(values: seq<string>)
    ensures Ascending(UniqueSorted(values), SELF)
    ensures forall v :: v in UniqueSorted(values) <==> v != "" && exists u :: u in values && Trim(u) == v
    ensures UniqueSorted(UniqueSorted(values)) == UniqueSorted(values)
  {
    var t := Trimmed(values);
    TrimmedAre(values);
    SortKeeps(t);
    SortUniqueIs(t, SELF);
    TrimmedAgain(UniqueSorted(values));
    SortUniqueAgain(UniqueSorted(values), SELF);
  }

  // ---------------------------------------------------------------- words

  /** The runs of characters that are not white space, in order. */
  function Words(s: string): (ws: seq<string>)
    ensures s != "" && !Space(s[0]) ==> ws != []
    ensures ws == [] <==> forall i :: 0 <= i < |s| ==> Space(s[i])
  {
    if s == "" then []
    else if Space(s[0]) then Words(s[1..])
    else if |s| == 1 || Space(s[1]) then [[s[0]]] + Words(s[1..])
    else
      var rest := Words(s[1..]);
      [[s[0]] + rest[0]] + rest[1..]
  }

  /** The words with one blank between them. */
  function Joined(ws: seq<string>): string {
    if ws == [] then "" else if |ws| == 1 then ws[0] else ws[0] + " " + Joined(ws[1..])
  }

  lemma JoinedLonger(c: char, ws: seq<string>)
    requires ws != []
    ensures Joined([[c] + ws[0]] + ws[1..]) == [c] + Joined(ws)
  {
    assert ([[c] + ws[0]] + ws[1..])[1..] == ws[1..];
  }

  lemma JoinedMore(c: char, ws: seq<string>)
    ensures Joined([[c]] + ws) == [c] + if ws == [] then "" else " " + Joined(ws)
  {
    assert ([[c]] + ws)[1..] == ws;
  }

  /** The blank a text starts with once it is collapsed. */
  function Lead(s: string): string {
    if s != "" && Space(s[0]) then " " else ""
  }

  lemma CollapseCons(c: char, rest: string)
    ensures !Space(c) ==> Collapse([c] + rest) == [c] + Collapse(rest)
    ensures Space(c) ==> Collapse([c] + rest) == if Lead(rest) != "" then Collapse(rest) else " " + Collapse(rest)
  {
    assert ([c] + rest)[1..] == rest;
    assert rest != "" ==> ([c] + rest)[1] == rest[0];
  }

  lemma WordsCons(c: char, rest: string)
    ensures Space(c) ==> Words([c] + rest) == Words(rest)
    ensures !Space(c) ==> Joined(Words([c] + rest)) == [c] + (if Words(rest) != [] then Lead(rest) else "") + Joined(Words(rest))
  {
    assert ([c] + rest)[1..] == rest;
    if !Space(c) {
      if rest == "" || Space(rest[0]) {
        JoinedMore(c, Words(rest));
      } else {
        JoinedLonger(c, Words(rest));
      }
    }
  }

  lemma {:induction false} CollapseJoins(s: string)
    requires s == "" || !Space(s[|s| - 1])
    ensures Collapse(s) == Lead(s) + Joined(Words(s))
  {
    if s != "" {
      var c, rest := s[0], s[1..];
      assert s == [c] + rest;
      if rest != "" {
        assert rest[|rest| - 1] == s[|s| - 1];
        SomeWord(rest);
      }
      CollapseJoins(rest);
      JoinsCons(c, rest);
    }
  }

  lemma JoinsCons(c: char, rest: string)
    requires Collapse(rest) == Lead(rest) + Joined(Words(rest))
    requires if rest == "" then !Space(c) else Words(rest) != []
    ensures Collapse([c] + rest) == Lead([c] + rest) + Joined(Words([c] + rest))
  {
    hide Collapse, Words, Joined;
    CollapseCons(c, rest);
    WordsCons(c, rest);
    var joined := Joined(Words(rest));
    if Space(c) {
      assert Lead([c] + rest) == " ";
      if Lead(rest) == "" {
        assert "" + joined == joined;
      }
    } else {
      assert Lead([c] + rest) == "";
      if rest != "" {
        assert [c] + (Lead(rest) + joined) == [c] + Lead(rest) + joined;
      }
    }
  }

  lemma SomeWord(s: string)
    requires s != "" && !Space(s[|s| - 1])
    ensures Words(s) != []
  {
  }

  lemma {:induction false} TrimStartWords(s: string)
    ensures Words(TrimStart(s)) == Words(s)
  {
    if s != "" && Space(s[0]) {
      TrimStartWords(s[1..]);
    }
  }

  lemma {:induction false} WordsBefore(s: string, c: char)
    requires Space(c)
    ensures Words(s + [c]) == Words(s)
  {
    if s != "" {
      assert (s + [c])[1..] == s[1..] + [c] && (s + [c])[0] == s[0];
      WordsBefore(s[1..], c);
      if |s| > 1 {
        assert (s + [c])[1] == s[1];
      } else {
        assert s[1..] == "" && (s + [c])[1] == c;
      }
    } else {
      assert s + [c] == [c] && [c][1..] == "";
    }
  }

  lemma {:induction false} TrimEndWords(s: string)
    ensures Words(TrimEnd(s)) == Words(s)
  {
    if s != "" && Space(s[|s| - 1]) {
      TrimEndWords(s[..|s| - 1]);
      WordsBefore(s[..|s| - 1], s[|s| - 1]);
      assert s == s[..|s| - 1] + [s[|s| - 1]];
    }
  }

  /** Normalising joins the words of a text with one blank between them. */
  lemma NormalizeJoins(s: string)
    ensures Normalize(Some(s)) == Joined(Words(s))
    ensures Normalize(Some(s)) == "" <==> Words(s) == []
  {
    TrimStartWords(s);
    TrimEndWords(TrimStart(s));
    CollapseJoins(Trim(s));
    CollapseIs(Trim(s));
    assert Trim(s) == "" ==> Words(Trim(s)) == [];
  }

  /** `v` is `u` without the white space at its ends, and is not blank. */
  ghost predicate Strips(u: string, v: string) {
    && v != "" && !Space(v[0]) && !Space(v[|v| - 1])
    && exists a, b :: u == a + v + b && Blank(a) && Blank(b)
  }

  ghost predicate Blank(s: string) {
    forall i :: 0 <= i < |s| ==> Space(s[i])
  }

  lemma {:induction false} TrimStartStrips(s: string) returns (a: string)
    ensures s == a + TrimStart(s) && Blank(a)
  {
    if s == "" || !Space(s[0]) {
      a := "";
    } else {
      a := TrimStartStrips(s[1..]);
      a := [s[0]] + a;
    }
  }

  lemma {:induction false} TrimEndStrips(s: string) returns (b: string)
    ensures s == TrimEnd(s) + b && Blank(b)
  {
    if s == "" || !Space(s[|s| - 1]) {
      b := "";
    } else {
      b := TrimEndStrips(s[..|s| - 1]);
      b := b + [s[|s| - 1]];
    }
  }

  lemma TrimStrips(u: string)
    ensures Trim(u) != "" ==> Strips(u, Trim(u))
    ensures Trim(u) == "" <==> Blank(u)
  {
    var a := TrimStartStrips(u);
    var b := TrimEndStrips(TrimStart(u));
    assert u == a + Trim(u) + b;
    if Trim(u) != "" {
      assert u[|a|] == Trim(u)[0];
    }
  }

  lemma {:induction false} TrimStartOf(a: string, v: string)
    requires Blank(a) && (v == "" || !Space(v[0]))
    ensures TrimStart(a + v) == v
  {
    if a == "" {
      assert a + v == v;
    } else {
      assert (a + v)[0] == a[0] && (a + v)[1..] == a[1..] + v;
      TrimStartOf(a[1..], v);
    }
  }

  lemma {:induction false} TrimEndOf(v: string, b: string)
    requires Blank(b) && v != "" && !Space(v[|v| - 1])
    ensures TrimEnd(v + b) == v
  {
    if b == "" {
      assert v + b == v;
    } else {
      var n := |b| - 1;
      assert (v + b)[|v + b| - 1] == b[n] && (v + b)[..|v + b| - 1] == v + b[..n];
      TrimEndOf(v, b[..n]);
    }
  }

  /** A text has only one such part. */
  lemma StripsOne(u: string, v: string)
    requires Strips(u, v)
    ensures Trim(u) == v
  {
    var a, b :| u == a + v + b && Blank(a) && Blank(b);
    assert u == a + (v + b) && (v + b)[0] == v[0];
    TrimStartOf(a, v + b);
    TrimEndOf(v, b);
  }

  /** The ids are exactly the given ones without white space at their ends, blank ones dropped, in
      strict order. */
  ghost predicate CleanIds(given: seq<string>, ids: seq<string>) {
    && (forall v :: v in ids <==> exists u :: u in given && Strips(u, v))
    && (forall i, j :: 0 <= i < j < |ids| ==> Precedes(ids[i], ids[j]))
  }

  lemma {:induction false} AscendingOrder(s: seq<string>)
    requires Ascending(s, SELF)
    ensures forall i, j :: 0 <= i < j < |s| ==> Less(s[i], s[j])
  {
    hide Less;
    if s != [] {
      assert s == [s[0]] + s[1..];
      AscendingOrder(s[1..]);
      forall i, j | 0 <= i < j < |s|
        ensures Less(s[i], s[j])
      {
        assert s[j] == s[1..][j - 1] && s[1..][j - 1] in s[1..];
        assert SELF(s[i]) == s[i] && SELF(s[j]) == s[j];
        if i > 0 {
          assert s[i] == s[1..][i - 1];
        }
      }
    }
  }

  lemma UniqueSortedClean(given: seq<string>)
    ensures CleanIds(given, UniqueSorted(given))
  {
    hide Strips, UniqueSorted, Less, Precedes;
    UniqueSortedIs(given);
    AscendingOrder(UniqueSorted(given));
    var ids := UniqueSorted(given);
    forall i, j | 0 <= i < j < |ids|
      ensures Precedes(ids[i], ids[j])
    {
      LessPrecedes(ids[i], ids[j]);
    }
    forall v
      ensures v in UniqueSorted(given) <==> exists u :: u in given && Strips(u, v)
    {
      if v in UniqueSorted(given) {
        var u :| u in given && Trim(u) == v;
        TrimStrips(u);
      }
      if u :| u in given && Strips(u, v) {
        StripsOne(u, v);
        StripsSome(u, v);
      }
    }
  }

  lemma StripsSome(u: string, v: string)
    requires Strips(u, v)
    ensures v != ""
  {
  }
}
