/** The canonical serialiser of the composition log (src/noema/composition-log.ts:129-142):
    independent of key order, and injective. */
module StableJsons {
  import opened JsonValues
  import TextOrder

  // ---------------------------------------------------------------- string literals

  /** Lower-case hex digit. */
  function Hex(n: nat): char
    requires n < 16
  {
    "0123456789abcdef"[n]
  }

  lemma HexInjective(m: nat, n: nat)
    requires m < 16 && n < 16 && Hex(m) == Hex(n)
    ensures m == n
  {
    var digits := "0123456789abcdef";
    assert forall i, j :: 0 <= i < j < 16 ==> digits[i] != digits[j];
  }

  /** JSON.stringify of one character inside a string. */
  function Escape(c: char): string {
    if c == '\"' then "\\\""
    else if c == '\\' then "\\\\"
    else if c == '\U{8}' then "\\b"
    else if c == '\U{9}' then "\\t"
    else if c == '\U{a}' then "\\n"
    else if c == '\U{c}' then "\\f"
    else if c == '\U{d}' then "\\r"
    else if c < ' ' then "\\u00" + [Hex(c as int / 16), Hex(c as int % 16)]
    else [c]
  }

  /** The characters of a string and its closing quote. */
  function Tail(s: string): string {
    if s == [] then "\"" else Escape(s[0]) + Tail(s[1..])
  }

  function Quote(s: string): string {
    "\"" + Tail(s)
  }

  lemma EscapeShape(c: char)
    ensures |Escape(c)| >= 1 && Escape(c)[0] != '\"'
    ensures Escape(c)[0] != '\\' ==> Escape(c) == [c]
    ensures Escape(c)[0] == '\\' ==> |Escape(c)| >= 2 && (Escape(c)[1] == 'u' <==> |Escape(c)| == 6)
    ensures Escape(c)[0] == '\\' && Escape(c)[1] != 'u' ==> |Escape(c)| == 2
  {
  }

  /** No escape is the beginning of another. */
  lemma EscapePrefix(c: char, d: char, x: string, y: string)
    requires Escape(c) + x == Escape(d) + y
    ensures c == d && x == y
  {
    EscapeShape(c);
    EscapeShape(d);
    var e, f := Escape(c), Escape(d);
    assert (e + x)[0] == e[0] && (f + y)[0] == f[0];
    if e[0] == '\\' {
      assert (e + x)[1] == e[1] && (f + y)[1] == f[1];
    }
    assert |e| == |f|;
    assert e == (e + x)[..|e|] == f;
    assert x == (e + x)[|e|..] == y;
    SameEscape(c, d);
  }

  lemma SameEscape(c: char, d: char)
    requires Escape(c) == Escape(d)
    ensures c == d
  {
    EscapeShape(c);
    if Escape(c)[0] == '\\' {
      if Escape(c)[1] == 'u' {
        assert Escape(c)[4] == Escape(d)[4] && Escape(c)[5] == Escape(d)[5];
        HexInjective(c as int / 16, d as int / 16);
        HexInjective(c as int % 16, d as int % 16);
      }
    }
  }

  lemma TailShape(s: string, x: string)
    ensures s == [] ==> Tail(s) + x == "\"" + x
    ensures s != [] ==> Tail(s) + x == Escape(s[0]) + (Tail(s[1..]) + x)
  {
  }

  lemma CutFirst(a: string, b: string, x: string, y: string)
    requires a + x == b + y && |a| == |b|
    ensures a == b && x == y
  {
    assert (a + x)[..|a|] == a && (b + y)[..|b|] == b;
    assert (a + x)[|a|..] == x && (b + y)[|b|..] == y;
  }

  /** A closing quote is never the beginning of an escaped character. */
  lemma QuoteIsNoEscape(c: char, x: string, y: string)
    ensures "\"" + x != Escape(c) + y
  {
    EscapeShape(c);
    assert ("\"" + x)[0] == '\"' && (Escape(c) + y)[0] == Escape(c)[0];
  }

  lemma {:induction false} TailPrefix(s: string, t: string, x: string, y: string)
    requires Tail(s) + x == Tail(t) + y
    ensures s == t && x == y
    decreases |s|
  {
    TailShape(s, x);
    TailShape(t, y);
    if s == [] && t == [] {
      CutFirst("\"", "\"", x, y);
    } else if s == [] {
      QuoteIsNoEscape(t[0], x, Tail(t[1..]) + y);
    } else if t == [] {
      QuoteIsNoEscape(s[0], y, Tail(s[1..]) + x);
    } else {
      EscapePrefix(s[0], t[0], Tail(s[1..]) + x, Tail(t[1..]) + y);
      TailPrefix(s[1..], t[1..], x, y);
      assert s == [s[0]] + s[1..] && t == [t[0]] + t[1..];
    }
  }

  // ---------------------------------------------------------------- printing in given order

  function Print(v: Json): string
    decreases v
  {
    match v
    case Null => "null"
    case Bool(b) => if b then "true" else "false"
    case Num(literal) => literal
    case Str(s) => Quote(s)
    case Arr(xs) => "[" + Body(xs)
    case Obj(fs) => "{" + Members(fs)
  }

  /** The items of an array, comma-separated, and its closing bracket. */
  function Body(xs: seq<Json>): string
    decreases xs, 0
  {
    if xs == [] then "]" else Print(xs[0]) + Items(xs[1..])
  }

  function Items(xs: seq<Json>): string
    decreases xs, 1
  {
    if xs == [] then "]" else "," + Body(xs)
  }

  function Members(fs: seq<Field>): string
    decreases fs, 0
  {
    if fs == [] then "}" else Quote(fs[0].key) + ":" + Print(fs[0].value) + Entries(fs[1..])
  }

  function Entries(fs: seq<Field>): string
    decreases fs, 1
  {
    if fs == [] then "}" else "," + Members(fs)
  }

  predicate Numeric(c: char) {
    '0' <= c <= '9' || c == '+' || c == '-' || c == '.' || c == 'e' || c == 'E'
  }

  /** Number literals are printed by JavaScript; keys of an object are distinct. */
  ghost predicate WellFormed(v: Json)
    decreases v
  {
    match v
    case Num(literal) => literal != "" && forall c :: c in literal ==> Numeric(c)
    case Arr(xs) => forall x :: x in xs ==> WellFormed(x)
    case Obj(fs) => DistinctFields(fs) && forall f :: f in fs ==> WellFormed(f.value)
    case _ => true
  }

  ghost predicate DistinctFields(fs: seq<Field>) {
    forall i, j :: 0 <= i < j < |fs| ==> fs[i].key != fs[j].key
  }

  /** What may follow a value. */
  predicate Ends(x: string) {
    x == "" || x[0] == ',' || x[0] == ']' || x[0] == '}'
  }

  /** The first character tells what kind of value follows; it is never a delimiter. */
  function Start(v: Json): char {
    match v
    case Null => 'n'
    case Bool(b) => if b then 't' else 'f'
    case Num(literal) => if literal == "" then ' ' else literal[0]
    case Str(_) => '\"'
    case Arr(_) => '['
    case Obj(_) => '{'
  }

  lemma PrintStarts(v: Json, x: string)
    requires WellFormed(v)
    ensures |Print(v) + x| >= 1 && (Print(v) + x)[0] == Start(v)
    ensures Start(v) != ',' && Start(v) != ']' && Start(v) != '}'
    ensures v.Num? ==> Numeric(Start(v))
  {
    if v.Num? {
      assert v.literal[0] in v.literal;
    }
  }

  lemma SameKind(v: Json, w: Json)
    requires WellFormed(v) && WellFormed(w) && Start(v) == Start(w)
    ensures v.Null? == w.Null? && v.Bool? == w.Bool? && v.Num? == w.Num? && v.Str? == w.Str? && v.Arr? == w.Arr?
    ensures v.Bool? ==> v == w
  {
    PrintStarts(v, "");
    PrintStarts(w, "");
  }

  lemma {:induction false} NumericPrefix(a: string, b: string, x: string, y: string)
    requires (forall c :: c in a ==> Numeric(c)) && (forall c :: c in b ==> Numeric(c))
    requires Ends(x) && Ends(y) && a + x == b + y
    ensures a == b && x == y
    decreases |a|
  {
    hide Ends;
    if a == [] && b == [] {
      assert x == a + x && y == b + y;
    } else if a == [] {
      EndsNotNumeric(b, x, y);
    } else if b == [] {
      EndsNotNumeric(a, y, x);
    } else {
      assert (a + x)[0] == a[0] && (b + y)[0] == b[0];
      assert (a + x)[1..] == a[1..] + x && (b + y)[1..] == b[1..] + y;
      NumericPrefix(a[1..], b[1..], x, y);
      assert a == [a[0]] + a[1..] && b == [b[0]] + b[1..];
    }
  }

  lemma EndsNotNumeric(b: string, x: string, y: string)
    requires b != [] && (forall c :: c in b ==> Numeric(c)) && Ends(x)
    ensures [] + x != b + y
  {
    assert b[0] in b && Numeric(b[0]);
    if x == [] {
      assert |[] + x| == 0;
    } else {
      assert ([] + x)[0] == x[0] && (b + y)[0] == b[0];
    }
  }

  // The shape of a printed container: its first character, then its first part.

  lemma ArrShape(xs: seq<Json>, x: string)
    ensures Print(Arr(xs)) + x == "[" + (Body(xs) + x)
  {
  }

  lemma ObjShape(fs: seq<Field>, x: string)
    ensures Print(Obj(fs)) + x == "{" + (Members(fs) + x)
  {
  }

  lemma StrShape(s: string, x: string)
    ensures Print(Str(s)) + x == "\"" + (Tail(s) + x)
  {
  }

  lemma BodyShape(xs: seq<Json>, x: string)
    ensures xs == [] ==> Body(xs) + x == "]" + x
    ensures xs != [] ==> Body(xs) + x == Print(xs[0]) + (Items(xs[1..]) + x)
  {
  }

  lemma ItemsShape(xs: seq<Json>, x: string)
    ensures xs == [] ==> Items(xs) + x == "]" + x
    ensures xs != [] ==> Items(xs) + x == "," + (Body(xs) + x)
    ensures Ends(Items(xs) + x)
  {
  }

  lemma MembersShape(fs: seq<Field>, x: string)
    ensures fs == [] ==> Members(fs) + x == "}" + x
    ensures fs != [] ==> Members(fs) + x == "\"" + (Tail(fs[0].key) + (":" + (Print(fs[0].value) + (Entries(fs[1..]) + x))))
  {
    if fs != [] {
      var k, v, r := Tail(fs[0].key), Print(fs[0].value), Entries(fs[1..]);
      Spread("\"", k, v, r, x);
    }
  }

  lemma Spread(q: string, k: string, v: string, r: string, x: string)
    ensures q + k + ":" + v + r + x == q + (k + (":" + (v + (r + x))))
  {
  }

  lemma EntriesShape(fs: seq<Field>, x: string)
    ensures fs == [] ==> Entries(fs) + x == "}" + x
    ensures fs != [] ==> Entries(fs) + x == "," + (Members(fs) + x)
    ensures Ends(Entries(fs) + x)
  {
  }

  /** A printed value followed by a delimiter determines the value and what follows. */
  lemma {:induction false} PrintPrefix(v: Json, w: Json, x: string, y: string)
    requires WellFormed(v) && WellFormed(w) && Ends(x) && Ends(y) && Print(v) + x == Print(w) + y
    ensures v == w && x == y
    decreases v, 1
  {
    PrintStarts(v, x);
    PrintStarts(w, y);
    SameKind(v, w);
    match v
    case Null => CutFirst("null", "null", x, y);
    case Bool(b) => CutFirst(Print(v), Print(w), x, y);
    case Num(literal) => NumericPrefix(literal, w.literal, x, y);
    case Str(s) =>
      StrShape(s, x);
      StrShape(w.text, y);
      CutFirst("\"", "\"", Tail(s) + x, Tail(w.text) + y);
      TailPrefix(s, w.text, x, y);
    case Arr(xs) =>
      ArrShape(xs, x);
      ArrShape(w.items, y);
      CutFirst("[", "[", Body(xs) + x, Body(w.items) + y);
      BodyPrefix(xs, w.items, x, y);
    case Obj(fs) =>
      ObjShape(fs, x);
      ObjShape(w.fields, y);
      CutFirst("{", "{", Members(fs) + x, Members(w.fields) + y);
      MembersPrefix(fs, w.fields, x, y);
  }

  /** A closing bracket is never the beginning of a value. */
  lemma CloseIsNoValue(v: Json, x: string, y: string)
    requires WellFormed(v)
    ensures "]" + x != Print(v) + y
  {
    PrintStarts(v, y);
    assert ("]" + x)[0] == ']';
  }

  lemma {:induction false} BodyPrefix(xs: seq<Json>, ys: seq<Json>, x: string, y: string)
    requires WellFormed(Arr(xs)) && WellFormed(Arr(ys)) && Body(xs) + x == Body(ys) + y
    ensures xs == ys && x == y
    decreases xs, 1
  {
    hide Print, Body, Items;
    BodyShape(xs, x);
    BodyShape(ys, y);
    if xs == [] && ys == [] {
      CutFirst("]", "]", x, y);
    } else if xs == [] {
      CloseIsNoValue(ys[0], x, Items(ys[1..]) + y);
    } else if ys == [] {
      CloseIsNoValue(xs[0], y, Items(xs[1..]) + x);
    } else {
      ItemsShape(xs[1..], x);
      ItemsShape(ys[1..], y);
      PrintPrefix(xs[0], ys[0], Items(xs[1..]) + x, Items(ys[1..]) + y);
      ItemsPrefix(xs[1..], ys[1..], x, y);
      assert xs == [xs[0]] + xs[1..] && ys == [ys[0]] + ys[1..];
    }
  }

  lemma {:induction false} ItemsPrefix(xs: seq<Json>, ys: seq<Json>, x: string, y: string)
    requires WellFormed(Arr(xs)) && WellFormed(Arr(ys)) && Items(xs) + x == Items(ys) + y
    ensures xs == ys && x == y
    decreases xs, 2
  {
    hide Print, Body, Items;
    ItemsShape(xs, x);
    ItemsShape(ys, y);
    if xs == [] && ys == [] {
      CutFirst("]", "]", x, y);
    } else if xs == [] {
      CutFirst("]", ",", x, Body(ys) + y);
    } else if ys == [] {
      CutFirst(",", "]", Body(xs) + x, y);
    } else {
      CutFirst(",", ",", Body(xs) + x, Body(ys) + y);
      BodyPrefix(xs, ys, x, y);
    }
  }

  lemma {:induction false} MembersPrefix(fs: seq<Field>, gs: seq<Field>, x: string, y: string)
    requires WellFormed(Obj(fs)) && WellFormed(Obj(gs)) && Members(fs) + x == Members(gs) + y
    ensures fs == gs && x == y
    decreases fs, 1
  {
    hide Print, Members, Entries, Tail;
    MembersShape(fs, x);
    MembersShape(gs, y);
    if fs == [] && gs == [] {
      CutFirst("}", "}", x, y);
    } else if fs == [] {
      CutFirst("}", "\"", x, Tail(gs[0].key) + (":" + (Print(gs[0].value) + (Entries(gs[1..]) + y))));
    } else if gs == [] {
      CutFirst("\"", "}", Tail(fs[0].key) + (":" + (Print(fs[0].value) + (Entries(fs[1..]) + x))), y);
    } else {
      var f, g := fs[0], gs[0];
      var m, n := Entries(fs[1..]) + x, Entries(gs[1..]) + y;
      var a, b := ":" + (Print(f.value) + m), ":" + (Print(g.value) + n);
      CutFirst("\"", "\"", Tail(f.key) + a, Tail(g.key) + b);
      TailPrefix(f.key, g.key, a, b);
      CutFirst(":", ":", Print(f.value) + m, Print(g.value) + n);
      EntriesShape(fs[1..], x);
      EntriesShape(gs[1..], y);
      PrintPrefix(f.value, g.value, m, n);
      EntriesPrefix(fs[1..], gs[1..], x, y);
      assert fs == [f] + fs[1..] && gs == [g] + gs[1..];
    }
  }

  lemma {:induction false} EntriesPrefix(fs: seq<Field>, gs: seq<Field>, x: string, y: string)
    requires WellFormed(Obj(fs)) && WellFormed(Obj(gs)) && Entries(fs) + x == Entries(gs) + y
    ensures fs == gs && x == y
    decreases fs, 2
  {
    hide Print, Members, Entries;
    EntriesShape(fs, x);
    EntriesShape(gs, y);
    if fs == [] && gs == [] {
      CutFirst("}", "}", x, y);
    } else if fs == [] {
      CutFirst("}", ",", x, Members(gs) + y);
    } else if gs == [] {
      CutFirst(",", "}", Members(fs) + x, y);
    } else {
      CutFirst(",", ",", Members(fs) + x, Members(gs) + y);
      MembersPrefix(fs, gs, x, y);
    }
  }
}
