/** Reading canonical text back as JSON (RFC 8259): the serialiser of the composition log writes the
    value it was given, with the keys of every object in order (src/noema/composition-log.ts:129-142). */
module JsonReader {
  import opened OrderedMap
  import opened JsonValues
  import opened TextOrder
  import opened StableJsons
  import opened CanonicalJson

  // ---------------------------------------------------------------- a reader

  /** A hexadecimal digit, in either case. */
  function HexValue(c: char): Option<nat> {
    if '0' <= c <= '9' then Some(c as int - '0' as int)
    else if 'a' <= c <= 'f' then Some(c as int - 'a' as int + 10)
    else if 'A' <= c <= 'F' then Some(c as int - 'A' as int + 10)
    else None
  }

  /** What a character behind a backslash stands for. */
  function Short(c: char): Option<char> {
    if c == '\"' || c == '\\' || c == '/' then Some(c)
    else if c == 'b' then Some('\U{8}')
    else if c == 'f' then Some('\U{c}')
    else if c == 'n' then Some('\U{a}')
    else if c == 'r' then Some('\U{d}')
    else if c == 't' then Some('\U{9}')
    else None
  }

  /** Four hexadecimal digits; a surrogate is no character. */
  function Long(t: string): Option<char>
    requires |t| >= 4
  {
    match (HexValue(t[0]), HexValue(t[1]), HexValue(t[2]), HexValue(t[3]))
    case (Some(a), Some(b), Some(c), Some(d)) =>
      var n := ((a * 16 + b) * 16 + c) * 16 + d;
      if n < 0xD800 || 0xE000 <= n < 0x10000 then Some(n as char) else None
    case (_, _, _, _) => None
  }

  datatype Read<T> = Got(value: T, rest: string) | Bad

  /** A string up to its closing quote. */
  function ReadString(t: string): (r: Read<string>)
    ensures r.Got? ==> |r.rest| < |t|
    decreases |t|
  {
    if t == "" then Bad
    else if t[0] == '\"' then Got("", t[1..])
    else if t[0] == '\\' then
      if |t| >= 6 && t[1] == 'u' then After(Long(t[2..]), ReadString(t[6..]))
      else if |t| >= 2 && t[1] != 'u' then After(Short(t[1]), ReadString(t[2..]))
      else Bad
    else if t[0] < ' ' then Bad
    else After(Some(t[0]), ReadString(t[1..]))
  }

  function After(c: Option<char>, r: Read<string>): (s: Read<string>)
    ensures s.Got? ==> r.Got? && s.rest == r.rest
  {
    if c.Some? && r.Got? then Got([c.value] + r.value, r.rest) else Bad
  }

  function ReadNumber(t: string): (r: Read<string>)
    ensures r.Got? && (t != "" && Numeric(t[0]) ==> |r.rest| < |t|) && |r.rest| <= |t|
    decreases |t|
  {
    if t == "" || !Numeric(t[0]) then Got("", t)
    else
      var r := ReadNumber(t[1..]);
      Got([t[0]] + r.value, r.rest)
  }

  function ReadValue(t: string): (r: Read<Json>)
    ensures r.Got? ==> |r.rest| < |t|
    decreases |t|, 1
  {
    if t == "" then Bad
    else if t[0] == '\"' then
      (match ReadString(t[1..]) case Got(s, rest) => Got(Str(s), rest) case Bad => Bad)
    else if t[0] == '[' then
      if |t| > 1 && t[1] == ']' then Got(Arr([]), t[2..])
      else (match ReadItems(t[1..]) case Got(xs, rest) => Got(Arr(xs), rest) case Bad => Bad)
    else if t[0] == '{' then
      if |t| > 1 && t[1] == '}' then Got(Obj([]), t[2..])
      else (match ReadFields(t[1..]) case Got(fs, rest) => Got(Obj(fs), rest) case Bad => Bad)
    else if "null" <= t then Got(Null, t[4..])
    else if "true" <= t then Got(Bool(true), t[4..])
    else if "false" <= t then Got(Bool(false), t[5..])
    else if Numeric(t[0]) then
      var r := ReadNumber(t);
      Got(Num(r.value), r.rest)
    else Bad
  }

  /** One or more items and the closing bracket. */
  function ReadItems(t: string): (r: Read<seq<Json>>)
    ensures r.Got? ==> |r.rest| < |t|
    decreases |t|, 2
  {
    match ReadValue(t)
    case Bad => Bad
    case Got(x, rest) =>
      if rest != "" && rest[0] == ']' then Got([x], rest[1..])
      else if rest != "" && rest[0] == ',' then
        (match ReadItems(rest[1..]) case Got(xs, more) => Got([x] + xs, more) case Bad => Bad)
      else Bad
  }

  /** One or more members and the closing brace. */
  function ReadFields(t: string): (r: Read<seq<Field>>)
    ensures r.Got? ==> |r.rest| < |t|
    decreases |t|, 2
  {
    if t == "" || t[0] != '\"' then Bad
    else
      match ReadString(t[1..])
      case Bad => Bad
      case Got(key, rest) =>
        if rest == "" || rest[0] != ':' then Bad
        else
          match ReadValue(rest[1..])
          case Bad => Bad
          case Got(v, more) =>
            if more != "" && more[0] == '}' then Got([Field(key, v)], more[1..])
            else if more != "" && more[0] == ',' then
              (match ReadFields(more[1..]) case Got(fs, end) => Got([Field(key, v)] + fs, end) case Bad => Bad)
            else Bad
  }

  // ---------------------------------------------------------------- what is printed reads back

  lemma EscapeBack(c: char, x: string)
    ensures ReadString(Escape(c) + x) == After(Some(c), ReadString(x))
  {
    hide After, ReadString;
    EscapeShape(c);
    if |Escape(c)| == 6 {
      LongBack(c, x);
    } else if |Escape(c)| == 2 {
      ShortBack(c, x);
    } else {
      PlainBack(c, x);
    }
  }

  lemma PlainBack(c: char, x: string)
    requires |Escape(c)| == 1
    ensures ReadString(Escape(c) + x) == After(Some(c), ReadString(x))
  {
    hide After;
    var t := Escape(c) + x;
    assert t[0] == c && t[1..] == x;
  }

  lemma ShortBack(c: char, x: string)
    requires |Escape(c)| == 2
    ensures ReadString(Escape(c) + x) == After(Some(c), ReadString(x))
  {
    hide After;
    ShortIs(c);
    hide Escape, Short;
    var t := Escape(c) + x;
    assert t[0] == '\\' && t[1] == Escape(c)[1] && t[2..] == x;
  }

  lemma ShortIs(c: char)
    requires |Escape(c)| == 2
    ensures Escape(c)[0] == '\\' && Escape(c)[1] != 'u' && Short(Escape(c)[1]) == Some(c)
  {
  }

  lemma LongBack(c: char, x: string)
    requires |Escape(c)| == 6
    ensures ReadString(Escape(c) + x) == After(Some(c), ReadString(x))
  {
    hide After;
    LongIs(c);
    hide Escape, Long;
    var t := Escape(c) + x;
    assert t[0] == '\\' && t[1] == 'u' && t[6..] == x;
    assert t[2..][..4] == Escape(c)[2..];
    LongFirst(t[2..], Escape(c)[2..]);
  }

  /** Only the four digits count. */
  lemma LongFirst(t: string, u: string)
    requires |t| >= 4 && |u| == 4 && t[..4] == u
    ensures Long(t) == Long(u)
  {
    assert t[0] == t[..4][0] && t[1] == t[..4][1] && t[2] == t[..4][2] && t[3] == t[..4][3];
  }

  lemma LongIs(c: char)
    requires |Escape(c)| == 6
    ensures Escape(c)[0] == '\\' && Escape(c)[1] == 'u' && Long(Escape(c)[2..]) == Some(c)
  {
    var u := Escape(c)[2..];
    assert u[0] == '0' && u[1] == '0' && u[2] == Hex(c as int / 16) && u[3] == Hex(c as int % 16);
    HexBack(c as int / 16);
    HexBack(c as int % 16);
  }

  lemma HexBack(n: nat)
    requires n < 16
    ensures HexValue(Hex(n)) == Some(n)
  {
    var digits := "0123456789abcdef";
    assert digits[n] == Hex(n);
    assert digits[..] == ['0', '1', '2', '3', '4', '5', '6', '7', '8', '9', 'a', 'b', 'c', 'd', 'e', 'f'];
  }

  lemma {:induction false} TailBack(s: string, x: string)
    ensures ReadString(Tail(s) + x) == Got(s, x)
  {
    hide Escape;
    if s == [] {
      assert (Tail(s) + x)[0] == '\"' && (Tail(s) + x)[1..] == x;
    } else {
      TailBack(s[1..], x);
      assert Tail(s) + x == Escape(s[0]) + (Tail(s[1..]) + x);
      EscapeBack(s[0], Tail(s[1..]) + x);
      assert s == [s[0]] + s[1..];
    }
  }

  lemma {:induction false} NumberBack(a: string, x: string)
    requires (forall c :: c in a ==> Numeric(c)) && Ends(x)
    ensures ReadNumber(a + x) == Got(a, x)
  {
    if a == [] {
      assert a + x == x;
    } else {
      assert (a + x)[0] == a[0] && (a + x)[1..] == a[1..] + x;
      assert a[0] in a;
      NumberBack(a[1..], x);
      assert a == [a[0]] + a[1..];
    }
  }

  lemma LiteralBack(v: Json, x: string)
    requires v.Null? || v.Bool?
    ensures ReadValue(Print(v) + x) == Got(v, x)
  {
    var t := Print(v) + x;
    assert Print(v) <= t && t[0] == Start(v) && t[|Print(v)|..] == x;
    if v == Bool(true) {
      assert t[0] == 't' && "null"[0] == 'n';
    } else if v == Bool(false) {
      assert t[0] == 'f' && "null"[0] == 'n' && "true"[0] == 't';
    }
  }

  lemma StringBack(s: string, x: string)
    ensures ReadValue(Print(Str(s)) + x) == Got(Str(s), x)
  {
    hide Tail, ReadString;
    StrShape(s, x);
    TailBack(s, x);
    assert ("\"" + (Tail(s) + x))[1..] == Tail(s) + x;
  }

  lemma LiteralStart(c: char, t: string)
    requires Numeric(c) && t != "" && t[0] == c
    ensures !("null" <= t) && !("true" <= t) && !("false" <= t)
  {
    assert "null"[0] == 'n' && "true"[0] == 't' && "false"[0] == 'f';
  }

  lemma NumBack(literal: string, x: string)
    requires WellFormed(Num(literal)) && Ends(x)
    ensures ReadValue(Print(Num(literal)) + x) == Got(Num(literal), x)
  {
    hide ReadNumber;
    NumberBack(literal, x);
    assert literal[0] in literal;
    LiteralStart(literal[0], literal + x);
  }

  /** A printed value followed by a delimiter reads back, and what follows is left. */
  lemma {:induction false} ValueBack(v: Json, x: string)
    requires WellFormed(v) && Ends(x)
    ensures ReadValue(Print(v) + x) == Got(v, x)
    decreases v, 2
  {
    match v
    case Null => LiteralBack(v, x);
    case Bool(b) => LiteralBack(v, x);
    case Num(literal) => NumBack(literal, x);
    case Str(s) => StringBack(s, x);
    case Arr(xs) => ArrayBack(xs, x);
    case Obj(fs) => ObjectBack(fs, x);
  }

  lemma {:induction false} ArrayBack(xs: seq<Json>, x: string)
    requires (forall y :: y in xs ==> WellFormed(y)) && Ends(x)
    ensures ReadValue(Print(Arr(xs)) + x) == Got(Arr(xs), x)
    decreases xs, 1
  {
    hide Print, Body, ReadItems, Ends, WellFormed;
    ArrShape(xs, x);
    BodyShape(xs, x);
    var t := "[" + (Body(xs) + x);
    assert t[0] == '[' && t[1..] == Body(xs) + x;
    if xs == [] {
      assert t[1] == ']' && t[2..] == x;
    } else {
      assert xs[0] in xs;
      PrintStarts(xs[0], Items(xs[1..]) + x);
      assert t[1] == (Body(xs) + x)[0];
      ItemsBack(xs, x);
    }
  }

  lemma {:induction false} ItemsBack(xs: seq<Json>, x: string)
    requires xs != [] && (forall y :: y in xs ==> WellFormed(y)) && Ends(x)
    ensures ReadItems(Body(xs) + x) == Got(xs, x)
    decreases xs, 0
  {
    hide Print, Body, Items, ReadValue, Ends, WellFormed;
    var more := Items(xs[1..]) + x;
    BodyShape(xs, x);
    ItemsShape(xs[1..], x);
    assert xs[0] in xs && forall y :: y in xs[1..] ==> y in xs;
    ValueBack(xs[0], more);
    assert xs == [xs[0]] + xs[1..];
    if xs[1..] == [] {
      assert more[0] == ']' && more[1..] == x && xs == [xs[0]];
    } else {
      assert more[0] == ',' && more[1..] == Body(xs[1..]) + x;
      ItemsBack(xs[1..], x);
    }
  }

  lemma {:induction false} ObjectBack(fs: seq<Field>, x: string)
    requires (forall f :: f in fs ==> WellFormed(f.value)) && Ends(x)
    ensures ReadValue(Print(Obj(fs)) + x) == Got(Obj(fs), x)
    decreases fs, 1
  {
    hide Print, Members, ReadFields, Ends, WellFormed, Tail;
    ObjShape(fs, x);
    MembersShape(fs, x);
    var t := "{" + (Members(fs) + x);
    assert t[0] == '{' && t[1..] == Members(fs) + x;
    if fs == [] {
      assert t[1] == '}' && t[2..] == x;
    } else {
      assert t[1] == '\"';
      FieldsBack(fs, x);
    }
  }

  lemma {:induction false} FieldsBack(fs: seq<Field>, x: string)
    requires fs != [] && (forall f :: f in fs ==> WellFormed(f.value)) && Ends(x)
    ensures ReadFields(Members(fs) + x) == Got(fs, x)
    decreases fs, 0
  {
    hide Print, Members, Entries, ReadValue, ReadString, Ends, WellFormed, Tail;
    var f := fs[0];
    var more := Entries(fs[1..]) + x;
    var value := Print(f.value) + more;
    MembersShape(fs, x);
    EntriesShape(fs[1..], x);
    assert f in fs && forall g :: g in fs[1..] ==> g in fs;
    var t := Members(fs) + x;
    assert t[0] == '\"' && t[1..] == Tail(f.key) + (":" + value);
    TailBack(f.key, ":" + value);
    assert (":" + value)[0] == ':' && (":" + value)[1..] == value;
    FieldValueBack(fs, more);
    assert fs == [Field(f.key, f.value)] + fs[1..];
    if fs[1..] == [] {
      assert more[0] == '}' && more[1..] == x && fs == [Field(f.key, f.value)];
    } else {
      assert more[0] == ',' && more[1..] == Members(fs[1..]) + x;
      FieldsBack(fs[1..], x);
    }
  }

  lemma {:induction false} FieldValueBack(fs: seq<Field>, more: string)
    requires fs != [] && WellFormed(fs[0].value) && Ends(more)
    ensures ReadValue(Print(fs[0].value) + more) == Got(fs[0].value, more)
    decreases fs, 0, 0
  {
    ValueBack(fs[0].value, more);
  }

  // ---------------------------------------------------------------- the canonical text

  /** The keys of every object stand in order. */
  ghost predicate KeysInOrder(v: Json)
    decreases v
  {
    match v
    case Arr(xs) => forall x :: x in xs ==> KeysInOrder(x)
    case Obj(fs) =>
      && (forall i, j :: 0 <= i < j < |fs| ==> Precedes(fs[i].key, fs[j].key))
      && forall f :: f in fs ==> KeysInOrder(f.value)
    case _ => true
  }

  lemma {:induction false} AscendingKeys(fs: seq<Field>)
    requires Ascending(fs, KEY)
    ensures forall i, j :: 0 <= i < j < |fs| ==> Precedes(fs[i].key, fs[j].key)
  {
    hide Less, Precedes;
    if fs != [] {
      AscendingKeys(fs[1..]);
      forall i, j | 0 <= i < j < |fs|
        ensures Precedes(fs[i].key, fs[j].key)
      {
        assert fs[j] == fs[1..][j - 1] && fs[1..][j - 1] in fs[1..];
        LessPrecedes(fs[i].key, fs[j].key);
        if i == 0 {
          assert Less(KEY(fs[0]), KEY(fs[j]));
        } else {
          assert fs[i] == fs[1..][i - 1];
        }
      }
    }
  }

  lemma {:induction false} CanonInOrder(v: Json)
    ensures KeysInOrder(Canon(v))
    decreases v
  {
    match v
    case Arr(xs) =>
      forall x | x in CanonItems(xs)
        ensures KeysInOrder(x)
      {
        var i :| 0 <= i < |xs| && CanonItems(xs)[i] == x;
        ItemAt(xs, i);
        CanonInOrder(xs[i]);
      }
    case Obj(fs) =>
      var sorted := SortUnique(CanonFields(fs), KEY);
      SortUniqueIs(CanonFields(fs), KEY);
      AscendingKeys(sorted);
      forall f | f in sorted
        ensures KeysInOrder(f.value)
      {
        var i :| 0 <= i < |fs| && CanonFields(fs)[i] == f;
        FieldAt(fs, i);
        CanonInOrder(fs[i].value);
      }
    case _ =>
  }

  lemma {:induction false} ItemsTwice(xs: seq<Json>)
    requires forall x :: x in xs ==> Canon(x) == x
    ensures CanonItems(xs) == xs
  {
    if xs != [] {
      assert xs == [xs[0]] + xs[1..];
      ItemsTwice(xs[1..]);
    }
  }

  lemma {:induction false} FieldsTwice(fs: seq<Field>)
    requires forall f :: f in fs ==> Canon(f.value) == f.value
    ensures CanonFields(fs) == fs
  {
    if fs != [] {
      assert fs == [fs[0]] + fs[1..];
      FieldsTwice(fs[1..]);
    }
  }

  lemma {:induction false} CanonTwice(v: Json)
    ensures Canon(Canon(v)) == Canon(v)
    decreases v
  {
    match v
    case Arr(xs) =>
      forall x | x in CanonItems(xs)
        ensures Canon(x) == x
      {
        var i :| 0 <= i < |xs| && CanonItems(xs)[i] == x;
        ItemAt(xs, i);
        CanonTwice(xs[i]);
      }
      ItemsTwice(CanonItems(xs));
    case Obj(fs) =>
      var sorted := SortUnique(CanonFields(fs), KEY);
      SortUniqueIs(CanonFields(fs), KEY);
      forall f | f in sorted
        ensures Canon(f.value) == f.value
      {
        var i :| 0 <= i < |fs| && CanonFields(fs)[i] == f;
        FieldAt(fs, i);
        CanonTwice(fs[i].value);
      }
      FieldsTwice(sorted);
      SortUniqueAgain(sorted, KEY);
    case _ =>
  }

  /** The canonical text is JSON: reading it gives the value it was made of, up to the order of keys, which
      it puts in order. */
  lemma StableJsonReads(v: Json) returns (w: Json)
    requires WellFormed(v)
    ensures ReadValue(StableJson(v)) == Got(w, "") && Same(v, w) && KeysInOrder(w)
  {
    w := Canon(v);
    CanonWellFormed(v);
    assert Print(w) + "" == Print(w);
    ValueBack(w, "");
    CanonInOrder(v);
    CanonTwice(v);
    SameCanon(v, w);
  }
}
