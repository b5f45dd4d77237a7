/** What a scrubbed value has to do with the value it was: string by string, key by key and item by
    item (scripts/source-layer/privacy-inventory.ts:44-82, scripts/source-layer/scrub.ts:106-115, 226-271). */
module ScrubMeaning {
  import opened OrderedMap
  import opened JsonValues
  import opened ScrubValues
  import opened ScrubRecords

  // ---------------------------------------------------------------- what remains of a list

  /** The values that are there, in order. */
  function Present<T>(ws: seq<Option<T>>): seq<T> {
    if ws == [] then [] else (if ws[0].Some? then [ws[0].value] else []) + Present(ws[1..])
  }

  lemma PresentCons<T>(w: Option<T>, ws: seq<Option<T>>)
    ensures Present([w] + ws) == (if w.Some? then [w.value] else []) + Present(ws)
  {
    assert ([w] + ws)[1..] == ws;
  }

  // ---------------------------------------------------------------- fact tables

  /** The field path of a scrub is that of embeddings and norms, which are left alone. */
  predicate LeftAlone(field: string) {
    field == "embedding" || EndsWith(field, ".embedding") || EndsWith(field, "_norm")
  }

  /** `w` is what remains of `v` at this field path: derived fields are left alone and the raw source
      text goes; a string is redacted, and goes if that throws; of an array and an object
      what remains of each part stays in place, and an object goes if it is an emptied span;
      everything else stays. */
  ghost predicate Redacts(env: Env, field: string, v: Json, w: Option<Json>)
    decreases v
  {
    if LeftAlone(field) then w == Some(v)
    else if field == "payload.raw_source_text" then w == None
    else
      match v
      case Str(s) => (if env.redactFact(s).Some? then w == Some(Str(env.redactFact(s).value)) else w == None)
      case Arr(xs) => (exists ws: seq<Option<Json>> :: ItemsRedact(env, field, xs, ws) && w == Some(Arr(Present(ws))))
      case Obj(fs) => (exists ws: seq<Option<Field>> :: FieldsRedact(env, field, fs, ws) && w == ObjectOf(field, Present(ws)))
      case _ => w == Some(v)
  }

  function ObjectOf(field: string, fs: seq<Field>): Option<Json> {
    if fs == [] && (EndsWith(field, "rawSpan") || EndsWith(field, "rawSpans")) then None else Some(Obj(fs))
  }

  ghost predicate ItemsRedact(env: Env, field: string, xs: seq<Json>, ws: seq<Option<Json>>)
    decreases xs
  {
    |ws| == |xs| && forall i :: 0 <= i < |xs| ==> Redacts(env, field, xs[i], ws[i])
  }

  ghost predicate FieldsRedact(env: Env, field: string, fs: seq<Field>, ws: seq<Option<Field>>)
    decreases fs
  {
    |ws| == |fs| && forall i :: 0 <= i < |fs| ==> FieldRedacts(env, field, fs[i], ws[i])
  }

  ghost predicate FieldRedacts(env: Env, field: string, f: Field, w: Option<Field>)
    decreases f
  {
    if f.key == "raw_source_text" then w == None
    else
      && (w.Some? ==> w.value.key == f.key)
      && Redacts(env, field + "." + f.key, f.value, if w.Some? then Some(w.value.value) else None)
  }

  /** Scrubbing leaves exactly that. */
  lemma {:induction false} ScrubRedacts(env: Env, field: string, v: Json)
    ensures Redacts(env, field, v, Scrub(env, field, v))
    decreases v
  {
    if !Derived(field) && field != "payload.raw_source_text" {
      match v
      case Arr(xs) =>
        var ws := ItemsRedacted(env, field, xs);
        assert ItemsRedact(env, field, xs, ws) && Scrub(env, field, v) == Some(Arr(Present(ws)));
      case Obj(fs) =>
        var ws := FieldsRedacted(env, field, fs);
        assert FieldsRedact(env, field, fs, ws) && ScrubFields(env, field, fs) == Present(ws);
      case _ =>
    }
  }

  lemma {:induction false} ItemsRedacted(env: Env, field: string, xs: seq<Json>) returns (ws: seq<Option<Json>>)
    ensures ItemsRedact(env, field, xs, ws) && ScrubItems(env, field, xs) == Present(ws)
    decreases xs
  {
    ws := [];
    if xs != [] {
      ScrubRedacts(env, field, xs[0]);
      var rest := ItemsRedacted(env, field, xs[1..]);
      ws := [Scrub(env, field, xs[0])] + rest;
      PresentCons(Scrub(env, field, xs[0]), rest);
      forall i | 0 <= i < |xs|
        ensures Redacts(env, field, xs[i], ws[i])
      {
        assert i == 0 || (xs[i] == xs[1..][i - 1] && ws[i] == rest[i - 1]);
      }
    }
  }

  lemma {:induction false} FieldsRedacted(env: Env, field: string, fs: seq<Field>) returns (ws: seq<Option<Field>>)
    ensures FieldsRedact(env, field, fs, ws) && ScrubFields(env, field, fs) == Present(ws)
    decreases fs
  {
    ws := [];
    if fs != [] {
      var key, part := fs[0].key, Scrub(env, field + "." + fs[0].key, fs[0].value);
      ScrubRedacts(env, field + "." + key, fs[0].value);
      var rest := FieldsRedacted(env, field, fs[1..]);
      var first := if key != "raw_source_text" && part.Some? then Some(Field(key, part.value)) else None;
      ws := [first] + rest;
      PresentCons(first, rest);
      assert FieldRedacts(env, field, fs[0], first);
      forall i | 0 <= i < |fs|
        ensures FieldRedacts(env, field, fs[i], ws[i])
      {
        assert i == 0 || (fs[i] == fs[1..][i - 1] && ws[i] == rest[i - 1]);
      }
    }
  }

  // ---------------------------------------------------------------- any string of a value

  /** A way into a value: by a key of an object, or to some item of an array. */
  datatype Way = Key(name: string) | Item

  ghost predicate Reaches(v: Json, ways: seq<Way>, x: Json)
    decreases |ways|
  {
    if ways == [] then v == x
    else
      match ways[0]
      case Key(name) => v.Obj? && exists f :: f in v.fields && f.key == name && Reaches(f.value, ways[1..], x)
      case Item => v.Arr? && exists y :: y in v.items && Reaches(y, ways[1..], x)
  }

  /** No key on the way is dropped or derived. */
  predicate Open(field: string, ways: seq<Way>)
    decreases |ways|
  {
    && !LeftAlone(field) && field != "payload.raw_source_text"
    && (ways == [] ||
        match ways[0]
        case Key(name) => name != "raw_source_text" && Open(field + "." + name, ways[1..])
        case Item => Open(field, ways[1..]))
  }

  lemma {:induction false} PresentIn<T>(ws: seq<Option<T>>, i: nat)
    requires i < |ws| && ws[i].Some?
    ensures ws[i].value in Present(ws)
  {
    if i > 0 {
      PresentIn(ws[1..], i - 1);
    }
  }

  /** Wherever a string stands in a value, its redaction stands there in the scrubbed value, and
      every number, boolean and null stays where it is. */
  lemma {:induction false} EveryLeaf(env: Env, field: string, v: Json, ways: seq<Way>, x: Json, y: Json)
    requires Reaches(v, ways, x) && Open(field, ways)
    requires match x
      case Str(s) => env.redactFact(s).Some? && y == Str(env.redactFact(s).value)
      case Arr(_) => false
      case Obj(_) => false
      case _ => y == x
    ensures var r := Scrub(env, field, v); r.Some? && Reaches(r.value, ways, y)
    decreases |ways|
  {
    if ways != [] {
      match ways[0]
      case Key(name) =>
        var f :| f in v.fields && f.key == name && Reaches(f.value, ways[1..], x);
        EveryLeaf(env, field + "." + name, f.value, ways[1..], x, y);
        ScrubbedField(env, field, v.fields, f);
      case Item =>
        var e :| e in v.items && Reaches(e, ways[1..], x);
        EveryLeaf(env, field, e, ways[1..], x, y);
        ScrubbedItem(env, field, v.items, e);
    }
  }

  lemma {:induction false} ScrubbedField(env: Env, field: string, fs: seq<Field>, f: Field)
    requires f in fs && f.key != "raw_source_text" && Scrub(env, field + "." + f.key, f.value).Some?
    ensures Field(f.key, Scrub(env, field + "." + f.key, f.value).value) in ScrubFields(env, field, fs)
    decreases |fs|
  {
    if fs[0] != f {
      ScrubbedField(env, field, fs[1..], f);
    }
  }

  lemma {:induction false} ScrubbedItem(env: Env, field: string, xs: seq<Json>, x: Json)
    requires x in xs && Scrub(env, field, x).Some?
    ensures Scrub(env, field, x).value in ScrubItems(env, field, xs)
    decreases |xs|
  {
    if xs[0] != x {
      ScrubbedItem(env, field, xs[1..], x);
    }
  }

  // ---------------------------------------------------------------- retrieval_trace

  /** scrubTraceValue: a string is redacted, a list is taken item by item, of an object only the known
      keys stay, with their values as they are, and null is nothing. Some(None) is nothing. */
  ghost predicate TraceRedacts(env: Env, v: Json, w: Option<Option<Json>>)
    decreases v
  {
    match v
    case Null => w == Some(None)
    case Str(s) => w == (if env.redactFact(s).Some? then Some(Some(Str(env.redactFact(s).value))) else None)
    case Arr(xs) => (exists ws: seq<Option<Option<Json>>> :: ListRedacts(env, xs, ws) && w == ListOf(ws))
    case Obj(fs) => (exists gs: seq<Field> :: w == Some(Some(Obj(gs))) && KnownOnly(fs, gs))
    case _ => w == Some(Some(v))
  }

  ghost predicate ListRedacts(env: Env, xs: seq<Json>, ws: seq<Option<Option<Json>>>)
    decreases xs
  {
    |ws| == |xs| && forall i :: 0 <= i < |xs| ==> TraceRedacts(env, xs[i], ws[i])
  }

  predicate Throws(ws: seq<Option<Option<Json>>>) {
    exists i :: 0 <= i < |ws| && ws[i] == None
  }

  function ListOf(ws: seq<Option<Option<Json>>>): Option<Option<Json>> {
    if Throws(ws) then None else Some(Some(Arr(OrNull(ws))))
  }

  function OrNull(ws: seq<Option<Option<Json>>>): seq<Json> {
    seq(|ws|, i requires 0 <= i < |ws| => match ws[i] case Some(Some(x)) => x case _ => Null)
  }

  /** `gs` are the fields of `fs` with a known key, in order. */
  ghost predicate KnownOnly(fs: seq<Field>, gs: seq<Field>) {
    gs == Present(seq(|fs|, i requires 0 <= i < |fs| => if KnownKey(fs[i].key) then Some(fs[i]) else None))
  }

  predicate KnownKey(key: string) {
    || key == "retrievalTraceId" || key == "sessionId" || key == "memoryIds" || key == "traceId" || key == "model"
    || key == "questionLength" || key == "answerLength" || key == "redactionVersion" || key == "receivedAt" || key == "client"
  }

  lemma {:induction false} MetaKnown(fs: seq<Field>)
    ensures KnownOnly(fs, Meta(fs))
  {
    var ws := seq(|fs|, i requires 0 <= i < |fs| => if KnownKey(fs[i].key) then Some(fs[i]) else None);
    if fs != [] {
      var rest := fs[1..];
      MetaKnown(rest);
      var more := seq(|rest|, i requires 0 <= i < |rest| => if KnownKey(rest[i].key) then Some(rest[i]) else None);
      assert ws == [ws[0]] + more;
      PresentCons(ws[0], more);
    }
  }

  lemma {:induction false} TraceIsRedacted(env: Env, v: Json)
    ensures TraceRedacts(env, v, TraceValue(env, v))
    decreases v
  {
    match v
    case Arr(xs) =>
      var ws := TraceItemsRedacted(env, xs);
      assert ListRedacts(env, xs, ws) && TraceValue(env, v) == ListOf(ws);
    case Obj(fs) => MetaKnown(fs);
    case _ =>
  }

  lemma {:induction false} TraceItemsRedacted(env: Env, xs: seq<Json>) returns (ws: seq<Option<Option<Json>>>)
    ensures ListRedacts(env, xs, ws)
    ensures TraceItems(env, xs) == if Throws(ws) then None else Some(OrNull(ws))
    decreases xs
  {
    ws := [];
    if xs == [] {
      assert OrNull(ws) == [];
    } else {
      var first := TraceValue(env, xs[0]);
      TraceIsRedacted(env, xs[0]);
      var rest := TraceItemsRedacted(env, xs[1..]);
      ws := [first] + rest;
      forall i | 0 <= i < |xs|
        ensures TraceRedacts(env, xs[i], ws[i])
      {
        assert i == 0 || (xs[i] == xs[1..][i - 1] && ws[i] == rest[i - 1]);
      }
      hide TraceRedacts;
      OneMoreItem(first, rest);
    }
  }

  lemma OneMoreItem(first: Option<Option<Json>>, rest: seq<Option<Option<Json>>>)
    ensures Throws([first] + rest) <==> first == None || Throws(rest)
    ensures first.Some? ==> OrNull([first] + rest) == [if first.value.Some? then first.value.value else Null] + OrNull(rest)
  {
    var ws := [first] + rest;
    if Throws(rest) {
      var i :| 0 <= i < |rest| && rest[i] == None;
      assert ws[i + 1] == None;
    }
    if first == None {
      assert ws[0] == None;
    }
  }

  // ---------------------------------------------------------------- noema

  /** Of the fields, those with one of the names are redacted if they are strings, and go if that
      throws; all others stay, in order. */
  ghost predicate NamedRedact(env: Env, fs: seq<Field>, names: set<string>, gs: seq<Field>) {
    gs == Present(seq(|fs|, i requires 0 <= i < |fs| => NamedField(env, fs[i], names)))
  }

  function NamedField(env: Env, f: Field, names: set<string>): Option<Field> {
    match f.value
    case Str(s) =>
      if f.key !in names then Some(f)
      else if env.redactFact(s).Some? then Some(Field(f.key, Str(env.redactFact(s).value))) else None
    case _ => Some(f)
  }

  lemma {:induction false} KeysRedact(env: Env, fs: seq<Field>, keys: seq<string>, names: set<string>)
    requires forall k :: k in keys <==> k in names
    ensures NamedRedact(env, fs, names, RedactKeys(env, fs, keys))
  {
    var ws := seq(|fs|, i requires 0 <= i < |fs| => NamedField(env, fs[i], names));
    if fs != [] {
      var rest := fs[1..];
      KeysRedact(env, rest, keys, names);
      var more := seq(|rest|, i requires 0 <= i < |rest| => NamedField(env, rest[i], names));
      assert ws == [ws[0]] + more;
      PresentCons(ws[0], more);
    }
  }

  /** A text column: redacted if it is a string, gone if that throws, else as it was. */
  ghost predicate TextRedacts(env: Env, o: Option<Json>, w: Option<Json>) {
    match o
    case Some(Str(s)) => w == (if env.redactFact(s).Some? then Some(Str(env.redactFact(s).value)) else None)
    case _ => w == o
  }

  /** An object column: its named string fields are redacted. A list is taken as an object of its items. */
  ghost predicate NamedIn(env: Env, v: Json, names: set<string>, w: Json) {
    match v
    case Obj(fs) => w.Obj? && NamedRedact(env, fs, names, w.fields)
    case Arr(xs) => w.Obj? && NamedRedact(env, Indexed(xs, 0), names, w.fields)
    case _ => w == v
  }

  const CLAIM_NAMES: set<string> := {"subject", "predicate", "value"}
  const CANONICAL_NAMES: set<string> := {"text", "l0", "l1", "factKey"}

  /** The canonical column: its own named fields, and those of its stable claim. */
  ghost predicate CanonicalRedacts(env: Env, o: Option<Json>, w: Option<Json>) {
    if o == None || !(o.value.Obj? || o.value.Arr?) then w == o
    else
      exists gs: seq<Field> :: NamedRedact(env, if o.value.Obj? then o.value.fields else Indexed(o.value.items, 0), CANONICAL_NAMES, gs)
        && w.Some? && w.value.Obj? && ClaimsRedact(env, gs, w.value.fields)
  }

  ghost predicate ClaimsRedact(env: Env, gs: seq<Field>, hs: seq<Field>) {
    && |hs| == |gs|
    && forall i :: 0 <= i < |gs| ==>
         if gs[i].key == "stableClaim" then hs[i].key == gs[i].key && NamedIn(env, gs[i].value, CLAIM_NAMES, hs[i].value)
         else hs[i] == gs[i]
  }

  lemma {:induction false} NestedRedact(env: Env, gs: seq<Field>)
    ensures ClaimsRedact(env, gs, CleanNested(env, gs))
  {
    if gs != [] {
      NestedRedact(env, gs[1..]);
      NamedCleaned(env, gs[0].value);
      var hs := CleanNested(env, gs);
      assert hs[1..] == CleanNested(env, gs[1..]);
      forall i | 0 <= i < |gs|
        ensures if gs[i].key == "stableClaim" then hs[i].key == gs[i].key && NamedIn(env, gs[i].value, CLAIM_NAMES, hs[i].value)
                else hs[i] == gs[i]
      {
        assert i == 0 || (gs[i] == gs[1..][i - 1] && hs[i] == hs[1..][i - 1]);
      }
    }
  }

  lemma NamedCleaned(env: Env, v: Json)
    ensures NamedIn(env, v, CLAIM_NAMES, CleanKeys(env, v, CLAIM_KEYS))
  {
    KeysRedact(env, Spread(v), CLAIM_KEYS, CLAIM_NAMES);
  }

  lemma CanonicalIsRedacted(env: Env, o: Option<Json>)
    ensures CanonicalRedacts(env, o, CleanCanonical(env, o))
  {
    hide NamedRedact, ClaimsRedact;
    if o.Some? && IsObject(o.value) {
      KeysRedact(env, Spread(o.value), CANONICAL_KEYS, CANONICAL_NAMES);
      NestedRedact(env, RedactKeys(env, Spread(o.value), CANONICAL_KEYS));
    }
  }

  /** A noema row: the shown text is redacted, norm and embedding follow it, and each other column is
      redacted on its own. */
  ghost predicate NoemaRedacts(env: Env, r: Record, n: Record)
    requires r.NoemaRow?
  {
    var text := if Missing(r.text) then "" else env.show(r.text.value);
    var redacted := env.redactFact(text);
    && n.NoemaRow?
    && (redacted == Some(text) ==> (n.text == r.text || n.text == Some(Str(text))) && n.norm == r.norm && n.embedding == r.embedding)
    && (redacted != Some(text) && redacted.Some? ==>
          n.text == Some(Str(redacted.value)) && n.norm == env.norm(redacted.value)
          && n.embedding == (if redacted.value == "" then None else env.embed(redacted.value)))
    && (redacted == None ==> n.text == None && n.norm == env.norm("") && n.embedding == None)
    && CanonicalRedacts(env, r.canonical, n.canonical)
    && (if r.claim == None then n.claim == None else n.claim.Some? && NamedIn(env, r.claim.value, CLAIM_NAMES, n.claim.value))
    && TextRedacts(env, r.factKey, n.factKey) && TextRedacts(env, r.factKeySeed, n.factKeySeed)
    && (if r.body.Some? && (r.body.value.Obj? || r.body.value.Arr?) then Redacts(env, "payload", r.body.value, n.body) else n.body == r.body)
  }

  lemma NoemaIsRedacted(env: Env, r: Record)
    requires env.Valid() && r.NoemaRow?
    ensures NoemaRedacts(env, r, CleanNoema(env, r))
  {
    hide CleanCanonical, CleanKeys, CanonicalRedacts, NamedIn, Redacts, Scrub;
    CanonicalIsRedacted(env, r.canonical);
    if r.claim.Some? {
      NamedCleaned(env, r.claim.value);
    }
    if r.body.Some? {
      ScrubRedacts(env, "payload", r.body.value);
    }
  }

  /** The row a pass leaves: a rejected text is scrubbed if the check would read something to redact,
      a trace loses its prompt, its answer and its context, and keeps what remains of the rest. */
  ghost predicate RecordRedacts(env: Env, r: Record, n: Record) {
    match r
    case NoemaRow(_, _, _, _, _, _, _, _) => NoemaRedacts(env, r, n)
    case RejectionRow(o) =>
      if Missing(o) || forall s :: s in Strings(o.value) ==> env.redactFact(s) == Some(s) then n == r
      else n.RejectionRow? && Redacts(env, "candidate_text", o.value, n.candidate)
    case TraceRow(_, _, _, receipt, synthesis) =>
      && n.TraceRow?
      && (n == r || (n.prompt == Some(Str("")) && n.answer == Some(Str("")) && n.prepend == None))
      && (n != r ==> ColumnRedacts(env, receipt, n.receipt) && ColumnRedacts(env, synthesis, n.synthesis))
      && (n == r ==> Textless(r.prompt) && Textless(r.answer) && Missing(r.prepend)
                     && (Missing(receipt) || ColumnRedacts(env, receipt, receipt))
                     && (Missing(synthesis) || ColumnRedacts(env, synthesis, synthesis)))
  }

  predicate Missing(o: Option<Json>) {
    o == None || o == Some(Null)
  }

  predicate Textless(o: Option<Json>) {
    Missing(o) || o == Some(Str(""))
  }

  ghost predicate ColumnRedacts(env: Env, o: Option<Json>, w: Option<Json>) {
    if Missing(o) then w == None else TraceRedacts(env, o.value, Some(w))
  }

  lemma RecordIsRedacted(env: Env, r: Record)
    requires env.Valid() && Clean(env, r).Some?
    ensures RecordRedacts(env, r, Clean(env, r).value)
  {
    hide CleanNoema, NoemaRedacts, Scrub, Redacts, TraceValue, TraceRedacts;
    match r
    case NoemaRow(_, _, _, _, _, _, _, _) => NoemaIsRedacted(env, r);
    case RejectionRow(o) =>
      if !Plain(env, o) {
        ScrubRedacts(env, "candidate_text", o.value);
      }
    case TraceRow(_, _, _, receipt, synthesis) =>
      if receipt.Some? {
        TraceIsRedacted(env, receipt.value);
      }
      if synthesis.Some? {
        TraceIsRedacted(env, synthesis.value);
      }
  }

  // ---------------------------------------------------------------- keys of spread arrays

  function Numeral(s: string): int {
    if s == "" then 0 else Numeral(s[..|s| - 1]) * 10 + (s[|s| - 1] as int - '0' as int)
  }

  /** The digits of a number are its decimal numeral, without a leading zero. */
  lemma {:induction false} DigitsRead(n: nat)
    ensures Digits(n) != "" && Numeral(Digits(n)) == n && (n > 0 ==> Digits(n)[0] != '0')
    ensures forall c :: c in Digits(n) ==> '0' <= c <= '9'
  {
    var digits := ['0', '1', '2', '3', '4', '5', '6', '7', '8', '9'];
    var last := digits[n % 10];
    assert last as int == '0' as int + n % 10;
    var front := if n < 10 then "" else Digits(n / 10);
    assert Digits(n) == front + [last];
    assert (front + [last])[..|front|] == front;
    if n >= 10 {
      DigitsRead(n / 10);
    }
  }

  /** A spread array has its items under their places. */
  lemma {:induction false} IndexedAt(xs: seq<Json>, i: nat, k: nat)
    requires k < |xs|
    ensures |Indexed(xs, i)| == |xs| && Indexed(xs, i)[k] == Field(Digits(i + k), xs[k])
  {
    if k > 0 {
      IndexedAt(xs[1..], i + 1, k - 1);
    } else if |xs| > 1 {
      IndexedAt(xs[1..], i + 1, 0);
    }
  }
}
