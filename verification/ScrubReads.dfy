/** What the re-read of a batch demands of each row, told from the row
    (scripts/source-layer/scrub.ts:335-367, scripts/source-layer/privacy-inventory.ts:15-24, 38-43, 87-117). */
module ScrubReads {
  import opened OrderedMap
  import opened JsonValues
  import opened ScrubValues
  import opened ScrubRecords
  import opened ScrubRows
  import opened ScrubMeaning

  // ---------------------------------------------------------------- strings of a value

  lemma {:induction false} StringsAre(v: Json, s: string)
    ensures s in Strings(v) ==> exists ways: seq<Way> :: Reaches(v, ways, Str(s))
    decreases v
  {
    match v
    case Str(t) =>
      if s in Strings(v) {
        assert Reaches(v, [], Str(s));
      }
    case Arr(xs) =>
      if s in Strings(v) {
        var x := OfItems(xs, s);
        StringsAre(x, s);
        var ways: seq<Way> :| Reaches(x, ways, Str(s));
        assert ([Item] + ways)[1..] == ways && Reaches(v, [Item] + ways, Str(s));
      }
    case Obj(fs) =>
      if s in Strings(v) {
        var f := OfFields(fs, s);
        StringsAre(f.value, s);
        var ways: seq<Way> :| Reaches(f.value, ways, Str(s));
        assert ([Key(f.key)] + ways)[1..] == ways && Reaches(v, [Key(f.key)] + ways, Str(s));
      }
    case _ =>
  }

  lemma {:induction false} OfItems(xs: seq<Json>, s: string) returns (x: Json)
    requires s in StringsOf(xs)
    ensures x in xs && s in Strings(x)
  {
    assert xs == [xs[0]] + xs[1..];
    if s in Strings(xs[0]) {
      x := xs[0];
    } else {
      x := OfItems(xs[1..], s);
    }
  }

  lemma {:induction false} OfFields(fs: seq<Field>, s: string) returns (f: Field)
    requires s in StringsIn(fs)
    ensures f in fs && s in Strings(f.value)
  {
    assert fs == [fs[0]] + fs[1..];
    if s in Strings(fs[0].value) {
      f := fs[0];
    } else {
      f := OfFields(fs[1..], s);
    }
  }

  lemma {:induction false} ReachedIsString(v: Json, ways: seq<Way>, s: string)
    requires Reaches(v, ways, Str(s))
    ensures s in Strings(v)
    decreases |ways|
  {
    if ways != [] {
      match ways[0]
      case Key(name) =>
        var f :| f in v.fields && f.key == name && Reaches(f.value, ways[1..], Str(s));
        ReachedIsString(f.value, ways[1..], s);
        InFields(v.fields, f, s);
      case Item =>
        var x :| x in v.items && Reaches(x, ways[1..], Str(s));
        ReachedIsString(x, ways[1..], s);
        InItems(v.items, x, s);
    }
  }

  lemma {:induction false} InItems(xs: seq<Json>, x: Json, s: string)
    requires x in xs && s in Strings(x)
    ensures s in StringsOf(xs)
  {
    assert xs == [xs[0]] + xs[1..];
    if x != xs[0] {
      InItems(xs[1..], x, s);
    }
  }

  lemma {:induction false} InFields(fs: seq<Field>, f: Field, s: string)
    requires f in fs && s in Strings(f.value)
    ensures s in StringsIn(fs)
  {
    assert fs == [fs[0]] + fs[1..];
    if f != fs[0] {
      InFields(fs[1..], f, s);
    }
  }

  /** Every string anywhere in the value is its own redaction. */
  ghost predicate Redacted(env: Env, v: Json) {
    forall ways: seq<Way>, s: string :: Reaches(v, ways, Str(s)) ==> env.redactFact(s) == Some(s)
  }

  lemma RedactedIs(env: Env, v: Json)
    ensures AllFixed(env, Strings(v)) <==> Redacted(env, v)
  {
    hide Strings, Reaches;
    if AllFixed(env, Strings(v)) {
      forall ways: seq<Way>, s: string | Reaches(v, ways, Str(s))
        ensures env.redactFact(s) == Some(s)
      {
        ReachedIsString(v, ways, s);
      }
    }
    if Redacted(env, v) {
      forall s | s in Strings(v)
        ensures Fixed(env.redactFact, s)
      {
        StringsAre(v, s);
      }
    }
  }

  // ---------------------------------------------------------------- the re-read

  /** The field is absent or null, or all its strings are redacted. */
  ghost predicate Clear(env: Env, o: Option<Json>) {
    Missing(o) || Redacted(env, o.value)
  }

  lemma PlainIs(env: Env, o: Option<Json>)
    ensures Plain(env, o) <==> Clear(env, o)
  {
    hide Strings, Redacted;
    if o.Some? {
      RedactedIs(env, o.value);
    }
  }

  lemma FieldIs(env: Env, payload: Json, key: string)
    ensures FieldClean(env, payload, key) <==> Clear(env, Get(payload, key))
  {
    hide Redacted;
    if Get(payload, key).Some? {
      RedactedIs(env, Get(payload, key).value);
    }
  }

  ghost predicate PayloadReads(env: Env, payload: Json) {
    && Missing(Get(payload, "raw_source_text"))
    && Clear(env, Get(payload, "rawSpan")) && Clear(env, Get(payload, "rawSpans"))
    && Clear(env, Get(payload, "l0")) && Clear(env, Get(payload, "l1")) && Clear(env, Get(payload, "l2"))
  }

  lemma PayloadIs(env: Env, payload: Json)
    ensures PayloadClean(env, payload) <==> PayloadReads(env, payload)
  {
    hide FieldClean, Clear;
    FieldIs(env, payload, "rawSpan");
    FieldIs(env, payload, "rawSpans");
    FieldIs(env, payload, "l0");
    FieldIs(env, payload, "l1");
    FieldIs(env, payload, "l2");
    assert INSPECTED[0] == "rawSpan" && INSPECTED[1] == "rawSpans" && INSPECTED[2] == "l0" && INSPECTED[3] == "l1" && INSPECTED[4] == "l2";
  }

  function Below(o: Option<Json>, key: string): Option<Json> {
    if o.Some? && o.value.Obj? then GetField(o.value.fields, key) else None
  }

  ghost predicate NoemaReads(env: Env, r: Record)
    requires r.NoemaRow?
  {
    var c, claims := r.canonical, Below(r.canonical, "stableClaim");
    && Clear(env, r.text) && Clear(env, r.factKey) && Clear(env, r.factKeySeed)
    && Clear(env, Below(c, "text")) && Clear(env, Below(c, "l0")) && Clear(env, Below(c, "l1")) && Clear(env, Below(c, "factKey"))
    && Clear(env, Below(claims, "subject")) && Clear(env, Below(claims, "predicate")) && Clear(env, Below(claims, "value"))
    && Clear(env, Below(r.claim, "subject")) && Clear(env, Below(r.claim, "predicate")) && Clear(env, Below(r.claim, "value"))
    && Clear(env, Below(r.body, "l0")) && Clear(env, Below(r.body, "l1")) && Clear(env, Below(r.body, "l2"))
  }

  lemma KeyPlain(env: Env, o: Option<Json>, key: string)
    ensures Plain(env, At(o, key)) <==> Clear(env, Below(o, key))
  {
    hide Plain, Clear;
    PlainIs(env, At(o, key));
  }

  lemma CanonicalPlain(env: Env, o: Option<Json>)
    ensures (forall k :: k in CANONICAL_KEYS ==> Plain(env, At(o, k))) <==>
      Clear(env, Below(o, "text")) && Clear(env, Below(o, "l0")) && Clear(env, Below(o, "l1")) && Clear(env, Below(o, "factKey"))
  {
    hide Plain, Clear, At, Below;
    KeyPlain(env, o, "text");
    KeyPlain(env, o, "l0");
    KeyPlain(env, o, "l1");
    KeyPlain(env, o, "factKey");
    assert CANONICAL_KEYS[0] == "text" && CANONICAL_KEYS[1] == "l0" && CANONICAL_KEYS[2] == "l1" && CANONICAL_KEYS[3] == "factKey";
  }

  lemma ClaimPlain(env: Env, o: Option<Json>)
    ensures (forall k :: k in CLAIM_KEYS ==> Plain(env, At(o, k))) <==>
      Clear(env, Below(o, "subject")) && Clear(env, Below(o, "predicate")) && Clear(env, Below(o, "value"))
  {
    hide Plain, Clear, At, Below;
    KeyPlain(env, o, "subject");
    KeyPlain(env, o, "predicate");
    KeyPlain(env, o, "value");
    assert CLAIM_KEYS[0] == "subject" && CLAIM_KEYS[1] == "predicate" && CLAIM_KEYS[2] == "value";
  }

  lemma BodyPlain(env: Env, o: Option<Json>)
    ensures (forall k :: k in BODY_KEYS ==> Plain(env, At(o, k))) <==>
      Clear(env, Below(o, "l0")) && Clear(env, Below(o, "l1")) && Clear(env, Below(o, "l2"))
  {
    hide Plain, Clear, At, Below;
    KeyPlain(env, o, "l0");
    KeyPlain(env, o, "l1");
    KeyPlain(env, o, "l2");
    assert BODY_KEYS[0] == "l0" && BODY_KEYS[1] == "l1" && BODY_KEYS[2] == "l2";
  }

  lemma NoemaIs(env: Env, r: Record)
    requires r.NoemaRow?
    ensures Inspected(env, r) <==> NoemaReads(env, r)
  {
    hide Plain, Clear;
    PlainIs(env, r.text);
    PlainIs(env, r.factKey);
    PlainIs(env, r.factKeySeed);
    CanonicalPlain(env, r.canonical);
    ClaimPlain(env, At(r.canonical, "stableClaim"));
    ClaimPlain(env, r.claim);
    BodyPlain(env, r.body);
    assert At(r.canonical, "stableClaim") == Below(r.canonical, "stableClaim");
    InspectedParts(env, r);
  }

  lemma InspectedParts(env: Env, r: Record)
    requires r.NoemaRow?
    ensures Inspected(env, r) <==>
      && Plain(env, r.text) && Plain(env, r.factKey) && Plain(env, r.factKeySeed)
      && (forall k :: k in CANONICAL_KEYS ==> Plain(env, At(r.canonical, k)))
      && (forall k :: k in CLAIM_KEYS ==> Plain(env, At(At(r.canonical, "stableClaim"), k)))
      && (forall k :: k in CLAIM_KEYS ==> Plain(env, At(r.claim, k)))
      && (forall k :: k in BODY_KEYS ==> Plain(env, At(r.body, k)))
  {
    hide Plain, At;
  }

  /** A trace is emptied, and what it keeps is what scrubbing keeps. */
  ghost predicate TraceReads(env: Env, r: Record)
    requires r.TraceRow?
  {
    && Textless(r.prompt) && Textless(r.answer) && Missing(r.prepend)
    && ColumnReads(env, r.receipt) && ColumnReads(env, r.synthesis)
  }

  ghost predicate ColumnReads(env: Env, o: Option<Json>) {
    Missing(o) || (Redacted(env, o.value) && TraceValue(env, o.value) == Some(o))
  }

  lemma ChangesIs(env: Env, o: Option<Json>, cleaned: Option<Json>)
    ensures Changes(env, o, cleaned) <==> !(Missing(o) || (Redacted(env, o.value) && cleaned == o))
  {
    hide Redacted, Strings;
    if o.Some? {
      RedactedIs(env, o.value);
    }
  }

  lemma EmptyReads(env: Env, o: Option<Json>)
    requires env.redactFact("") == Some("")
    ensures Changes(env, o, Some(Str(""))) <==> !Textless(o)
    ensures Changes(env, o, None) <==> !Missing(o)
  {
  }

  lemma TraceIs(env: Env, r: Record)
    requires env.Valid() && r.TraceRow?
    ensures Inspected(env, r) <==> TraceReads(env, r)
  {
    hide Redacted, TraceValue, Changes;
    EmptyReads(env, r.prompt);
    EmptyReads(env, r.answer);
    EmptyReads(env, r.prepend);
    if TraceField(env, r.receipt).Some? {
      ChangesIs(env, r.receipt, TraceField(env, r.receipt).value);
    }
    if TraceField(env, r.synthesis).Some? {
      ChangesIs(env, r.synthesis, TraceField(env, r.synthesis).value);
    }
  }

  ghost predicate RecordReads(env: Env, r: Record) {
    match r
    case NoemaRow(_, _, _, _, _, _, _, _) => NoemaReads(env, r)
    case RejectionRow(o) => Clear(env, o)
    case TraceRow(_, _, _, _, _) => TraceReads(env, r)
  }

  /** A legacy link names an emptied turn with its hmac and key. */
  ghost predicate LinkReads(db: Db, link: Option<Link>) {
    link.Some? && link.value.state == "legacy" ==>
      exists t :: t in db.turns && t == link.value.turnId
        && db.turns[t].content == "" && db.turns[t].hmac == link.value.hmac && db.turns[t].fingerprint == link.value.fingerprint
  }

  ghost predicate Reads(env: Env, db: Db, t: Table, id: string) {
    match t
    case Semiote => id in db.semiote ==> PayloadReads(env, db.semiote[id].payload) && LinkReads(db, db.semiote[id].link)
    case Memories => id in db.memories ==>
      var payload := db.memories[id].payload;
      PayloadReads(env, payload) && (payload != Null ==> Redacted(env, payload) && Redacts(env, "payload", payload, Some(payload)))
    case SessionTurnChunk => id in db.chunks ==>
      env.redactSource(db.chunks[id].content) == Some(db.chunks[id].content) && db.chunks[id].norm == env.lower(db.chunks[id].content)
    case SessionTurn => id in db.turns ==> db.turns[id].content == ""
    case SourceTurnEvidence => true
    case _ => (t, id) in db.records ==> RecordReads(env, db.records[(t, id)])
  }

  lemma RecordIs(env: Env, r: Record)
    requires env.Valid()
    ensures Inspected(env, r) <==> RecordReads(env, r)
  {
    hide Plain, Clear, NoemaReads, TraceReads;
    match r
    case NoemaRow(_, _, _, _, _, _, _, _) => NoemaIs(env, r);
    case RejectionRow(o) => PlainIs(env, o);
    case TraceRow(_, _, _, _, _) => TraceIs(env, r);
  }

  // ---------------------------------------------------------------- one redaction

  /** A value has one redaction. */
  lemma {:induction false} OneRedaction(env: Env, field: string, v: Json, a: Option<Json>, b: Option<Json>)
    requires Redacts(env, field, v, a) && Redacts(env, field, v, b)
    ensures a == b
    decreases v, 1
  {
    if !LeftAlone(field) && field != "payload.raw_source_text" {
      match v
      case Arr(xs) =>
        var us: seq<Option<Json>> :| ItemsRedact(env, field, xs, us) && a == Some(Arr(Present(us)));
        var ws: seq<Option<Json>> :| ItemsRedact(env, field, xs, ws) && b == Some(Arr(Present(ws)));
        OneItems(env, field, xs, us, ws);
      case Obj(fs) =>
        var us: seq<Option<Field>> :| FieldsRedact(env, field, fs, us) && a == ObjectOf(field, Present(us));
        var ws: seq<Option<Field>> :| FieldsRedact(env, field, fs, ws) && b == ObjectOf(field, Present(ws));
        OneFields(env, field, fs, us, ws);
      case _ =>
    }
  }

  lemma {:induction false} OneItems(env: Env, field: string, xs: seq<Json>, us: seq<Option<Json>>, ws: seq<Option<Json>>)
    requires ItemsRedact(env, field, xs, us) && ItemsRedact(env, field, xs, ws)
    ensures us == ws
    decreases xs, 0
  {
    forall i | 0 <= i < |xs|
      ensures us[i] == ws[i]
    {
      OneRedaction(env, field, xs[i], us[i], ws[i]);
    }
  }

  lemma {:induction false} OneFields(env: Env, field: string, fs: seq<Field>, us: seq<Option<Field>>, ws: seq<Option<Field>>)
    requires FieldsRedact(env, field, fs, us) && FieldsRedact(env, field, fs, ws)
    ensures us == ws
    decreases fs, 0
  {
    forall i | 0 <= i < |fs|
      ensures us[i] == ws[i]
    {
      assert FieldRedacts(env, field, fs[i], us[i]) && FieldRedacts(env, field, fs[i], ws[i]);
      if fs[i].key != "raw_source_text" {
        OneRedaction(env, field + "." + fs[i].key, fs[i].value,
                     if us[i].Some? then Some(us[i].value.value) else None, if ws[i].Some? then Some(ws[i].value.value) else None);
      }
    }
  }

  lemma MemoryIs(env: Env, payload: Json)
    ensures MemoryClean(env, payload) <==>
      PayloadReads(env, payload) && (payload != Null ==> Redacted(env, payload) && Redacts(env, "payload", payload, Some(payload)))
  {
    hide PayloadClean, PayloadReads, Redacts, Redacted, Scrub;
    PayloadIs(env, payload);
    RedactedIs(env, payload);
    ScrubRedacts(env, "payload", payload);
    if Redacts(env, "payload", payload, Some(payload)) {
      OneRedaction(env, "payload", payload, Scrub(env, "payload", payload), Some(payload));
    }
  }

  /** A row passes the re-read exactly when its inspected fields hold no string that redaction would change, no
      raw text is left, a memory and a trace are what scrubbing makes of them, a chunk's norm follows its text,
      a turn has no header, and a legacy link names its emptied turn. */
  lemma VerifiedReads(env: Env, db: Db, t: Table, id: string)
    requires env.Valid()
    ensures Verified(env, db, t, id) <==> Reads(env, db, t, id)
  {
    hide PayloadClean, PayloadReads, MemoryClean, Inspected, RecordReads, Redacts, Redacted;
    match t
    case Semiote =>
      if id in db.semiote {
        PayloadIs(env, db.semiote[id].payload);
      }
    case Memories =>
      if id in db.memories {
        MemoryIs(env, db.memories[id].payload);
      }
    case SessionTurnChunk =>
    case SessionTurn =>
    case SourceTurnEvidence =>
    case _ =>
      if (t, id) in db.records {
        RecordIs(env, db.records[(t, id)]);
      }
  }
}
