/** When the re-read check rejects a row that was just scrubbed
    (scripts/source-layer/scrub.ts:338-367 against privacy-inventory.ts:53-117). */
module ScrubVerify {
  import opened OrderedMap
  import opened JsonValues
  import opened ScrubValues
  import opened ScrubRecords
  import opened ScrubRows
  import opened ScrubResume

  /** The strings of `v` that scrubbing skips because their key is a derived one. */
  function Skipped(field: string, v: Json): seq<string>
    decreases v
  {
    if Derived(field) then Strings(v)
    else
      match v
      case Arr(xs) => SkippedOf(field, xs)
      case Obj(fs) => SkippedIn(field, fs)
      case _ => []
  }

  function SkippedOf(field: string, xs: seq<Json>): seq<string>
    decreases xs
  {
    if xs == [] then [] else Skipped(field, xs[0]) + SkippedOf(field, xs[1..])
  }

  function SkippedIn(field: string, fs: seq<Field>): seq<string>
    decreases fs
  {
    if fs == [] then [] else Skipped(field + "." + fs[0].key, fs[0].value) + SkippedIn(field, fs[1..])
  }

  lemma FixedJoin(env: Env, a: seq<string>, b: seq<string>)
    ensures AllFixed(env, a + b) <==> AllFixed(env, a) && AllFixed(env, b)
  {
    forall s
      ensures s in a + b <==> s in a || s in b
    {
    }
  }

  lemma {:induction false} ItemsShorter(env: Env, field: string, xs: seq<Json>)
    ensures |ScrubItems(env, field, xs)| <= |xs|
    decreases xs
  {
    if xs != [] {
      ItemsShorter(env, field, xs[1..]);
    }
  }

  lemma {:induction false} FieldsShorter(env: Env, field: string, fs: seq<Field>)
    ensures |ScrubFields(env, field, fs)| <= |fs|
    decreases fs
  {
    if fs != [] {
      FieldsShorter(env, field, fs[1..]);
    }
  }

  /** In a scrubbed value every string is a fixed point except the skipped ones. */
  lemma {:induction false} OnlySkipped(env: Env, field: string, v: Json)
    requires Scrub(env, field, v) == Some(v)
    ensures AllFixed(env, Strings(v)) <==> AllFixed(env, Skipped(field, v))
    decreases v
  {
    if !Derived(field) {
      match v
      case Arr(xs) => OnlySkippedOf(env, field, xs);
      case Obj(fs) => OnlySkippedIn(env, field, fs);
      case _ =>
    }
  }

  lemma {:induction false} OnlySkippedOf(env: Env, field: string, xs: seq<Json>)
    requires ScrubItems(env, field, xs) == xs
    ensures AllFixed(env, StringsOf(xs)) <==> AllFixed(env, SkippedOf(field, xs))
    decreases xs
  {
    if xs != [] {
      var first, rest := xs[0], xs[1..];
      ItemsShorter(env, field, rest);
      assert ScrubItems(env, field, xs)[0] == first && ScrubItems(env, field, xs)[1..] == rest;
      OnlySkipped(env, field, first);
      OnlySkippedOf(env, field, rest);
      FixedJoin(env, Strings(first), StringsOf(rest));
      FixedJoin(env, Skipped(field, first), SkippedOf(field, rest));
    }
  }

  lemma {:induction false} OnlySkippedIn(env: Env, field: string, fs: seq<Field>)
    requires ScrubFields(env, field, fs) == fs
    ensures AllFixed(env, StringsIn(fs)) <==> AllFixed(env, SkippedIn(field, fs))
    decreases fs
  {
    if fs != [] {
      var first, rest := fs[0], fs[1..];
      FieldsShorter(env, field, rest);
      assert ScrubFields(env, field, fs)[0] == first && ScrubFields(env, field, fs)[1..] == rest;
      OnlySkipped(env, field + "." + first.key, first.value);
      OnlySkippedIn(env, field, rest);
      FixedJoin(env, Strings(first.value), StringsIn(rest));
      FixedJoin(env, Skipped(field + "." + first.key, first.value), SkippedIn(field, rest));
    }
  }

  /** The strings the check reads below one payload key but the scrub does not touch. */
  function Hidden(payload: Json, key: string): seq<string> {
    match Get(payload, key)
    case None => []
    case Some(v) => Skipped("payload." + key, v)
  }

  lemma {:induction false} ScrubbedField(env: Env, fs: seq<Field>, key: string)
    requires ScrubFields(env, "payload", fs) == fs
    ensures GetField(fs, key).Some? ==> Scrub(env, "payload." + key, GetField(fs, key).value) == GetField(fs, key)
    decreases fs
  {
    if fs != [] {
      FieldsShorter(env, "payload", fs[1..]);
      assert ScrubFields(env, "payload", fs)[0] == fs[0] && ScrubFields(env, "payload", fs)[1..] == fs[1..];
      assert "payload" + "." + fs[0].key == "payload." + fs[0].key;
      ScrubbedField(env, fs[1..], key);
    }
  }

  /** A scrubbed semiote row passes the check iff its legacy link holds and no unredacted text
      sits below a derived key of an inspected field: otherwise the run stops here every time. */
  lemma SettledVerifies(env: Env, db: Db, id: string)
    requires env.Valid() && id in db.semiote && Settled(env, db, Semiote, id)
    ensures var row := db.semiote[id];
      Verified(env, db, Semiote, id)
      <==> LinkHolds(db, row.link) && forall key :: key in INSPECTED ==> AllFixed(env, Hidden(row.payload, key))
  {
    hide LinkHolds;
    var payload := db.semiote[id].payload;
    PayloadField();
    FactPayloadAgain(env, payload);
    ScrubAgain(env, "payload", payload);
    assert Scrub(env, "payload", payload) == Some(payload);
    forall key | key in INSPECTED
      ensures FieldClean(env, payload, key) <==> AllFixed(env, Hidden(payload, key))
    {
      ScrubbedField(env, payload.fields, key);
      if Get(payload, key).Some? {
        OnlySkipped(env, "payload." + key, Get(payload, key).value);
      }
    }
  }

  /** A scrubbed memory passes iff no unredacted text sits below a derived key anywhere in its
      payload, all of which is read. */
  lemma MemoryVerifies(env: Env, db: Db, id: string)
    requires env.Valid() && id in db.memories && Settled(env, db, Memories, id)
    ensures Verified(env, db, Memories, id) <==> AllFixed(env, Skipped("payload", db.memories[id].payload))
  {
    var payload := db.memories[id].payload;
    PayloadField();
    FactPayloadAgain(env, payload);
    assert Scrub(env, "payload", payload) == Some(payload) by {
      ScrubAgain(env, "payload", payload);
    }
    OnlySkipped(env, "payload", payload);
    if AllFixed(env, Strings(payload)) {
      forall key | key in INSPECTED
        ensures FieldClean(env, payload, key)
      {
        PartStrings(payload.fields, key);
      }
    }
  }

  lemma {:induction false} PartStrings(fs: seq<Field>, key: string)
    ensures GetField(fs, key).Some? ==> forall s :: s in Strings(GetField(fs, key).value) ==> s in StringsIn(fs)
    decreases fs
  {
    if fs != [] {
      PartStrings(fs[1..], key);
    }
  }

  // ---------------------------------------------------------------- the other tables

  /** The strings scrubTraceValue keeps as they are: those inside an object. */
  function KeptByTrace(v: Json): seq<string>
    decreases v
  {
    match v
    case Arr(xs) => KeptByItems(xs)
    case Obj(fs) => StringsIn(fs)
    case _ => []
  }

  function KeptByItems(xs: seq<Json>): seq<string>
    decreases xs
  {
    if xs == [] then [] else KeptByTrace(xs[0]) + KeptByItems(xs[1..])
  }

  lemma {:induction false} OnlyKept(env: Env, v: Json)
    requires env.Valid() && (TraceValue(env, v) == Some(Some(v)) || v == Null)
    ensures AllFixed(env, Strings(v)) <==> AllFixed(env, KeptByTrace(v))
    decreases v
  {
    match v
    case Arr(xs) => OnlyKeptItems(env, xs);
    case _ =>
  }

  lemma {:induction false} OnlyKeptItems(env: Env, xs: seq<Json>)
    requires env.Valid() && TraceItems(env, xs) == Some(xs)
    ensures AllFixed(env, StringsOf(xs)) <==> AllFixed(env, KeptByItems(xs))
    decreases xs
  {
    if xs != [] {
      var part, rest := TraceValue(env, xs[0]), TraceItems(env, xs[1..]);
      assert ([if part.value.Some? then part.value.value else Null] + rest.value)[1..] == rest.value;
      TraceAgain(env, xs[0]);
      OnlyKept(env, xs[0]);
      OnlyKeptItems(env, xs[1..]);
      FixedJoin(env, Strings(xs[0]), StringsOf(xs[1..]));
      FixedJoin(env, KeptByTrace(xs[0]), KeptByItems(xs[1..]));
    }
  }

  function KeptIn(o: Option<Json>): seq<string> {
    if o.Some? then KeptByTrace(o.value) else []
  }

  /** A scrubbed trace passes iff the values kept under known keys of its receipt and its
      synthesis hold no unredacted text. */
  lemma TraceVerifies(env: Env, r: Record)
    requires env.Valid() && r.TraceRow? && Clean(env, r) == Some(r)
    ensures Inspected(env, r) <==> AllFixed(env, KeptIn(r.receipt)) && AllFixed(env, KeptIn(r.synthesis))
  {
    TraceColumn(env, r.receipt, TraceField(env, r.receipt).value);
    TraceColumn(env, r.synthesis, TraceField(env, r.synthesis).value);
    assert Fixed(env.redactFact, "");
    assert Strings(Str("")) == [""];
  }

  lemma TraceColumn(env: Env, o: Option<Json>, cleaned: Option<Json>)
    requires env.Valid() && TraceField(env, o) == Some(cleaned) && (Absent(o) || cleaned == o)
    ensures Changes(env, o, cleaned) <==> !AllFixed(env, KeptIn(o))
  {
    if !Absent(o) {
      OnlyKept(env, o.value);
    }
  }

  lemma {:induction false} SkippedAmong(field: string, v: Json)
    ensures forall s :: s in Skipped(field, v) ==> s in Strings(v)
    decreases v
  {
    if !Derived(field) {
      match v
      case Arr(xs) => SkippedAmongItems(field, xs);
      case Obj(fs) => SkippedAmongFields(field, fs);
      case _ =>
    }
  }

  lemma {:induction false} SkippedAmongItems(field: string, xs: seq<Json>)
    ensures forall s :: s in SkippedOf(field, xs) ==> s in StringsOf(xs)
    decreases xs
  {
    if xs != [] {
      SkippedAmong(field, xs[0]);
      SkippedAmongItems(field, xs[1..]);
    }
  }

  lemma {:induction false} SkippedAmongFields(field: string, fs: seq<Field>)
    ensures forall s :: s in SkippedIn(field, fs) ==> s in StringsIn(fs)
    decreases fs
  {
    if fs != [] {
      SkippedAmong(field + "." + fs[0].key, fs[0].value);
      SkippedAmongFields(field, fs[1..]);
    }
  }

  /** A scrubbed rejection passes iff no unredacted text sits below a derived key. */
  lemma RejectionVerifies(env: Env, r: Record)
    requires env.Valid() && r.RejectionRow? && Clean(env, r) == Some(r)
    ensures Inspected(env, r) <==> Absent(r.candidate) || AllFixed(env, Skipped("candidate_text", r.candidate.value))
  {
    if !Absent(r.candidate) {
      SkippedAmong("candidate_text", r.candidate.value);
      if !Plain(env, r.candidate) {
        OnlySkipped(env, "candidate_text", r.candidate.value);
      }
    }
  }

  /** A value that is no string is read by the check but left alone by the scrub. */
  function Unread(o: Option<Json>): seq<string> {
    if o.Some? && !o.value.Str? then Strings(o.value) else []
  }

  lemma {:induction false} RedactedField(env: Env, fs: seq<Field>, keys: seq<string>, key: string)
    requires RedactKeys(env, fs, keys) == fs && key in keys
    ensures Plain(env, GetField(fs, key)) <==> AllFixed(env, Unread(GetField(fs, key)))
    decreases fs
  {
    if fs != [] {
      RedactedTail(env, fs, keys);
      RedactedField(env, fs[1..], keys, key);
    }
  }

  lemma CleanKeysField(env: Env, o: Option<Json>, keys: seq<string>, key: string)
    requires (o.Some? ==> CleanKeys(env, o.value, keys) == o.value) && key in keys
    ensures Plain(env, At(o, key)) <==> AllFixed(env, Unread(At(o, key)))
  {
    if o.Some? && o.value.Obj? {
      RedactedField(env, o.value.fields, keys, key);
    }
  }

  lemma CanonicalParts(env: Env, o: Option<Json>)
    requires env.Valid() && CleanCanonical(env, o) == o
    ensures o.Some? && IsObject(o.value) ==> o.value.Obj? && RedactKeys(env, o.value.fields, CANONICAL_KEYS) == o.value.fields
    ensures At(o, "stableClaim").Some? ==> CleanKeys(env, At(o, "stableClaim").value, CLAIM_KEYS) == At(o, "stableClaim").value
  {
    if o.Some? && IsObject(o.value) {
      var fs := RedactKeys(env, Spread(o.value), CANONICAL_KEYS);
      RedactKeysAgain(env, Spread(o.value), CANONICAL_KEYS);
      CleanNestedAgain(env, fs);
      NestedField(env, o.value.fields);
    }
  }

  lemma {:induction false} NestedField(env: Env, fs: seq<Field>)
    requires CleanNested(env, fs) == fs
    ensures var o := GetField(fs, "stableClaim"); o.Some? ==> CleanKeys(env, o.value, CLAIM_KEYS) == o.value
    decreases fs
  {
    if fs != [] {
      assert CleanNested(env, fs)[0] == fs[0] && CleanNested(env, fs)[1..] == fs[1..];
      NestedField(env, fs[1..]);
    }
  }

  lemma TextColumn(env: Env, o: Option<Json>)
    requires env.Valid() && CleanText(env, o) == o
    ensures Plain(env, o) <==> AllFixed(env, Unread(o))
  {
  }

  /** What a scrubbed noema row still shows the check unredacted. */
  ghost predicate NothingUnread(env: Env, r: Record)
    requires r.NoemaRow?
  {
    && AllFixed(env, Unread(r.text)) && AllFixed(env, Unread(r.factKey)) && AllFixed(env, Unread(r.factKeySeed))
    && (forall k :: k in CANONICAL_KEYS ==> AllFixed(env, Unread(At(r.canonical, k))))
    && (forall k :: k in CLAIM_KEYS ==> AllFixed(env, Unread(At(At(r.canonical, "stableClaim"), k))) && AllFixed(env, Unread(At(r.claim, k))))
    && (forall k :: k in BODY_KEYS ==> AllFixed(env, if r.body.Some? then Hidden(r.body.value, k) else []))
  }

  /** A scrubbed noema row passes iff the inspected columns and keys hold no unredacted text in a
      value that is no string, and none below a derived key of its payload. */
  lemma NoemaVerifies(env: Env, r: Record)
    requires env.Valid() && r.NoemaRow? && Clean(env, r) == Some(r)
    ensures Inspected(env, r) <==> NothingUnread(env, r)
  {
    NoemaParts(env, r);
    hide Clean, CleanCanonical, CleanClaim, CleanText, CleanBody, CleanKeys, Plain, Unread, Hidden;
    CanonicalParts(env, r.canonical);
    TextColumn(env, r.factKey);
    TextColumn(env, r.factKeySeed);
    forall k | k in CANONICAL_KEYS
      ensures Plain(env, At(r.canonical, k)) <==> AllFixed(env, Unread(At(r.canonical, k)))
    {
      CanonicalField(env, r.canonical, k);
    }
    forall k | k in CLAIM_KEYS
      ensures Plain(env, At(At(r.canonical, "stableClaim"), k)) <==> AllFixed(env, Unread(At(At(r.canonical, "stableClaim"), k)))
      ensures Plain(env, At(r.claim, k)) <==> AllFixed(env, Unread(At(r.claim, k)))
    {
      CleanKeysField(env, At(r.canonical, "stableClaim"), CLAIM_KEYS, k);
      CleanKeysField(env, r.claim, CLAIM_KEYS, k);
    }
    forall k | k in BODY_KEYS
      ensures Plain(env, At(r.body, k)) <==> AllFixed(env, if r.body.Some? then Hidden(r.body.value, k) else [])
    {
      BodyField(env, r.body, k);
    }
  }

  lemma CanonicalField(env: Env, o: Option<Json>, k: string)
    requires k in CANONICAL_KEYS
    requires o.Some? && IsObject(o.value) ==> o.value.Obj? && RedactKeys(env, o.value.fields, CANONICAL_KEYS) == o.value.fields
    ensures Plain(env, At(o, k)) <==> AllFixed(env, Unread(At(o, k)))
  {
    if o.Some? && o.value.Obj? {
      RedactedField(env, o.value.fields, CANONICAL_KEYS, k);
    }
  }

  lemma BodyField(env: Env, o: Option<Json>, k: string)
    requires env.Valid() && CleanBody(env, o) == o
    ensures Plain(env, At(o, k)) <==> AllFixed(env, if o.Some? then Hidden(o.value, k) else [])
  {
    if o.Some? && o.value.Obj? {
      PayloadField();
      ScrubbedField(env, o.value.fields, k);
      if At(o, k).Some? {
        OnlySkipped(env, "payload." + k, At(o, k).value);
      }
    }
  }

  lemma NoemaParts(env: Env, r: Record)
    requires env.Valid() && r.NoemaRow? && CleanNoema(env, r) == r
    ensures CleanCanonical(env, r.canonical) == r.canonical && CleanClaim(env, r.claim) == r.claim
    ensures CleanText(env, r.factKey) == r.factKey && CleanText(env, r.factKeySeed) == r.factKeySeed
    ensures CleanBody(env, r.body) == r.body
    ensures r.claim.Some? ==> CleanKeys(env, r.claim.value, CLAIM_KEYS) == r.claim.value
    ensures Plain(env, r.text) <==> AllFixed(env, Unread(r.text))
  {
    PartsAgain(env, r);
    hide CleanCanonical, CleanText, CleanBody, CleanKeys;
    if r.text.Some? && r.text.value.Str? {
      assert env.show(Str(r.text.value.text)) == r.text.value.text;
    }
  }
}
