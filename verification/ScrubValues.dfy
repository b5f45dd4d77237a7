/** Rows of the source layer, the foreign calls of the scrub, and what scrubbing makes of one JSON
    value (scripts/source-layer/privacy-inventory.ts). */
module ScrubValues {
  import opened OrderedMap
  import opened JsonValues

  type Embedding = seq<real>

  /** A semiote or memories row. */
  datatype Fact = Fact(payload: Json, norm: string, embedding: Option<Embedding>, link: Option<Link>, columns: Json)

  datatype Link = Link(turnId: string, hmac: string, fingerprint: string, state: string, version: string)

  datatype Chunk = Chunk(turnId: string, userId: string, index: nat, content: string, norm: string)

  datatype Turn = Turn(userId: string, hmac: string, fingerprint: string, content: string, version: string)

  datatype Evidence = Evidence(userId: string, factId: string, turnId: string, hmac: string, fingerprint: string)

  /** What preparing the raw source text of a row gives. */
  datatype Prepared = Source(turn: SourceTurn) | Unredactable | Invalid

  datatype SourceTurn = SourceTurn(id: string, userId: string, hmac: string, fingerprint: string,
                                   content: string, proven: bool)

  /** The foreign calls of the scrub. A redaction that throws is None. */
  datatype Env = Env(redactFact: string -> Option<string>, redactSource: string -> Option<string>,
                     parse: string -> Option<Json>, show: Json -> string, blank: string -> bool,
                     norm: string -> string, lower: string -> string, embed: string -> Option<Embedding>,
                     prepare: (Fact, string) -> Prepared, split: string -> seq<string>,
                     chunkId: (string, nat) -> string, evidenceId: (string, string, string) -> string,
                     version: string, before: (string, string) -> bool) {
    ghost predicate Valid() {
      && Stable(redactFact) && redactFact("") == Some("")
      && Stable(redactSource)
      && (forall s :: show(Str(s)) == s)
      && Ordered()
    }

    /** Record ids are compared as text; the cursor "" comes before every id. */
    ghost predicate Ordered() {
      && (forall a :: !before(a, a) && (a != "" ==> before("", a)))
      && (forall a, b :: a != b ==> before(a, b) || before(b, a))
      && (forall a, b, c :: before(a, b) && before(b, c) ==> before(a, c))
    }
  }

  /** Redacting redacted text changes nothing. */
  ghost predicate Stable(redact: string -> Option<string>) {
    forall s :: redact(s).Some? ==> Fixed(redact, redact(s).value)
  }

  predicate Fixed(redact: string -> Option<string>, s: string) {
    redact(s) == Some(s)
  }

  // ---------------------------------------------------------------- scrubbing a payload

  predicate Derived(field: string) {
    field == "embedding" || EndsWith(field, ".embedding") || EndsWith(field, "_norm")
  }

  predicate Span(field: string) {
    EndsWith(field, "rawSpan") || EndsWith(field, "rawSpans")
  }

  /** scrubFieldValue for the fact tables; None is undefined. */
  function Scrub(env: Env, field: string, v: Json): Option<Json>
    decreases v
  {
    if Derived(field) then Some(v)
    else if field == "payload.raw_source_text" then None
    else
      match v
      case Str(s) => (match env.redactFact(s) case None => None case Some(t) => Some(Str(t)))
      case Arr(xs) => Some(Arr(ScrubItems(env, field, xs)))
      case Obj(fs) =>
        var clean := ScrubFields(env, field, fs);
        if clean == [] && Span(field) then None else Some(Obj(clean))
      case _ => Some(v)
  }

  function ScrubItems(env: Env, field: string, xs: seq<Json>): seq<Json>
    decreases xs
  {
    if xs == [] then []
    else
      var part := Scrub(env, field, xs[0]);
      (if part.Some? then [part.value] else []) + ScrubItems(env, field, xs[1..])
  }

  function ScrubFields(env: Env, field: string, fs: seq<Field>): seq<Field>
    decreases fs
  {
    if fs == [] then []
    else
      var part := Scrub(env, field + "." + fs[0].key, fs[0].value);
      (if fs[0].key != "raw_source_text" && part.Some? then [Field(fs[0].key, part.value)] else [])
      + ScrubFields(env, field, fs[1..])
  }

  /** Scrubbing a scrubbed payload changes nothing. */
  lemma {:induction false} ScrubAgain(env: Env, field: string, v: Json)
    requires env.Valid()
    ensures var r := Scrub(env, field, v); r.Some? ==> Scrub(env, field, r.value) == r
    decreases v
  {
    if !Derived(field) && field != "payload.raw_source_text" {
      match v
      case Str(s) =>
        if env.redactFact(s).Some? {
          assert Fixed(env.redactFact, env.redactFact(s).value);
        }
      case Arr(xs) => ScrubItemsAgain(env, field, xs);
      case Obj(fs) => ScrubFieldsAgain(env, field, fs);
      case _ =>
    }
  }

  lemma {:induction false} ScrubItemsAgain(env: Env, field: string, xs: seq<Json>)
    requires env.Valid()
    ensures ScrubItems(env, field, ScrubItems(env, field, xs)) == ScrubItems(env, field, xs)
    decreases xs
  {
    if xs != [] {
      ScrubAgain(env, field, xs[0]);
      ScrubItemsAgain(env, field, xs[1..]);
      var part, rest := Scrub(env, field, xs[0]), ScrubItems(env, field, xs[1..]);
      if part.Some? {
        assert ([part.value] + rest)[1..] == rest;
      } else {
        assert [] + rest == rest;
      }
    }
  }

  lemma {:induction false} ScrubFieldsAgain(env: Env, field: string, fs: seq<Field>)
    requires env.Valid()
    ensures ScrubFields(env, field, ScrubFields(env, field, fs)) == ScrubFields(env, field, fs)
    decreases fs
  {
    if fs != [] {
      var key, value := fs[0].key, fs[0].value;
      ScrubAgain(env, field + "." + key, value);
      ScrubFieldsAgain(env, field, fs[1..]);
      var part, rest := Scrub(env, field + "." + key, value), ScrubFields(env, field, fs[1..]);
      if key != "raw_source_text" && part.Some? {
        var first := Field(key, part.value);
        assert ScrubFields(env, field, fs) == [first] + rest;
        assert ([first] + rest)[1..] == rest;
      } else {
        assert ScrubFields(env, field, fs) == rest;
      }
    }
  }

  lemma {:induction false} NoRawField(env: Env, field: string, fs: seq<Field>)
    ensures GetField(ScrubFields(env, field, fs), "raw_source_text") == None
    decreases fs
  {
    if fs != [] {
      NoRawField(env, field, fs[1..]);
    }
  }

  // ---------------------------------------------------------------- the strings of a value

  function Strings(v: Json): seq<string>
    decreases v
  {
    match v
    case Str(s) => [s]
    case Arr(xs) => StringsOf(xs)
    case Obj(fs) => StringsIn(fs)
    case _ => []
  }

  function StringsOf(xs: seq<Json>): seq<string>
    decreases xs
  {
    if xs == [] then [] else Strings(xs[0]) + StringsOf(xs[1..])
  }

  function StringsIn(fs: seq<Field>): seq<string>
    decreases fs
  {
    if fs == [] then [] else Strings(fs[0].value) + StringsIn(fs[1..])
  }

  predicate AllFixed(env: Env, ss: seq<string>) {
    forall s :: s in ss ==> Fixed(env.redactFact, s)
  }
}
