/** The rows of noema, rejection_log and retrieval_trace: how they are scrubbed and how the re-read
    check inspects them (scripts/source-layer/scrub.ts:225-271, privacy-inventory.ts:13-117). */
module ScrubRecords {
  import opened OrderedMap
  import opened JsonValues
  import opened ScrubValues

  datatype Record =
    | NoemaRow(text: Option<Json>, canonical: Option<Json>, claim: Option<Json>, factKey: Option<Json>,
               factKeySeed: Option<Json>, body: Option<Json>, norm: string, embedding: Option<Embedding>)
    | RejectionRow(candidate: Option<Json>)
    | TraceRow(prompt: Option<Json>, answer: Option<Json>, prepend: Option<Json>, receipt: Option<Json>,
               synthesis: Option<Json>)

  predicate Absent(o: Option<Json>) {
    o == None || o == Some(Null)
  }

  /** A present value is read string by string. */
  predicate Plain(env: Env, o: Option<Json>) {
    Absent(o) || AllFixed(env, Strings(o.value))
  }

  // ---------------------------------------------------------------- retrieval_trace

  const TRACE_META: seq<string> :=
    ["retrievalTraceId", "sessionId", "memoryIds", "traceId", "model", "questionLength", "answerLength",
     "redactionVersion", "receivedAt", "client"]

  /** Known keys stay, with their values as they are. */
  function Meta(fs: seq<Field>): seq<Field> {
    if fs == [] then [] else (if fs[0].key in TRACE_META then [fs[0]] else []) + Meta(fs[1..])
  }

  /** scrubTraceValue: None throws, Some(None) is undefined. */
  function TraceValue(env: Env, v: Json): Option<Option<Json>>
    decreases v
  {
    match v
    case Null => Some(None)
    case Str(s) => (match env.redactFact(s) case None => None case Some(t) => Some(Some(Str(t))))
    case Arr(xs) => (match TraceItems(env, xs) case None => None case Some(ys) => Some(Some(Arr(ys))))
    case Obj(fs) => Some(Some(Obj(Meta(fs))))
    case _ => Some(Some(v))
  }

  /** An undefined item of an array is written as null. */
  function TraceItems(env: Env, xs: seq<Json>): Option<seq<Json>>
    decreases xs
  {
    if xs == [] then Some([])
    else
      match TraceValue(env, xs[0])
      case None => None
      case Some(part) =>
        match TraceItems(env, xs[1..])
        case None => None
        case Some(rest) => Some([if part.Some? then part.value else Null] + rest)
  }

  function TraceField(env: Env, o: Option<Json>): Option<Option<Json>> {
    if Absent(o) then Some(None) else TraceValue(env, o.value)
  }

  /** inspectField of a trace column says it would change. */
  predicate Changes(env: Env, o: Option<Json>, cleaned: Option<Json>) {
    !Absent(o) && (!AllFixed(env, Strings(o.value)) || cleaned != o)
  }

  predicate TraceChanges(env: Env, r: Record, receipt: Option<Json>, synthesis: Option<Json>)
    requires r.TraceRow?
  {
    || Changes(env, r.prompt, Some(Str(""))) || Changes(env, r.answer, Some(Str(""))) || Changes(env, r.prepend, None)
    || Changes(env, r.receipt, receipt) || Changes(env, r.synthesis, synthesis)
  }

  function CleanTrace(env: Env, r: Record): Option<Record>
    requires r.TraceRow?
  {
    match (TraceField(env, r.receipt), TraceField(env, r.synthesis))
    case (Some(receipt), Some(synthesis)) =>
      if TraceChanges(env, r, receipt, synthesis)
      then Some(TraceRow(Some(Str("")), Some(Str("")), None, receipt, synthesis)) else Some(r)
    case (_, _) => None
  }

  lemma {:induction false} MetaAgain(fs: seq<Field>)
    ensures Meta(Meta(fs)) == Meta(fs)
  {
    if fs != [] {
      MetaAgain(fs[1..]);
      var kept := Meta(fs[1..]);
      if fs[0].key in TRACE_META {
        assert Meta(fs) == [fs[0]] + kept && ([fs[0]] + kept)[1..] == kept;
      } else {
        assert Meta(fs) == kept;
      }
    }
  }

  lemma {:induction false} TraceAgain(env: Env, v: Json)
    requires env.Valid()
    ensures var r := TraceValue(env, v);
      r.Some? && r.value.Some? ==> r.value.value != Null && TraceValue(env, r.value.value) == r
    decreases v
  {
    match v
    case Str(s) =>
      if env.redactFact(s).Some? {
        assert Fixed(env.redactFact, env.redactFact(s).value);
      }
    case Arr(xs) => TraceItemsAgain(env, xs);
    case Obj(fs) => MetaAgain(fs);
    case _ =>
  }

  lemma {:induction false} TraceItemsAgain(env: Env, xs: seq<Json>)
    requires env.Valid()
    ensures TraceItems(env, xs).Some? ==> TraceItems(env, TraceItems(env, xs).value) == TraceItems(env, xs)
    decreases xs
  {
    if xs != [] && TraceItems(env, xs).Some? {
      TraceAgain(env, xs[0]);
      TraceItemsAgain(env, xs[1..]);
      var part, rest := TraceValue(env, xs[0]).value, TraceItems(env, xs[1..]).value;
      var first := if part.Some? then part.value else Null;
      assert TraceItems(env, xs) == Some([first] + rest);
      assert ([first] + rest)[1..] == rest;
    }
  }

  lemma TraceFieldAgain(env: Env, o: Option<Json>)
    requires env.Valid()
    ensures TraceField(env, o).Some? ==> TraceField(env, TraceField(env, o).value) == TraceField(env, o)
  {
    if !Absent(o) {
      TraceAgain(env, o.value);
    }
  }

  // ---------------------------------------------------------------- rejection_log

  function CleanRejection(env: Env, r: Record): Record
    requires r.RejectionRow?
  {
    if Plain(env, r.candidate) then r else RejectionRow(Scrub(env, "candidate_text", r.candidate.value))
  }

  // ---------------------------------------------------------------- noema

  const CANONICAL_KEYS: seq<string> := ["text", "l0", "l1", "factKey"]
  const CLAIM_KEYS: seq<string> := ["subject", "predicate", "value"]
  const BODY_KEYS: seq<string> := ["l0", "l1", "l2"]

  function Digits(n: nat): string {
    (if n < 10 then "" else Digits(n / 10)) + [['0', '1', '2', '3', '4', '5', '6', '7', '8', '9'][n % 10]]
  }

  function Indexed(xs: seq<Json>, i: nat): seq<Field> {
    if xs == [] then [] else [Field(Digits(i), xs[0])] + Indexed(xs[1..], i + 1)
  }

  predicate IsObject(v: Json) {
    v.Obj? || v.Arr?
  }

  /** `{ ...v }`. */
  function Spread(v: Json): seq<Field> {
    match v case Obj(fs) => fs case Arr(xs) => Indexed(xs, 0) case _ => []
  }

  /** The named fields that are strings are redacted; one that cannot be is dropped. */
  function RedactKeys(env: Env, fs: seq<Field>, keys: seq<string>): seq<Field> {
    if fs == [] then []
    else RedactOne(env, fs[0], keys) + RedactKeys(env, fs[1..], keys)
  }

  function RedactOne(env: Env, f: Field, keys: seq<string>): (r: seq<Field>)
    ensures |r| <= 1
  {
    if f.key in keys && f.value.Str?
    then (match env.redactFact(f.value.text) case None => [] case Some(t) => [Field(f.key, Str(t))])
    else [f]
  }

  function CleanKeys(env: Env, v: Json, keys: seq<string>): Json {
    if IsObject(v) then Obj(RedactKeys(env, Spread(v), keys)) else v
  }

  function CleanNested(env: Env, fs: seq<Field>): seq<Field> {
    if fs == [] then []
    else [if fs[0].key == "stableClaim" then Field("stableClaim", CleanKeys(env, fs[0].value, CLAIM_KEYS)) else fs[0]]
         + CleanNested(env, fs[1..])
  }

  function CleanCanonical(env: Env, o: Option<Json>): Option<Json> {
    if o.Some? && IsObject(o.value) then Some(Obj(CleanNested(env, RedactKeys(env, Spread(o.value), CANONICAL_KEYS)))) else o
  }

  function CleanClaim(env: Env, o: Option<Json>): Option<Json> {
    if o.Some? then Some(CleanKeys(env, o.value, CLAIM_KEYS)) else o
  }

  function CleanText(env: Env, o: Option<Json>): Option<Json> {
    match o
    case Some(Str(s)) => (match env.redactFact(s) case None => None case Some(t) => Some(Str(t)))
    case _ => o
  }

  function CleanBody(env: Env, o: Option<Json>): Option<Json> {
    if o.Some? && IsObject(o.value) then Scrub(env, "payload", o.value) else o
  }

  function Shown(env: Env, o: Option<Json>): string {
    if Absent(o) then "" else env.show(o.value)
  }

  function CleanNoema(env: Env, r: Record): Record
    requires r.NoemaRow?
  {
    var text := Shown(env, r.text);
    var redacted := env.redactFact(text);
    var canonical, claim := CleanCanonical(env, r.canonical), CleanClaim(env, r.claim);
    var factKey, seed, body := CleanText(env, r.factKey), CleanText(env, r.factKeySeed), CleanBody(env, r.body);
    var changed := redacted != Some(text);
    if changed || canonical != r.canonical || claim != r.claim || factKey != r.factKey || seed != r.factKeySeed || body != r.body
    then
      NoemaRow(if redacted.Some? then Some(Str(redacted.value)) else None, canonical, claim, factKey, seed, body,
               if changed then env.norm(if redacted.Some? then redacted.value else "") else r.norm,
               if changed then (if redacted == None || redacted == Some("") then None else env.embed(redacted.value)) else r.embedding)
    else r
  }

  lemma {:induction false} RedactKeysAgain(env: Env, fs: seq<Field>, keys: seq<string>)
    requires env.Valid()
    ensures RedactKeys(env, RedactKeys(env, fs, keys), keys) == RedactKeys(env, fs, keys)
  {
    if fs != [] {
      RedactKeysAgain(env, fs[1..], keys);
      var one, rest := RedactOne(env, fs[0], keys), RedactKeys(env, fs[1..], keys);
      RedactOneAgain(env, fs[0], keys);
      if one == [] {
        assert RedactKeys(env, fs, keys) == rest;
      } else {
        assert RedactKeys(env, fs, keys)[0] == one[0] && RedactKeys(env, fs, keys)[1..] == rest;
      }
    }
  }

  lemma RedactOneAgain(env: Env, f: Field, keys: seq<string>)
    requires env.Valid()
    ensures var r := RedactOne(env, f, keys); r != [] ==> RedactOne(env, r[0], keys) == r
  {
    if f.key in keys && f.value.Str? && env.redactFact(f.value.text).Some? {
      assert Fixed(env.redactFact, env.redactFact(f.value.text).value);
    }
  }

  lemma CleanKeysAgain(env: Env, v: Json, keys: seq<string>)
    requires env.Valid()
    ensures CleanKeys(env, CleanKeys(env, v, keys), keys) == CleanKeys(env, v, keys)
  {
    RedactKeysAgain(env, Spread(v), keys);
  }

  lemma {:induction false} CleanNestedAgain(env: Env, fs: seq<Field>)
    requires env.Valid() && RedactKeys(env, fs, CANONICAL_KEYS) == fs
    ensures CleanNested(env, CleanNested(env, fs)) == CleanNested(env, fs)
    ensures RedactKeys(env, CleanNested(env, fs), CANONICAL_KEYS) == CleanNested(env, fs)
  {
    if fs != [] {
      var first, rest := fs[0], fs[1..];
      RedactedTail(env, fs, CANONICAL_KEYS);
      CleanNestedAgain(env, rest);
      CleanKeysAgain(env, first.value, CLAIM_KEYS);
      var head := if first.key == "stableClaim" then Field("stableClaim", CleanKeys(env, first.value, CLAIM_KEYS)) else first;
      assert CleanNested(env, fs)[0] == head && CleanNested(env, fs)[1..] == CleanNested(env, rest);
      assert "stableClaim" !in CANONICAL_KEYS;
    }
  }

  lemma {:induction false} RedactedShorter(env: Env, fs: seq<Field>, keys: seq<string>)
    ensures |RedactKeys(env, fs, keys)| <= |fs|
  {
    if fs != [] {
      RedactedShorter(env, fs[1..], keys);
    }
  }

  lemma RedactedTail(env: Env, fs: seq<Field>, keys: seq<string>)
    requires fs != [] && RedactKeys(env, fs, keys) == fs
    ensures RedactOne(env, fs[0], keys) == [fs[0]] && RedactKeys(env, fs[1..], keys) == fs[1..]
  {
    RedactedShorter(env, fs[1..], keys);
    assert RedactKeys(env, fs, keys)[0] == fs[0] && RedactKeys(env, fs, keys)[1..] == fs[1..];
  }

  lemma CanonicalAgain(env: Env, o: Option<Json>)
    requires env.Valid()
    ensures CleanCanonical(env, CleanCanonical(env, o)) == CleanCanonical(env, o)
  {
    if o.Some? && IsObject(o.value) {
      RedactKeysAgain(env, Spread(o.value), CANONICAL_KEYS);
      CleanNestedAgain(env, RedactKeys(env, Spread(o.value), CANONICAL_KEYS));
    }
  }

  lemma PartsAgain(env: Env, r: Record)
    requires env.Valid() && r.NoemaRow?
    ensures CleanCanonical(env, CleanCanonical(env, r.canonical)) == CleanCanonical(env, r.canonical)
    ensures CleanClaim(env, CleanClaim(env, r.claim)) == CleanClaim(env, r.claim)
    ensures CleanText(env, CleanText(env, r.factKey)) == CleanText(env, r.factKey)
    ensures CleanText(env, CleanText(env, r.factKeySeed)) == CleanText(env, r.factKeySeed)
    ensures CleanBody(env, CleanBody(env, r.body)) == CleanBody(env, r.body)
  {
    CanonicalAgain(env, r.canonical);
    if r.claim.Some? {
      CleanKeysAgain(env, r.claim.value, CLAIM_KEYS);
    }
    TextAgain(env, r.factKey);
    TextAgain(env, r.factKeySeed);
    if r.body.Some? && IsObject(r.body.value) {
      ScrubAgain(env, "payload", r.body.value);
    }
  }

  lemma TextAgain(env: Env, o: Option<Json>)
    requires env.Valid()
    ensures CleanText(env, CleanText(env, o)) == CleanText(env, o)
  {
    match o
    case Some(Str(s)) =>
      if env.redactFact(s).Some? {
        assert Fixed(env.redactFact, env.redactFact(s).value);
      }
    case _ =>
  }

  // ---------------------------------------------------------------- any record

  /** updateBatch for one of these rows; None when it throws. */
  function Clean(env: Env, r: Record): Option<Record> {
    match r
    case NoemaRow(_, _, _, _, _, _, _, _) => Some(CleanNoema(env, r))
    case RejectionRow(_) => Some(CleanRejection(env, r))
    case TraceRow(_, _, _, _, _) => CleanTrace(env, r)
  }

  /** Scrubbing a scrubbed row changes nothing. */
  lemma CleanAgain(env: Env, r: Record)
    requires env.Valid() && Clean(env, r).Some?
    ensures Clean(env, Clean(env, r).value) == Clean(env, r)
  {
    match r
    case NoemaRow(_, _, _, _, _, _, _, _) => NoemaAgain(env, r);
    case RejectionRow(o) =>
      if !Plain(env, o) {
        ScrubAgain(env, "candidate_text", o.value);
      }
    case TraceRow(_, _, _, _, _) =>
      TraceFieldAgain(env, r.receipt);
      TraceFieldAgain(env, r.synthesis);
  }

  lemma NoemaAgain(env: Env, r: Record)
    requires env.Valid() && r.NoemaRow?
    ensures CleanNoema(env, CleanNoema(env, r)) == CleanNoema(env, r)
  {
    PartsAgain(env, r);
    hide CleanCanonical, CleanClaim, CleanText, CleanBody;
    var text := Shown(env, r.text);
    if env.redactFact(text).Some? {
      assert Fixed(env.redactFact, env.redactFact(text).value);
    }
  }

  /** The re-read check of one of these rows. */
  predicate Inspected(env: Env, r: Record) {
    match r
    case NoemaRow(text, canonical, claim, factKey, seed, body, _, _) =>
      && Plain(env, text) && Plain(env, factKey) && Plain(env, seed)
      && (forall k :: k in CANONICAL_KEYS ==> Plain(env, At(canonical, k)))
      && (forall k :: k in CLAIM_KEYS ==> Plain(env, At(At(canonical, "stableClaim"), k)) && Plain(env, At(claim, k)))
      && (forall k :: k in BODY_KEYS ==> Plain(env, At(body, k)))
    case RejectionRow(o) => Plain(env, o)
    case TraceRow(_, _, _, _, _) =>
      match (TraceField(env, r.receipt), TraceField(env, r.synthesis))
      case (Some(receipt), Some(synthesis)) => !TraceChanges(env, r, receipt, synthesis)
      case (_, _) => false
  }

  /** fieldValue one level down. */
  function At(o: Option<Json>, key: string): Option<Json> {
    if o.Some? then Get(o.value, key) else None
  }
}
