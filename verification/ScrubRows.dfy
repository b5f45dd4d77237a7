/** What the source-layer scrub does to one row of each table, and its re-read check
    (scripts/source-layer/scrub.ts, scripts/source-layer/privacy-inventory.ts). */
module ScrubRows {
  import opened OrderedMap
  import opened JsonValues
  import opened ScrubValues
  import opened ScrubRecords

  /** In the order in which the scrub visits them. */
  datatype Table = Semiote | Noema | Memories | RejectionLog | RetrievalTrace | SessionTurnChunk | SessionTurn | SourceTurnEvidence

  const TABLES: seq<Table> :=
    [Semiote, Noema, Memories, RejectionLog, RetrievalTrace, SessionTurnChunk, SessionTurn, SourceTurnEvidence]

  datatype Db = Db(semiote: map<string, Fact>, memories: map<string, Fact>, records: map<(Table, string), Record>,
                   chunks: map<string, Chunk>, turns: map<string, Turn>, evidence: map<string, Evidence>)

  // ---------------------------------------------------------------- one fact row

  /** The payload object of a row: legacy text is parsed, nothing counts as empty. */
  function Original(env: Env, payload: Json): Option<Json> {
    match payload case Str(s) => env.parse(s) case _ => Some(payload)
  }

  function FactPayload(env: Env, payload: Json): Option<Json> {
    match Original(env, payload)
    case Some(Null) => Some(Obj([]))
    case Some(Obj(fs)) => Scrub(env, "payload", Obj(fs))
    case _ => None
  }

  function TextOf(env: Env, payload: Json): string {
    var l2, data := Get(payload, "l2"), Get(payload, "data");
    if l2.Some? && l2.value != Null then env.show(l2.value)
    else if data.Some? && data.value != Null then env.show(data.value)
    else ""
  }

  /** sourceMigration: only a raw text that is still there is migrated. */
  function Migration(env: Env, row: Fact): Option<Prepared> {
    match Get(row.payload, "raw_source_text")
    case Some(Str(raw)) => if env.blank(raw) then None else Some(env.prepare(row, raw))
    case _ => None
  }

  /** The row itself after the update; norm and embedding follow a changed text. */
  function Rewritten(env: Env, row: Fact, payload: Json, link: Option<Link>): Fact {
    var original := Original(env, row.payload);
    var text := TextOf(env, payload);
    var changedText := original.Some? && text != TextOf(env, original.value);
    row.(payload := payload, link := link,
         norm := if changedText then env.norm(text) else row.norm,
         embedding := if changedText then (if text == "" then None else env.embed(text)) else row.embedding)
  }

  /** The record id is taken, or the unique index over turn and position. */
  predicate Taken(chunks: map<string, Chunk>, id: string, turnId: string, i: nat) {
    id in chunks || exists c :: c in chunks && chunks[c].turnId == turnId && chunks[c].index == i
  }

  function CreateChunks(env: Env, chunks: map<string, Chunk>, turnId: string, userId: string, parts: seq<string>, i: nat):
      Option<map<string, Chunk>>
    decreases |parts|
  {
    if parts == [] then Some(chunks)
    else if Taken(chunks, env.chunkId(turnId, i), turnId, i) then None
    else
      var chunk := Chunk(turnId, userId, i, parts[0], env.lower(parts[0]));
      CreateChunks(env, chunks[env.chunkId(turnId, i) := chunk], turnId, userId, parts[1..], i + 1)
  }

  /** The migrated turn joins the database; a different turn under its id is a collision. */
  function AddTurn(env: Env, db: Db, t: SourceTurn): Option<Db> {
    if t.id in db.turns then
      var row := db.turns[t.id];
      if row.userId == t.userId && row.hmac == t.hmac && row.fingerprint == t.fingerprint then Some(db) else None
    else
      match CreateChunks(env, db.chunks, t.id, t.userId, env.split(t.content), 0)
      case None => None
      case Some(chunks) =>
        Some(db.(turns := db.turns[t.id := Turn(t.userId, t.hmac, t.fingerprint, "", env.version)], chunks := chunks))
  }

  function AddEvidence(env: Env, db: Db, id: string, t: SourceTurn): Db {
    if t.proven
    then db.(evidence := db.evidence[env.evidenceId(t.userId, id, t.id) := Evidence(t.userId, id, t.id, t.hmac, t.fingerprint)])
    else db
  }

  function StepSemiote(env: Env, db: Db, id: string): Option<Db> {
    if id !in db.semiote then Some(db)
    else
      var row := db.semiote[id];
      match FactPayload(env, row.payload)
      case None => None
      case Some(payload) =>
        match Migration(env, row)
        case Some(Invalid) => None
        case Some(Source(t)) =>
          (match AddTurn(env, db, t)
           case None => None
           case Some(db1) =>
             var link := Some(Link(t.id, t.hmac, t.fingerprint, "legacy", env.version));
             Some(AddEvidence(env, db1.(semiote := db1.semiote[id := Rewritten(env, row, payload, link)]), id, t)))
        case _ =>
          if row.payload == payload then Some(db)
          else Some(db.(semiote := db.semiote[id := Rewritten(env, row, payload, row.link)]))
  }

  function StepMemory(env: Env, db: Db, id: string): Option<Db> {
    if id !in db.memories then Some(db)
    else
      var row := db.memories[id];
      match FactPayload(env, row.payload)
      case None => None
      case Some(payload) =>
        if row.payload == payload then Some(db)
        else Some(db.(memories := db.memories[id := Rewritten(env, row, payload, row.link)]))
  }

  // ---------------------------------------------------------------- the other tables

  function StepRecord(env: Env, db: Db, t: Table, id: string): Option<Db> {
    if (t, id) !in db.records then Some(db)
    else
      match Clean(env, db.records[(t, id)])
      case None => None
      case Some(row) => Some(db.(records := db.records[(t, id) := row]))
  }

  predicate ChunkClean(env: Env, c: Chunk) {
    Fixed(env.redactSource, c.content) && c.norm == env.lower(c.content)
  }

  function StepChunk(env: Env, db: Db, id: string): Option<Db> {
    if id !in db.chunks then Some(db)
    else
      var row := db.chunks[id];
      match env.redactSource(row.content)
      case None => None
      case Some(content) => Some(db.(chunks := db.chunks[id := row.(content := content, norm := env.lower(content))]))
  }

  function ChunksOf(db: Db, turnId: string): set<string> {
    set c | c in db.chunks && db.chunks[c].turnId == turnId
  }

  /** A turn with text still in its header: its chunks must be clean, or are made now. */
  function StepTurn(env: Env, db: Db, id: string): Option<Db> {
    if id !in db.turns || db.turns[id].content == "" then Some(db)
    else if exists c :: c in ChunksOf(db, id) && !(ChunkClean(env, db.chunks[c]) && Fixed(env.redactSource, db.chunks[c].norm))
    then None
    else
      var row := db.turns[id];
      match env.redactSource(row.content)
      case None => None
      case Some(content) =>
        var parts := if ChunksOf(db, id) == {} then env.split(content) else [];
        match CreateChunks(env, db.chunks, id, row.userId, parts, 0)
        case None => None
        case Some(chunks) => Some(db.(chunks := chunks, turns := db.turns[id := row.(content := "", version := env.version)]))
  }

  /** updateBatch for one row; None when it throws. */
  function Step(env: Env, db: Db, t: Table, id: string): Option<Db> {
    match t
    case Semiote => StepSemiote(env, db, id)
    case Memories => StepMemory(env, db, id)
    case SessionTurnChunk => StepChunk(env, db, id)
    case SessionTurn => StepTurn(env, db, id)
    case SourceTurnEvidence => Some(db)
    case _ => StepRecord(env, db, t, id)
  }

  function Keys(db: Db, t: Table): set<string> {
    match t
    case Semiote => db.semiote.Keys
    case Memories => db.memories.Keys
    case SessionTurnChunk => db.chunks.Keys
    case SessionTurn => db.turns.Keys
    case SourceTurnEvidence => db.evidence.Keys
    case _ => IdsIn(db.records.Keys, t)
  }

  function IdsIn(keys: set<(Table, string)>, t: Table): set<string> {
    set k | k in keys && k.0 == t :: k.1
  }

  // ---------------------------------------------------------------- verification of one row

  const INSPECTED: seq<string> := ["rawSpan", "rawSpans", "l0", "l1", "l2"]

  predicate FieldClean(env: Env, payload: Json, key: string) {
    match Get(payload, key)
    case None => true
    case Some(v) => AllFixed(env, Strings(v))
  }

  predicate PayloadClean(env: Env, payload: Json) {
    && (Get(payload, "raw_source_text") == None || Get(payload, "raw_source_text") == Some(Null))
    && forall key :: key in INSPECTED ==> FieldClean(env, payload, key)
  }

  /** Of a memory the whole payload is read, and scrubbed again. */
  predicate MemoryClean(env: Env, payload: Json) {
    && PayloadClean(env, payload)
    && (payload != Null ==> AllFixed(env, Strings(payload)) && Scrub(env, "payload", payload) == Some(payload))
  }

  /** A legacy link must name a turn with an empty header and the linked hmac and key. */
  predicate LinkHolds(db: Db, link: Option<Link>) {
    link.Some? && link.value.state == "legacy" ==>
      && link.value.turnId in db.turns
      && db.turns[link.value.turnId].content == ""
      && db.turns[link.value.turnId].hmac == link.value.hmac
      && db.turns[link.value.turnId].fingerprint == link.value.fingerprint
  }

  /** The re-read check of one processed row. */
  predicate Verified(env: Env, db: Db, t: Table, id: string) {
    match t
    case Semiote => id in db.semiote ==> PayloadClean(env, db.semiote[id].payload) && LinkHolds(db, db.semiote[id].link)
    case Memories => id in db.memories ==> MemoryClean(env, db.memories[id].payload)
    case SessionTurnChunk => id in db.chunks ==> ChunkClean(env, db.chunks[id])
    case SessionTurn => id in db.turns ==> db.turns[id].content == ""
    case SourceTurnEvidence => true
    case _ => (t, id) in db.records ==> Inspected(env, db.records[(t, id)])
  }
}
