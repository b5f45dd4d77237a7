/** When a scrub of one row throws, told from the row and the tables (scripts/source-layer/scrub.ts:106-271). */
module ScrubFails {
  import opened OrderedMap
  import opened JsonValues
  import opened ScrubValues
  import opened ScrubRecords
  import opened ScrubRows
  import opened ScrubMeaning
  import opened ScrubFinal
  import opened ScrubMoves
  import opened ScrubResume

  // ---------------------------------------------------------------- payloads and traces

  /** The payload is an object, nothing, or legacy text that parses as one of them. */
  ghost predicate Readable(env: Env, payload: Json) {
    exists fs: seq<Field> :: ReadAs(env, payload, fs)
  }

  lemma FactPayloadRuns(env: Env, payload: Json)
    ensures FactPayload(env, payload).Some? <==> Readable(env, payload)
  {
    hide Scrub;
    match Original(env, payload)
    case Some(Obj(fs)) =>
      assert ReadAs(env, payload, fs);
      PayloadStays(env, fs);
    case Some(Null) => assert ReadAs(env, payload, []);
    case _ =>
  }

  lemma PayloadStays(env: Env, fs: seq<Field>)
    ensures Scrub(env, "payload", Obj(fs)).Some?
  {
    PayloadField();
  }

  /** A text in the value, or in a list in it, cannot be redacted; texts of objects are not looked at. */
  ghost predicate Throwing(env: Env, v: Json)
    decreases v
  {
    match v
    case Str(s) => env.redactFact(s) == None
    case Arr(xs) => exists x :: x in xs && Throwing(env, x)
    case _ => false
  }

  lemma {:induction false} TraceThrows(env: Env, v: Json)
    ensures TraceValue(env, v) == None <==> Throwing(env, v)
    decreases v
  {
    if v.Arr? {
      TraceItemsThrow(env, v.items);
    }
  }

  lemma {:induction false} TraceItemsThrow(env: Env, xs: seq<Json>)
    ensures TraceItems(env, xs) == None <==> exists x :: x in xs && Throwing(env, x)
    decreases xs
  {
    if xs != [] {
      assert xs == [xs[0]] + xs[1..];
      assert xs[0] in xs;
      TraceThrows(env, xs[0]);
      TraceItemsThrow(env, xs[1..]);
    }
  }

  // ---------------------------------------------------------------- turns and chunks

  /** No chunk has one of the ids the parts get, or already stands at one of their places. */
  ghost predicate Unused(env: Env, chunks: map<string, Chunk>, turnId: string, count: nat) {
    forall k: nat, c :: k < count && c in chunks ==> c != env.chunkId(turnId, k) && !(chunks[c].turnId == turnId && chunks[c].index == k)
  }

  lemma CreateRuns(env: Env, chunks: map<string, Chunk>, turnId: string, userId: string, parts: seq<string>)
    requires Splits(env)
    ensures CreateChunks(env, chunks, turnId, userId, parts, 0).Some? <==> Unused(env, chunks, turnId, |parts|)
  {
    hide CreateChunks, Splits;
    Created(env, chunks, turnId, userId, parts, 0);
    if forall k: nat :: k < |parts| ==> !Taken(chunks, env.chunkId(turnId, k), turnId, k) {
      forall k: nat, c | k < |parts| && c in chunks
        ensures c != env.chunkId(turnId, k) && !(chunks[c].turnId == turnId && chunks[c].index == k)
      {
        assert !Taken(chunks, env.chunkId(turnId, k), turnId, k);
      }
    }
    if Unused(env, chunks, turnId, |parts|) {
      forall k: nat | k < |parts|
        ensures !Taken(chunks, env.chunkId(turnId, k), turnId, k)
      {
      }
    }
  }

  /** The turn is there with the same owner, hmac and key, or can be made with its chunks. */
  ghost predicate TurnFits(env: Env, db: Db, t: SourceTurn) {
    if t.id in db.turns then db.turns[t.id].userId == t.userId && db.turns[t.id].hmac == t.hmac && db.turns[t.id].fingerprint == t.fingerprint
    else Unused(env, db.chunks, t.id, |env.split(t.content)|)
  }

  // ---------------------------------------------------------------- one row

  /** The raw text of the row, if it has one that is not blank, is sound and its turn fits, or cannot be redacted. */
  ghost predicate SourceRuns(env: Env, db: Db, row: Fact) {
    match Get(row.payload, "raw_source_text")
    case Some(Str(raw)) =>
      !env.blank(raw) ==> var p := env.prepare(row, raw); !p.Invalid? && (p.Source? ==> TurnFits(env, db, p.turn))
    case _ => true
  }

  ghost predicate ChunksVerify(env: Env, db: Db, turnId: string) {
    forall c :: c in db.chunks && db.chunks[c].turnId == turnId ==>
      && env.redactSource(db.chunks[c].content) == Some(db.chunks[c].content) && db.chunks[c].norm == env.lower(db.chunks[c].content)
      && env.redactSource(db.chunks[c].norm) == Some(db.chunks[c].norm)
  }

  /** The header is redacted, and there are only clean chunks, or none and room for them. */
  ghost predicate HeaderRuns(env: Env, db: Db, id: string)
    requires id in db.turns
  {
    var text := env.redactSource(db.turns[id].content);
    && text.Some? && ChunksVerify(env, db, id)
    && ((forall c :: c in db.chunks ==> db.chunks[c].turnId != id) ==> Unused(env, db.chunks, id, |env.split(text.value)|))
  }

  /** What one row needs for its scrub to go through. */
  ghost predicate Runs(env: Env, db: Db, t: Table, id: string) {
    match RowAt(db, t, id)
    case FactRow(row) => Readable(env, row.payload) && (t.Semiote? ==> SourceRuns(env, db, row))
    case RecordRow(TraceRow(_, _, _, receipt, synthesis)) =>
      && (receipt.Some? ==> !Throwing(env, receipt.value)) && (synthesis.Some? ==> !Throwing(env, synthesis.value))
    case RecordRow(_) => true
    case ChunkRow(ch) => env.redactSource(ch.content).Some?
    case TurnRow(turn) => turn.content == "" || HeaderRuns(env, db, id)
    case NoRow => true
  }

  /** A row's scrub goes through exactly when its payload can be read, its raw text can become a turn, its texts
      can be redacted, and its turn's chunks are clean or can be made. */
  lemma StepRuns(env: Env, db: Db, t: Table, id: string)
    requires env.Valid() && Splits(env)
    ensures Step(env, db, t, id).Some? <==> Runs(env, db, t, id)
  {
    hide StepSemiote, StepMemory, StepRecord, StepTurn, SourceRuns, Readable, Throwing, HeaderRuns, Splits;
    match t
    case Semiote => SemioteRuns(env, db, id);
    case Memories =>
      if id in db.memories {
        MemoryRuns(env, db, id);
      } else {
        NoMemory(env, db, id);
      }
    case SessionTurnChunk =>
    case SessionTurn => TurnRuns(env, db, id);
    case SourceTurnEvidence =>
    case _ => RecordRuns(env, db, t, id);
  }

  lemma NoMemory(env: Env, db: Db, id: string)
    requires id !in db.memories
    ensures StepMemory(env, db, id).Some?
  {
  }

  lemma MemoryRuns(env: Env, db: Db, id: string)
    requires id in db.memories
    ensures StepMemory(env, db, id).Some? <==> Readable(env, db.memories[id].payload)
  {
    hide FactPayload, Readable, Rewritten;
    FactPayloadRuns(env, db.memories[id].payload);
  }

  lemma SemioteRuns(env: Env, db: Db, id: string)
    requires Splits(env)
    ensures StepSemiote(env, db, id).Some? <==>
      (id in db.semiote ==> Readable(env, db.semiote[id].payload) && SourceRuns(env, db, db.semiote[id]))
  {
    hide FactPayload, Readable, Rewritten, AddTurn, AddEvidence, TurnFits, Splits;
    if id in db.semiote {
      var row := db.semiote[id];
      FactPayloadRuns(env, row.payload);
      match Migration(env, row)
      case Some(Source(t)) => AddTurnRuns(env, db, t);
      case _ =>
    }
  }

  lemma AddTurnRuns(env: Env, db: Db, t: SourceTurn)
    requires Splits(env)
    ensures AddTurn(env, db, t).Some? <==> TurnFits(env, db, t)
  {
    hide CreateChunks, Unused, Splits;
    CreateRuns(env, db.chunks, t.id, t.userId, env.split(t.content));
  }

  lemma TurnRuns(env: Env, db: Db, id: string)
    requires Splits(env)
    ensures StepTurn(env, db, id).Some? <==> (id in db.turns ==> db.turns[id].content == "" || HeaderRuns(env, db, id))
  {
    hide CreateChunks, Unused, Splits;
    if id in db.turns && db.turns[id].content != "" {
      var row := db.turns[id];
      assert ChunksOf(db, id) == {} <==> forall c :: c in db.chunks ==> c !in ChunksOf(db, id);
      assert forall c :: c in ChunksOf(db, id) <==> c in db.chunks && db.chunks[c].turnId == id;
      match env.redactSource(row.content)
      case None =>
      case Some(content) =>
        CreateRuns(env, db.chunks, id, row.userId, env.split(content));
        CreateRuns(env, db.chunks, id, row.userId, []);
        NothingUnused(env, db.chunks, id);
    }
  }

  lemma NothingUnused(env: Env, chunks: map<string, Chunk>, turnId: string)
    ensures Unused(env, chunks, turnId, 0)
  {
  }

  lemma RecordRuns(env: Env, db: Db, t: Table, id: string)
    requires t.Noema? || t.RejectionLog? || t.RetrievalTrace?
    ensures StepRecord(env, db, t, id).Some? <==> Runs(env, db, t, id)
  {
    hide CleanNoema, CleanRejection, TraceValue, TraceChanges, Throwing;
    if (t, id) in db.records {
      match db.records[(t, id)]
      case TraceRow(_, _, _, receipt, synthesis) =>
        ColumnRuns(env, receipt);
        ColumnRuns(env, synthesis);
      case _ =>
    }
  }

  lemma ColumnRuns(env: Env, o: Option<Json>)
    ensures TraceField(env, o).Some? <==> (o.Some? ==> !Throwing(env, o.value))
  {
    hide TraceValue;
    if !Absent(o) {
      TraceThrows(env, o.value);
    }
  }
}
