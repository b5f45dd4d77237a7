/** What a finished scrub has reached: every row of every table, except that the chunks made by
    the session_turn pass join a table that is already behind it
    (scripts/source-layer/privacy-inventory.ts:8, scripts/source-layer/scrub.ts:272-290). */
module ScrubComplete {
  import opened OrderedMap
  import opened JsonValues
  import opened ScrubValues
  import opened ScrubRecords
  import opened ScrubRows
  import opened ScrubOrder
  import opened ScrubResume

  // ---------------------------------------------------------------- pages are the whole listing

  lemma {:induction false} RunTableIsStepAll(env: Env, db: Db, t: Table, cursor: string, size: nat)
    requires env.Valid() && size > 0 && RunTable(env, db, t, cursor, size).Some?
    ensures StepAll(env, db, t, After(env, Keys(db, t), cursor)) == RunTable(env, db, t, cursor, size)
    decreases |Above(env, Keys(db, t), cursor)|
  {
    hide Step, Keys, Above, After, Verified;
    var all, ids := After(env, Keys(db, t), cursor), Page(env, db, t, cursor, size);
    PageOf(env, db, t, cursor, size);
    if ids != [] {
      var next := Batch(env, db, t, ids).value;
      StepAllKeys(env, db, t, ids);
      PageAdvances(env, db, t, cursor, size);
      RunTableIsStepAll(env, next, t, ids[|ids| - 1], size);
      assert all == ids + all[|ids|..];
      StepAllAppend(env, db, t, ids, all[|ids|..]);
    }
  }

  lemma PageOf(env: Env, db: Db, t: Table, cursor: string, size: nat)
    requires env.Ordered() && size > 0
    ensures var all, ids := After(env, Keys(db, t), cursor), Page(env, db, t, cursor, size);
      |ids| <= |all| && ids == all[..|ids|] && (ids == [] <==> all == [])
  {
  }

  /** The database after the first `n` tables. */
  function Passes(env: Env, db: Db, n: nat, size: nat): Option<Db>
    requires env.Valid() && size > 0 && n <= |TABLES|
  {
    if n == 0 then Some(db)
    else
      match Passes(env, db, n - 1, size)
      case None => None
      case Some(d) => RunTable(env, d, TABLES[n - 1], "", size)
  }

  lemma {:induction false} RunFromPasses(env: Env, db: Db, n: nat, size: nat)
    requires env.Valid() && size > 0 && n <= |TABLES|
    ensures RunFrom(env, db, 0, "", size)
         == match Passes(env, db, n, size) case None => None case Some(d) => RunFrom(env, d, n, "", size)
  {
    hide RunTable;
    if n > 0 {
      RunFromPasses(env, db, n - 1, size);
    }
  }

  // ---------------------------------------------------------------- one table never undoes another

  lemma {:induction false} CreateChunksGrows(env: Env, chunks: map<string, Chunk>, turnId: string, userId: string, parts: seq<string>, i: nat)
    requires CreateChunks(env, chunks, turnId, userId, parts, i).Some?
    ensures var r := CreateChunks(env, chunks, turnId, userId, parts, i).value;
      && (forall c :: c in chunks ==> c in r && r[c] == chunks[c])
      && (forall c :: c in r && c !in chunks ==> r[c].turnId == turnId)
      && ((forall c :: c in r && c !in chunks ==> ChunkClean(env, r[c])) <==> forall p :: p in parts ==> Fixed(env.redactSource, p))
    decreases |parts|
  {
    if parts != [] {
      assert parts == [parts[0]] + parts[1..];
      var id, chunk := env.chunkId(turnId, i), Chunk(turnId, userId, i, parts[0], env.lower(parts[0]));
      var next := chunks[id := chunk];
      CreateChunksGrows(env, next, turnId, userId, parts[1..], i + 1);
      var r := CreateChunks(env, chunks, turnId, userId, parts, i).value;
      assert r[id] == chunk && id in r && id !in chunks;
      assert forall c :: c in r && c !in chunks ==> c == id || c !in next;
      assert forall c :: c in next <==> c in chunks || c == id;
    }
  }

  /** Rows another table's pass leaves as they were, and the ids it adds. */
  lemma StepElsewhere(env: Env, db: Db, t: Table, id: string, u: Table)
    requires env.Valid() && Step(env, db, t, id).Some? && t != u
    ensures var r := Step(env, db, t, id).value;
      && Keys(db, u) <= Keys(r, u)
      && (forall x :: x in Keys(db, u) && Settled(env, db, u, x) ==> Settled(env, r, u, x))
      && ((t.SessionTurn? && u.SessionTurnChunk?) || t.Semiote? || Keys(r, u) == Keys(db, u))
  {
    hide Keys, Settled, StepSemiote, StepMemory, StepChunk, StepTurn, StepRecord;
    match t
    case Semiote => SemioteElsewhere(env, db, id, u);
    case Memories => MemoriesElsewhere(env, db, id, u);
    case SessionTurnChunk => ChunksElsewhere(env, db, id, u);
    case SessionTurn => TurnElsewhere(env, db, id, u);
    case SourceTurnEvidence =>
    case _ => RecordElsewhere(env, db, t, id, u);
  }

  lemma MemoriesElsewhere(env: Env, db: Db, id: string, u: Table)
    requires StepMemory(env, db, id).Some? && !u.Memories?
    ensures var r := StepMemory(env, db, id).value;
      Keys(r, u) == Keys(db, u) && forall x :: x in Keys(db, u) && Settled(env, db, u, x) ==> Settled(env, r, u, x)
  {
    hide FactPayload, Rewritten, Clean, IdsIn;
  }

  lemma ChunksElsewhere(env: Env, db: Db, id: string, u: Table)
    requires StepChunk(env, db, id).Some? && !u.SessionTurnChunk?
    ensures var r := StepChunk(env, db, id).value;
      Keys(r, u) == Keys(db, u) && forall x :: x in Keys(db, u) && Settled(env, db, u, x) ==> Settled(env, r, u, x)
  {
    hide FactPayload, Clean, IdsIn;
  }

  lemma RecordElsewhere(env: Env, db: Db, t: Table, id: string, u: Table)
    requires env.Valid() && t != u && StepRecord(env, db, t, id).Some?
    ensures var r := StepRecord(env, db, t, id).value;
      && Keys(db, u) == Keys(r, u)
      && (forall x :: x in Keys(db, u) && Settled(env, db, u, x) ==> Settled(env, r, u, x))
  {
    hide Clean, FactPayload, ChunkClean, IdsIn, StepRecord;
    RecordFrame(env, db, t, id, u);
  }

  lemma RecordFrame(env: Env, db: Db, t: Table, id: string, u: Table)
    requires t != u && StepRecord(env, db, t, id).Some?
    ensures var r := StepRecord(env, db, t, id).value;
      && r == db.(records := r.records) && r.records.Keys == db.records.Keys
      && forall x :: (u, x) in db.records ==> r.records[(u, x)] == db.records[(u, x)]
  {
    hide Clean;
    var r := StepRecord(env, db, t, id).value;
    assert r.records.Keys == db.records.Keys;
  }

  lemma TurnElsewhere(env: Env, db: Db, id: string, u: Table)
    requires env.Valid() && StepTurn(env, db, id).Some? && !u.SessionTurn?
    ensures var r := StepTurn(env, db, id).value;
      && Keys(db, u) <= Keys(r, u)
      && (forall x :: x in Keys(db, u) && Settled(env, db, u, x) ==> Settled(env, r, u, x))
      && (u.SessionTurnChunk? || Keys(r, u) == Keys(db, u))
  {
    StepTurnShape(env, db, id);
  }

  /** A turn's step changes that turn and adds chunks. */
  lemma StepTurnShape(env: Env, db: Db, id: string)
    requires StepTurn(env, db, id).Some?
    ensures var r := StepTurn(env, db, id).value;
      && r.semiote == db.semiote && r.memories == db.memories && r.records == db.records && r.evidence == db.evidence
      && r.turns.Keys == db.turns.Keys && (forall o :: o in db.turns && o != id ==> r.turns[o] == db.turns[o])
      && (forall c :: c in db.chunks ==> c in r.chunks && r.chunks[c] == db.chunks[c])
      && (forall c :: c in r.chunks && c !in db.chunks ==> r.chunks[c].turnId == id)
      && ((forall c :: c in r.chunks && c !in db.chunks ==> ChunkClean(env, r.chunks[c])) <==> SplitsClean(env, db, id))
  {
    hide CreateChunks, ChunkClean;
    TurnFrame(env, db, id);
    var r := StepTurn(env, db, id).value;
    if id in db.turns && db.turns[id].content != "" && ChunksOf(db, id) == {} {
      hide StepTurn;
      CreateChunksGrows(env, db.chunks, id, db.turns[id].userId, env.split(env.redactSource(db.turns[id].content).value), 0);
    }
  }

  lemma TurnFrame(env: Env, db: Db, id: string)
    requires StepTurn(env, db, id).Some?
    ensures var r := StepTurn(env, db, id).value;
      && r.semiote == db.semiote && r.memories == db.memories && r.records == db.records && r.evidence == db.evidence
      && r.turns.Keys == db.turns.Keys && (forall o :: o in db.turns && o != id ==> r.turns[o] == db.turns[o])
      && (if id in db.turns && db.turns[id].content != "" && ChunksOf(db, id) == {} then
            && env.redactSource(db.turns[id].content).Some?
            && CreateChunks(env, db.chunks, id, db.turns[id].userId, env.split(env.redactSource(db.turns[id].content).value), 0) == Some(r.chunks)
          else r.chunks == db.chunks)
  {
    hide CreateChunks, ChunksOf, ChunkClean;
    NoParts(env, db.chunks, id, if id in db.turns then db.turns[id].userId else "");
  }

  lemma NoParts(env: Env, chunks: map<string, Chunk>, turnId: string, userId: string)
    ensures CreateChunks(env, chunks, turnId, userId, [], 0) == Some(chunks)
  {
  }

  /** The turn is split now and every part, redacted as a whole with the others, also is a
      fixed point of the redaction on its own. */
  ghost predicate SplitsClean(env: Env, db: Db, id: string) {
    id in db.turns && db.turns[id].content != "" && ChunksOf(db, id) == {} && env.redactSource(db.turns[id].content).Some? ==>
      forall p :: p in env.split(env.redactSource(db.turns[id].content).value) ==> Fixed(env.redactSource, p)
  }

  /** Nothing another table holds is lost or changed. */
  ghost predicate Grows(a: Db, b: Db) {
    && b.memories == a.memories && b.records == a.records
    && (forall c :: c in a.chunks ==> c in b.chunks && b.chunks[c] == a.chunks[c])
    && (forall o :: o in a.turns ==> o in b.turns && b.turns[o] == a.turns[o])
    && (forall v :: v in a.evidence ==> v in b.evidence)
  }

  lemma SemioteElsewhere(env: Env, db: Db, id: string, u: Table)
    requires env.Valid() && StepSemiote(env, db, id).Some? && !u.Semiote?
    ensures var r := StepSemiote(env, db, id).value;
      && Keys(db, u) <= Keys(r, u)
      && (forall x :: x in Keys(db, u) && Settled(env, db, u, x) ==> Settled(env, r, u, x))
  {
    hide StepSemiote;
    SemioteGrows(env, db, id);
  }

  lemma SemioteGrows(env: Env, db: Db, id: string)
    requires StepSemiote(env, db, id).Some?
    ensures Grows(db, StepSemiote(env, db, id).value)
  {
    hide Rewritten, FactPayload, AddTurn, Migration, StepSemiote, AddEvidence, MovedRow;
    SemioteStep(env, db, id);
    if id in db.semiote {
      var m := Migration(env, db.semiote[id]);
      if m.Some? && m.value.Source? {
        AddTurnGrows(env, db, m.value.turn);
        MovedParts(env, db, id, m.value.turn);
        EvidenceOnly(env, MovedRow(env, db, id, m.value.turn), id, m.value.turn);
      }
    }
  }

  lemma EvidenceOnly(env: Env, db: Db, id: string, t: SourceTurn)
    ensures var r := AddEvidence(env, db, id, t);
      r == db.(evidence := r.evidence) && db.evidence.Keys <= r.evidence.Keys
  {
  }

  /** The database with the row's turn added and its link set. */
  function MovedRow(env: Env, db: Db, id: string, t: SourceTurn): Db
    requires id in db.semiote && FactPayload(env, db.semiote[id].payload).Some? && AddTurn(env, db, t).Some?
  {
    var row, d := db.semiote[id], AddTurn(env, db, t).value;
    d.(semiote := d.semiote[id := Rewritten(env, row, FactPayload(env, row.payload).value,
                                            Some(Link(t.id, t.hmac, t.fingerprint, "legacy", env.version)))])
  }

  lemma MovedParts(env: Env, db: Db, id: string, t: SourceTurn)
    requires id in db.semiote && FactPayload(env, db.semiote[id].payload).Some? && AddTurn(env, db, t).Some?
    ensures var r, d := MovedRow(env, db, id, t), AddTurn(env, db, t).value;
      r == d.(semiote := r.semiote) && r.semiote == d.semiote[id := Rewritten(env, db.semiote[id], FactPayload(env, db.semiote[id].payload).value,
        Some(Link(t.id, t.hmac, t.fingerprint, "legacy", env.version)))]
  {
    hide FactPayload, Rewritten, AddTurn;
  }

  /** What the step of a row changes, with a turn to move and without. */
  lemma SemioteStep(env: Env, db: Db, id: string)
    requires StepSemiote(env, db, id).Some?
    ensures id !in db.semiote ==> StepSemiote(env, db, id) == Some(db)
    ensures id in db.semiote ==>
      var row, r := db.semiote[id], StepSemiote(env, db, id).value;
      var payload, m := FactPayload(env, row.payload), Migration(env, row);
      && payload.Some?
      && (if m.Some? && m.value.Source? then
            AddTurn(env, db, m.value.turn).Some? && r == AddEvidence(env, MovedRow(env, db, id, m.value.turn), id, m.value.turn)
          else if row.payload == payload.value then r == db
          else r == db.(semiote := db.semiote[id := Rewritten(env, row, payload.value, row.link)]))
  {
    hide FactPayload, Rewritten, Migration, AddTurn, AddEvidence;
  }

  lemma AddTurnGrows(env: Env, db: Db, t: SourceTurn)
    requires AddTurn(env, db, t).Some?
    ensures var r := AddTurn(env, db, t).value;
      && SameFacts(r, db)
      && (forall c :: c in db.chunks ==> c in r.chunks && r.chunks[c] == db.chunks[c])
      && (forall o :: o in db.turns ==> o in r.turns && r.turns[o] == db.turns[o])
  {
    if t.id !in db.turns {
      CreateChunksGrows(env, db.chunks, t.id, t.userId, env.split(t.content), 0);
    }
  }

  // ---------------------------------------------------------------- everything is reached

  ghost predicate AllSettled(env: Env, db: Db, t: Table) {
    forall x :: x in Keys(db, t) && x != "" ==> Settled(env, db, t, x)
  }

  lemma {:induction false} StepAllElsewhere(env: Env, db: Db, t: Table, ids: seq<string>, u: Table)
    requires env.Valid() && StepAll(env, db, t, ids).Some? && t != u && !t.Semiote?
    requires !(t.SessionTurn? && u.SessionTurnChunk?) && AllSettled(env, db, u)
    ensures AllSettled(env, StepAll(env, db, t, ids).value, u)
    decreases |ids|
  {
    hide Step, Settled, Keys;
    if ids != [] {
      StepElsewhere(env, db, t, ids[0], u);
      StepAllElsewhere(env, Step(env, db, t, ids[0]).value, t, ids[1..], u);
    }
  }

  lemma PassSettles(env: Env, db: Db, t: Table, size: nat)
    requires env.Valid() && size > 0 && RunTable(env, db, t, "", size).Some?
    ensures AllSettled(env, RunTable(env, db, t, "", size).value, t)
  {
    hide RunTable, Step, Settled, Keys, StepAll, After;
    var ids := After(env, Keys(db, t), "");
    RunTableIsStepAll(env, db, t, "", size);
    StepAllSettles(env, db, t, ids, {});
    StepAllKeys(env, db, t, ids);
  }

  lemma PassKeeps(env: Env, db: Db, t: Table, u: Table, size: nat)
    requires env.Valid() && size > 0 && RunTable(env, db, t, "", size).Some?
    requires t != u && !t.Semiote? && !(t.SessionTurn? && u.SessionTurnChunk?) && AllSettled(env, db, u)
    ensures AllSettled(env, RunTable(env, db, t, "", size).value, u)
  {
    hide RunTable, Step, Settled, Keys, StepAll, After;
    RunTableIsStepAll(env, db, t, "", size);
    StepAllElsewhere(env, db, t, After(env, Keys(db, t), ""), u);
  }

  /** After the first `n` tables every row of those tables is settled, also the rows that
      earlier passes created in them; the chunk table only until turns are split. */
  lemma {:induction false} PassesSettle(env: Env, db: Db, n: nat, size: nat, k: nat)
    requires env.Valid() && size > 0 && k < n <= |TABLES| && Passes(env, db, n, size).Some?
    requires TABLES[k] == SessionTurnChunk ==> n <= 6
    ensures AllSettled(env, Passes(env, db, n, size).value, TABLES[k])
    decreases n
  {
    hide RunTable, AllSettled;
    var d := Passes(env, db, n - 1, size).value;
    if k == n - 1 {
      PassSettles(env, d, TABLES[k], size);
    } else {
      PassesSettle(env, db, n - 1, size, k);
      PassKeeps(env, d, TABLES[n - 1], TABLES[k], size);
    }
  }

  /** The scrub reaches every row: after a finished run each row of each table but
      session_turn_chunk is settled. */
  lemma EveryRowScrubbed(env: Env, db: Db, size: nat, t: Table)
    requires env.Valid() && size > 0 && RunFrom(env, db, 0, "", size).Some? && !t.SessionTurnChunk?
    ensures AllSettled(env, RunFrom(env, db, 0, "", size).value, t)
  {
    hide RunTable, AllSettled, Passes;
    RunFromPasses(env, db, |TABLES|, size);
    var k := IndexOf(t);
    PassesSettle(env, db, |TABLES|, size, k);
  }

  function IndexOf(t: Table): (k: nat)
    ensures k < |TABLES| && TABLES[k] == t
  {
    match t
    case Semiote => 0
    case Noema => 1
    case Memories => 2
    case RejectionLog => 3
    case RetrievalTrace => 4
    case SessionTurnChunk => 5
    case SessionTurn => 6
    case SourceTurnEvidence => 7
  }

  // ---------------------------------------------------------------- the chunks

  ghost predicate ChunksClean(env: Env, db: Db) {
    forall c :: c in db.chunks ==> ChunkClean(env, db.chunks[c])
  }

  lemma SplitElsewhere(env: Env, db: Db, id: string, other: string)
    requires StepTurn(env, db, id).Some? && other != id
    ensures SplitsClean(env, StepTurn(env, db, id).value, other) <==> SplitsClean(env, db, other)
  {
    StepTurnShape(env, db, id);
    var r := StepTurn(env, db, id).value;
    assert ChunksOf(r, other) == ChunksOf(db, other);
  }

  lemma {:induction false} SplitAll(env: Env, db: Db, ids: seq<string>)
    requires env.Valid() && StepAll(env, db, SessionTurn, ids).Some?
    ensures ChunksClean(env, StepAll(env, db, SessionTurn, ids).value)
       <==> ChunksClean(env, db) && forall id :: id in ids ==> SplitsClean(env, db, id)
    decreases |ids|
  {
    hide StepTurn, SplitsClean, ChunkClean;
    if ids != [] {
      var id, next := ids[0], Step(env, db, SessionTurn, ids[0]).value;
      assert ids == [id] + ids[1..];
      SplitAll(env, next, ids[1..]);
      StepTurnShape(env, db, id);
      SplitDone(env, db, id);
      forall other | other != id
        ensures SplitsClean(env, next, other) <==> SplitsClean(env, db, other)
      {
        SplitElsewhere(env, db, id, other);
      }
    }
  }

  lemma SplitDone(env: Env, db: Db, id: string)
    requires env.Valid() && StepTurn(env, db, id).Some?
    ensures SplitsClean(env, StepTurn(env, db, id).value, id)
  {
  }

  /** The chunk table ends clean exactly when every turn that is still to be split after the
      chunk pass splits into parts that redaction leaves alone. */
  lemma ChunksEndClean(env: Env, db: Db, size: nat, d: Db, end: Db)
    requires env.Valid() && size > 0 && RunFrom(env, db, 0, "", size) == Some(end)
    requires Passes(env, db, 6, size) == Some(d) && "" !in d.turns && "" !in d.chunks
    ensures ChunksClean(env, end) <==> forall id :: id in d.turns ==> SplitsClean(env, d, id)
  {
    hide RunFrom, RunTable, Step, Passes, SplitsClean, After, StepAll, ChunkClean;
    RunFromPasses(env, db, 6, size);
    PassesSettle(env, db, 6, size, 5);
    forall c | c in d.chunks
      ensures ChunkClean(env, d.chunks[c])
    {
      assert TABLES[5] == SessionTurnChunk && c in Keys(d, SessionTurnChunk);
      assert Settled(env, d, SessionTurnChunk, c);
    }
    LastTables(env, d, size, end);
    var ids := After(env, Keys(d, SessionTurn), "");
    SplitAll(env, d, ids);
    assert forall id :: id in ids <==> id in d.turns;
  }

  /** The evidence pass changes nothing, so the end is what the turn pass leaves. */
  lemma LastTables(env: Env, d: Db, size: nat, end: Db)
    requires env.Valid() && size > 0 && RunFrom(env, d, 6, "", size) == Some(end)
    ensures StepAll(env, d, SessionTurn, After(env, Keys(d, SessionTurn), "")) == Some(end)
  {
    hide RunTable, Step, After, StepAll, Settled;
    RunTableIsStepAll(env, d, SessionTurn, "", size);
    var e := RunTable(env, d, SessionTurn, "", size).value;
    RunTableIsStepAll(env, e, SourceTurnEvidence, "", size);
    EvidenceIdle(env, e, After(env, Keys(e, SourceTurnEvidence), ""));
  }

  lemma EvidenceIdle(env: Env, e: Db, ids: seq<string>)
    requires env.Valid()
    ensures StepAll(env, e, SourceTurnEvidence, ids) == Some(e)
  {
    SettledAll(env, e, SourceTurnEvidence, ids);
  }
}
