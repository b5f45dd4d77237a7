/** What a finished scrub has made of every row that was there when it began
    (scripts/source-layer/scrub.ts:106-303). */
module ScrubFinal {
  import opened OrderedMap
  import opened JsonValues
  import opened ScrubValues
  import opened ScrubRecords
  import opened ScrubRows
  import opened ScrubOrder
  import opened ScrubResume
  import opened ScrubComplete
  import opened ScrubMeaning

  // ---------------------------------------------------------------- one row

  /** The fields of a payload as they are read: legacy text is parsed, null counts as empty. */
  predicate ReadAs(env: Env, payload: Json, fs: seq<Field>) {
    match payload
    case Null => fs == []
    case Obj(gs) => fs == gs
    case Str(s) => env.parse(s) == Some(Obj(fs)) || (env.parse(s) == Some(Null) && fs == [])
    case _ => false
  }

  /** The text of a row: l2, else data, else nothing. */
  predicate TextIs(env: Env, fs: seq<Field>, text: string) {
    var l2, data := GetField(fs, "l2"), GetField(fs, "data");
    if !Missing(l2) then text == env.show(l2.value)
    else if !Missing(data) then text == env.show(data.value)
    else text == ""
  }

  /** A semiote or memories row: the payload is redacted, norm and embedding follow a changed text and
      stay otherwise, and the other columns stay. */
  ghost predicate FactScrubbed(env: Env, before: Fact, after: Fact) {
    exists fs: seq<Field> :: ReadAs(env, before.payload, fs) && FactFrom(env, before, fs, after)
  }

  ghost predicate FactFrom(env: Env, before: Fact, fs: seq<Field>, after: Fact) {
    && Redacts(env, "payload", Obj(fs), Some(after.payload)) && after.payload.Obj?
    && after.columns == before.columns
    && forall old_, text :: TextIs(env, fs, old_) && TextIs(env, after.payload.fields, text) ==>
         && after.norm == (if text == old_ then before.norm else env.norm(text))
         && after.embedding == (if text == old_ then before.embedding else if text == "" then None else env.embed(text))
  }

  datatype Row = FactRow(fact: Fact) | RecordRow(record: Record) | ChunkRow(chunk: Chunk) | TurnRow(turn: Turn) | NoRow

  function RowAt(db: Db, t: Table, id: string): Row {
    match t
    case Semiote => if id in db.semiote then FactRow(db.semiote[id]) else NoRow
    case Memories => if id in db.memories then FactRow(db.memories[id]) else NoRow
    case SessionTurnChunk => if id in db.chunks then ChunkRow(db.chunks[id]) else NoRow
    case SessionTurn => if id in db.turns then TurnRow(db.turns[id]) else NoRow
    case SourceTurnEvidence => NoRow
    case _ => if (t, id) in db.records then RecordRow(db.records[(t, id)]) else NoRow
  }

  /** What the scrub makes of a row of each table. A memory keeps its link. */
  ghost predicate Scrubbed(env: Env, t: Table, before: Row, after: Row) {
    match before
    case FactRow(f) => after.FactRow? && FactScrubbed(env, f, after.fact) && (t.Memories? ==> after.fact.link == f.link)
    case RecordRow(r) => after.RecordRow? && RecordRedacts(env, r, after.record)
    case ChunkRow(ch) =>
      after.ChunkRow? && env.redactSource(ch.content).Some?
      && after.chunk == ch.(content := env.redactSource(ch.content).value, norm := env.lower(env.redactSource(ch.content).value))
    case TurnRow(u) => after == TurnRow(if u.content == "" then u else u.(content := "", version := env.version))
    case NoRow => true
  }

  lemma TextIsOne(env: Env, fs: seq<Field>, a: string)
    requires TextIs(env, fs, a)
    ensures TextOf(env, Obj(fs)) == a
  {
  }

  lemma RowFollows(env: Env, row: Fact, payload: Json, link: Option<Link>)
    requires FactPayload(env, row.payload) == Some(payload) && payload.Obj?
    ensures FactScrubbed(env, row, Rewritten(env, row, payload, link))
    ensures row.payload == payload ==> FactScrubbed(env, row, row)
  {
    hide Scrub, Redacts, TextOf, TextIs;
    var original := Original(env, row.payload).value;
    var fs := if original.Null? then [] else original.fields;
    assert ReadAs(env, row.payload, fs);
    PayloadRedacts(env, row.payload, fs);
    NullText(env);
    forall a, b | TextIs(env, fs, a) && TextIs(env, payload.fields, b)
      ensures TextOf(env, original) == a && TextOf(env, payload) == b
    {
      TextIsOne(env, fs, a);
      TextIsOne(env, payload.fields, b);
    }
    assert FactFrom(env, row, fs, Rewritten(env, row, payload, link));
  }

  lemma NullText(env: Env)
    ensures TextOf(env, Null) == TextOf(env, Obj([])) == ""
  {
  }

  lemma PayloadRedacts(env: Env, payload: Json, fs: seq<Field>)
    requires ReadAs(env, payload, fs) && FactPayload(env, payload).Some?
    requires Original(env, payload) == Some(Obj(fs)) || (Original(env, payload) == Some(Null) && fs == [])
    ensures Redacts(env, "payload", Obj(fs), FactPayload(env, payload))
  {
    PayloadField();
    ScrubRedacts(env, "payload", Obj(fs));
  }

  // ---------------------------------------------------------------- one step

  /** Every row that is there, of any table but the evidence, is left as it is by the step of
      another row, and scrubbed by its own. */
  ghost predicate StepsTo(env: Env, db: Db, next: Db, t: Table, id: string) {
    forall u, x :: RowAt(db, u, x) != NoRow ==>
      if u == t && x == id then Scrubbed(env, t, RowAt(db, u, x), RowAt(next, u, x)) else RowAt(next, u, x) == RowAt(db, u, x)
  }

  lemma StepRows(env: Env, db: Db, t: Table, id: string)
    requires env.Valid() && Step(env, db, t, id).Some?
    ensures StepsTo(env, db, Step(env, db, t, id).value, t, id)
  {
    hide StepSemiote, StepMemory, StepChunk, StepTurn, StepRecord, StepsTo;
    match t
    case Semiote => SemioteRows(env, db, id);
    case Memories => MemoryRows(env, db, id);
    case SessionTurnChunk => ChunkRows(env, db, id);
    case SessionTurn => TurnRows(env, db, id);
    case SourceTurnEvidence => SameRows(env, db, t, id);
    case _ => RecordRows(env, db, t, id);
  }

  lemma SameRows(env: Env, db: Db, t: Table, id: string)
    requires t.SourceTurnEvidence?
    ensures StepsTo(env, db, db, t, id)
  {
  }

  lemma SemioteRows(env: Env, db: Db, id: string)
    requires env.Valid() && StepSemiote(env, db, id).Some?
    ensures StepsTo(env, db, StepSemiote(env, db, id).value, Semiote, id)
  {
    hide StepSemiote, FactScrubbed;
    SemioteGrows(env, db, id);
    if id in db.semiote {
      SemioteRow(env, db, id);
    } else {
      StepSemioteAbsent(env, db, id);
    }
  }

  lemma SemioteRow(env: Env, db: Db, id: string)
    requires env.Valid() && id in db.semiote && StepSemiote(env, db, id).Some?
    ensures var r := StepSemiote(env, db, id).value;
      && r.semiote.Keys == db.semiote.Keys && (forall x :: x in db.semiote && x != id ==> r.semiote[x] == db.semiote[x])
      && FactScrubbed(env, db.semiote[id], r.semiote[id])
  {
    hide StepSemiote, FactPayload, Rewritten, FactScrubbed, AddTurn, AddEvidence, Migration, MovedRow;
    SemioteStep(env, db, id);
    var row, m := db.semiote[id], Migration(env, db.semiote[id]);
    FactPayloadAgain(env, row.payload);
    var payload := FactPayload(env, row.payload).value;
    RowFollows(env, row, payload, row.link);
    if m.Some? && m.value.Source? {
      var t := m.value.turn;
      AddTurnGrows(env, db, t);
      MovedParts(env, db, id, t);
      EvidenceOnly(env, MovedRow(env, db, id, t), id, t);
      RowFollows(env, row, payload, Some(Link(t.id, t.hmac, t.fingerprint, "legacy", env.version)));
    }
  }

  lemma MemoryRows(env: Env, db: Db, id: string)
    requires env.Valid() && StepMemory(env, db, id).Some?
    ensures StepsTo(env, db, StepMemory(env, db, id).value, Memories, id)
  {
    hide FactPayload, FactScrubbed;
    if id in db.memories {
      var row := db.memories[id];
      FactPayloadAgain(env, row.payload);
      RowFollows(env, row, FactPayload(env, row.payload).value, row.link);
    }
  }

  lemma ChunkRows(env: Env, db: Db, id: string)
    requires StepChunk(env, db, id).Some?
    ensures StepsTo(env, db, StepChunk(env, db, id).value, SessionTurnChunk, id)
  {
  }

  lemma TurnRows(env: Env, db: Db, id: string)
    requires StepTurn(env, db, id).Some?
    ensures StepsTo(env, db, StepTurn(env, db, id).value, SessionTurn, id)
  {
    hide StepTurn;
    StepTurnShape(env, db, id);
    if id in db.turns {
      TurnEmptied(env, db, id);
    }
  }

  lemma TurnEmptied(env: Env, db: Db, id: string)
    requires StepTurn(env, db, id).Some? && id in db.turns
    ensures var u, r := db.turns[id], StepTurn(env, db, id).value;
      id in r.turns && r.turns[id] == if u.content == "" then u else u.(content := "", version := env.version)
  {
    hide CreateChunks, ChunksOf, ChunkClean;
  }

  lemma RecordRows(env: Env, db: Db, t: Table, id: string)
    requires env.Valid() && (t.Noema? || t.RejectionLog? || t.RetrievalTrace?) && StepRecord(env, db, t, id).Some?
    ensures StepsTo(env, db, StepRecord(env, db, t, id).value, t, id)
  {
    hide Clean, RecordRedacts;
    if (t, id) in db.records {
      RecordIsRedacted(env, db.records[(t, id)]);
    }
  }

  // ---------------------------------------------------------------- all steps of a table

  /** The rows after the ids of one table were processed. */
  ghost predicate PassesTo(env: Env, db: Db, next: Db, t: Table, ids: seq<string>) {
    forall u, x :: RowAt(db, u, x) != NoRow ==>
      if u == t && x in ids then Scrubbed(env, t, RowAt(db, u, x), RowAt(next, u, x)) else RowAt(next, u, x) == RowAt(db, u, x)
  }

  lemma {:induction false} StepAllRows(env: Env, db: Db, t: Table, ids: seq<string>)
    requires env.Valid() && StepAll(env, db, t, ids).Some? && forall i, j :: 0 <= i < j < |ids| ==> ids[i] != ids[j]
    ensures PassesTo(env, db, StepAll(env, db, t, ids).value, t, ids)
    decreases |ids|
  {
    hide Step, RowAt, Scrubbed;
    if ids != [] {
      var next := Step(env, db, t, ids[0]).value;
      assert ids == [ids[0]] + ids[1..];
      StepRows(env, db, t, ids[0]);
      StepAllRows(env, next, t, ids[1..]);
      ThenPass(env, db, next, StepAll(env, db, t, ids).value, t, ids);
    }
  }

  lemma ThenPass(env: Env, db: Db, next: Db, end: Db, t: Table, ids: seq<string>)
    requires ids != [] && ids[0] !in ids[1..]
    requires StepsTo(env, db, next, t, ids[0]) && PassesTo(env, next, end, t, ids[1..])
    ensures PassesTo(env, db, end, t, ids)
  {
    hide RowAt, Scrubbed;
    assert ids == [ids[0]] + ids[1..];
    forall u, x | RowAt(db, u, x) != NoRow
      ensures if u == t && x in ids then Scrubbed(env, t, RowAt(db, u, x), RowAt(end, u, x)) else RowAt(end, u, x) == RowAt(db, u, x)
    {
      if u == t && x == ids[0] {
        StillARow(env, t, RowAt(db, u, x), RowAt(next, u, x));
      }
    }
  }

  lemma StillARow(env: Env, t: Table, before: Row, after: Row)
    requires before != NoRow && Scrubbed(env, t, before, after)
    ensures after != NoRow
  {
    hide FactScrubbed, RecordRedacts;
  }

  lemma TableRows(env: Env, db: Db, t: Table, size: nat)
    requires env.Valid() && size > 0 && RunTable(env, db, t, "", size).Some?
    ensures PassesTo(env, db, RunTable(env, db, t, "", size).value, t, After(env, Keys(db, t), ""))
  {
    hide RunTable, Step, Keys, StepAll, After, PassesTo;
    var ids := After(env, Keys(db, t), "");
    RunTableIsStepAll(env, db, t, "", size);
    forall i, j | 0 <= i < j < |ids|
      ensures ids[i] != ids[j]
    {
      AfterDistinct(env, Keys(db, t), "", i, j);
    }
    StepAllRows(env, db, t, ids);
  }

  // ---------------------------------------------------------------- the whole scrub

  /** The rows after the first `n` tables: those of a table that was visited are scrubbed, the others are as
      they were. Paging starts behind the empty id. */
  ghost predicate TablesTo(env: Env, db: Db, next: Db, n: nat)
    requires n <= |TABLES|
  {
    forall k, x :: 0 <= k < |TABLES| && x != "" && RowAt(db, TABLES[k], x) != NoRow ==>
      if k < n then Scrubbed(env, TABLES[k], RowAt(db, TABLES[k], x), RowAt(next, TABLES[k], x))
      else RowAt(next, TABLES[k], x) == RowAt(db, TABLES[k], x)
  }

  lemma {:induction false} PassesRows(env: Env, db: Db, n: nat, size: nat)
    requires env.Valid() && size > 0 && n <= |TABLES| && Passes(env, db, n, size).Some?
    ensures TablesTo(env, db, Passes(env, db, n, size).value, n)
  {
    hide RunTable, RowAt, Scrubbed;
    if n > 0 {
      var d := Passes(env, db, n - 1, size).value;
      PassesRows(env, db, n - 1, size);
      TableRows(env, d, TABLES[n - 1], size);
      ThenTable(env, db, d, Passes(env, db, n, size).value, n);
    }
  }

  lemma ThenTable(env: Env, db: Db, d: Db, end: Db, n: nat)
    requires env.Valid() && 0 < n <= |TABLES| && TablesTo(env, db, d, n - 1)
    requires PassesTo(env, d, end, TABLES[n - 1], After(env, Keys(d, TABLES[n - 1]), ""))
    ensures TablesTo(env, db, end, n)
  {
    hide RowAt, Scrubbed, After, Keys;
    forall k, x | 0 <= k < |TABLES| && x != "" && RowAt(db, TABLES[k], x) != NoRow
      ensures if k < n then Scrubbed(env, TABLES[k], RowAt(db, TABLES[k], x), RowAt(end, TABLES[k], x))
              else RowAt(end, TABLES[k], x) == RowAt(db, TABLES[k], x)
    {
      TablesApart(k, n - 1);
      if k < n - 1 {
        StillARow(env, TABLES[k], RowAt(db, TABLES[k], x), RowAt(d, TABLES[k], x));
      } else if k == n - 1 {
        RowListed(env, d, TABLES[k], x);
      }
    }
  }

  lemma TablesApart(i: nat, j: nat)
    requires i < |TABLES| && j < |TABLES|
    ensures TABLES[i] == TABLES[j] <==> i == j
  {
  }

  lemma RowListed(env: Env, db: Db, t: Table, x: string)
    requires env.Ordered() && x != "" && RowAt(db, t, x) != NoRow
    ensures x in After(env, Keys(db, t), "")
  {
    assert x in Keys(db, t) by {
      if t.Noema? || t.RejectionLog? || t.RetrievalTrace? {
        assert (t, x) in db.records.Keys && (t, x).0 == t;
      }
    }
  }

  /** A finished scrub has scrubbed, exactly once and as a whole, every row that was there when it
      began. */
  ghost predicate AllScrubbed(env: Env, db: Db, end: Db) {
    forall t, x :: x != "" && RowAt(db, t, x) != NoRow ==> Scrubbed(env, t, RowAt(db, t, x), RowAt(end, t, x))
  }

  lemma ScrubbedRows(env: Env, db: Db, size: nat, end: Db)
    requires env.Valid() && size > 0 && RunFrom(env, db, 0, "", size) == Some(end)
    ensures AllScrubbed(env, db, end)
  {
    hide RunTable, RowAt, Scrubbed, Passes;
    RunFromPasses(env, db, |TABLES|, size);
    PassesRows(env, db, |TABLES|, size);
    forall t, x | x != "" && RowAt(db, t, x) != NoRow
      ensures Scrubbed(env, t, RowAt(db, t, x), RowAt(end, t, x))
    {
      var k := IndexOf(t);
      assert TABLES[k] == t;
    }
  }
}
