/** What the scrub moves and what it keeps true: text taken out of a header or a payload is in the
    turn's chunks, links name turns with their hmac, and norms follow their text
    (scripts/source-layer/scrub.ts:139-303). */
module ScrubMoves {
  import opened OrderedMap
  import opened Sequences
  import opened JsonValues
  import opened ScrubValues
  import opened ScrubRecords
  import opened ScrubRows
  import opened ScrubOrder
  import opened ScrubResume
  import opened ScrubComplete

  /** The chunks of a turn are exactly these parts: every position once, none missing
      (src/storage/surreal/verified-source-turns.ts:102-103). */
  ghost predicate Holds(chunks: map<string, Chunk>, turnId: string, parts: seq<string>) {
    && (forall c :: At(chunks, c, turnId) ==> chunks[c].index < |parts| && chunks[c].content == parts[chunks[c].index])
    && (forall k :: 0 <= k < |parts| ==> Filled(chunks, turnId, k))
    && (forall c, o :: At(chunks, c, turnId) && At(chunks, o, turnId) && chunks[c].index == chunks[o].index ==> c == o)
  }

  predicate At(chunks: map<string, Chunk>, c: string, turnId: string) {
    c in chunks && chunks[c].turnId == turnId
  }

  ghost predicate Filled(chunks: map<string, Chunk>, turnId: string, k: nat) {
    exists c :: At(chunks, c, turnId) && chunks[c].index == k
  }

  /** Reading the turn's chunks in order gives this text. */
  ghost predicate Spells(chunks: map<string, Chunk>, turnId: string, text: string) {
    exists parts :: Holds(chunks, turnId, parts) && Concat(parts) == text
  }

  /** Splitting loses nothing, and a turn's chunks have ids of their own. */
  ghost predicate Splits(env: Env) {
    && (forall s :: Concat(env.split(s)) == s)
    && (forall t, i, j :: i != j ==> env.chunkId(t, i) != env.chunkId(t, j))
  }

  /** Creating chunks succeeds exactly when no id and no position is taken, adds exactly the
      parts in order, and changes no other chunk. */
  lemma {:induction false} Created(env: Env, chunks: map<string, Chunk>, turnId: string, userId: string, parts: seq<string>, i: nat)
    requires Splits(env)
    ensures CreateChunks(env, chunks, turnId, userId, parts, i).Some?
       <==> forall k: nat :: i <= k < i + |parts| ==> !Taken(chunks, env.chunkId(turnId, k), turnId, k)
    ensures CreateChunks(env, chunks, turnId, userId, parts, i).Some? ==>
      Extended(env, chunks, CreateChunks(env, chunks, turnId, userId, parts, i).value, turnId, userId, parts, i)
    decreases |parts|
  {
    if parts != [] {
      var id := env.chunkId(turnId, i);
      var next := chunks[id := Chunk(turnId, userId, i, parts[0], env.lower(parts[0]))];
      Created(env, next, turnId, userId, parts[1..], i + 1);
      if !Taken(chunks, id, turnId, i) {
        forall k: nat | i < k
          ensures Taken(next, env.chunkId(turnId, k), turnId, k) <==> Taken(chunks, env.chunkId(turnId, k), turnId, k)
        {
          assert env.chunkId(turnId, k) != id;
          forall c | c in chunks
            ensures c in next && (c != id ==> next[c] == chunks[c])
          {
          }
        }
      }
    }
  }

  ghost predicate Extended(env: Env, a: map<string, Chunk>, b: map<string, Chunk>, turnId: string, userId: string, parts: seq<string>, i: nat) {
    && (forall c :: c in a ==> c in b && b[c] == a[c])
    && (forall k: nat :: i <= k < i + |parts| ==>
          env.chunkId(turnId, k) in b && b[env.chunkId(turnId, k)] == Chunk(turnId, userId, k, parts[k - i], env.lower(parts[k - i])))
    && (forall c :: c in b && c !in a ==> exists k: nat :: i <= k < i + |parts| && c == env.chunkId(turnId, k))
  }

  /** A turn without chunks holds exactly the created parts. */
  lemma CreatedHolds(env: Env, a: map<string, Chunk>, b: map<string, Chunk>, turnId: string, userId: string, parts: seq<string>)
    requires Extended(env, a, b, turnId, userId, parts, 0) && forall c :: c in a ==> a[c].turnId != turnId
    ensures Holds(b, turnId, parts)
  {
    forall c | At(b, c, turnId)
      ensures b[c].index < |parts| && b[c].content == parts[b[c].index] && c == env.chunkId(turnId, b[c].index)
    {
      var k: nat :| k < |parts| && c == env.chunkId(turnId, k);
    }
    forall k: nat | k < |parts|
      ensures Filled(b, turnId, k)
    {
      assert At(b, env.chunkId(turnId, k), turnId);
    }
  }

  // ---------------------------------------------------------------- turn headers

  /** Removing a header keeps its redacted text exactly when the turn had no chunks yet, or
      they already spell it: existing chunks are only required to be clean. */
  lemma HeaderMoves(env: Env, db: Db, id: string)
    requires Splits(env) && id in db.turns && db.turns[id].content != "" && StepTurn(env, db, id).Some?
    ensures env.redactSource(db.turns[id].content).Some?
    ensures Spells(StepTurn(env, db, id).value.chunks, id, env.redactSource(db.turns[id].content).value)
       <==> ChunksOf(db, id) == {} || Spells(db.chunks, id, env.redactSource(db.turns[id].content).value)
  {
    hide CreateChunks, ChunkClean, Spells;
    var row, after := db.turns[id], StepTurn(env, db, id).value.chunks;
    var text := env.redactSource(row.content).value;
    if ChunksOf(db, id) == {} {
      Created(env, db.chunks, id, row.userId, env.split(text), 0);
      forall c | c in db.chunks
        ensures db.chunks[c].turnId != id
      {
        assert c !in ChunksOf(db, id);
      }
      CreatedHolds(env, db.chunks, after, id, row.userId, env.split(text));
      Spelled(after, id, env.split(text));
    } else {
      Created(env, db.chunks, id, row.userId, [], 0);
      assert after == db.chunks;
    }
  }

  lemma Spelled(chunks: map<string, Chunk>, turnId: string, parts: seq<string>)
    requires Holds(chunks, turnId, parts)
    ensures Spells(chunks, turnId, Concat(parts))
  {
  }

  /** It can fail: a turn whose clean chunk spells something else loses its header. */
  lemma HeaderLost(env: Env, header: string, part: string) returns (db: Db)
    requires env.Valid() && header != "" && header != part
    requires Fixed(env.redactSource, header) && Fixed(env.redactSource, part) && Fixed(env.redactSource, env.lower(part))
    ensures "t" in db.turns && db.turns["t"].content == header && StepTurn(env, db, "t").Some?
    ensures !Spells(StepTurn(env, db, "t").value.chunks, "t", header)
  {
    var chunks := map["c" := Chunk("t", "u", 0, part, env.lower(part))];
    db := Db(map[], map[], map[], chunks, map["t" := Turn("u", "h", "k", header, "v")], map[]);
    assert "c" in ChunksOf(db, "t") && !Filled(chunks, "t", 1);
    forall parts | Holds(chunks, "t", parts)
      ensures Concat(parts) == part
    {
      assert At(chunks, "c", "t") && |parts| <= 1;
      assert parts == [part] && parts[1..] == [];
    }
  }

  /** The steps of other turns leave a turn's chunks alone. */
  lemma OtherTurn(env: Env, db: Db, other: string, id: string, text: string)
    requires StepTurn(env, db, other).Some? && other != id
    ensures var r := StepTurn(env, db, other).value;
      && Spells(r.chunks, id, text) == Spells(db.chunks, id, text) && ChunksOf(r, id) == ChunksOf(db, id)
      && (id in db.turns ==> id in r.turns && r.turns[id] == db.turns[id])
  {
    hide StepTurn;
    StepTurnShape(env, db, other);
    var r := StepTurn(env, db, other).value;
    SameSpelling(db.chunks, r.chunks, id, text);
  }

  lemma SameSpelling(a: map<string, Chunk>, b: map<string, Chunk>, id: string, text: string)
    requires forall c :: c in a ==> c in b && b[c] == a[c]
    requires forall c :: c in b && c !in a ==> b[c].turnId != id
    ensures Spells(a, id, text) == Spells(b, id, text)
  {
    assert forall c :: At(a, c, id) <==> At(b, c, id);
    assert forall k: nat :: Filled(a, id, k) <==> Filled(b, id, k);
    assert forall parts :: Holds(a, id, parts) <==> Holds(b, id, parts);
  }

  lemma {:induction false} HeaderMovesInPass(env: Env, db: Db, ids: seq<string>, id: string)
    requires Splits(env) && StepAll(env, db, SessionTurn, ids).Some? && id in db.turns && db.turns[id].content != ""
    requires (forall i, j :: 0 <= i < j < |ids| ==> ids[i] != ids[j]) && id in ids
    ensures env.redactSource(db.turns[id].content).Some?
    ensures Spells(StepAll(env, db, SessionTurn, ids).value.chunks, id, env.redactSource(db.turns[id].content).value)
       <==> ChunksOf(db, id) == {} || Spells(db.chunks, id, env.redactSource(db.turns[id].content).value)
    decreases |ids|
  {
    hide StepTurn, Spells, ChunksOf, Splits;
    assert ids == [ids[0]] + ids[1..];
    var next := StepTurn(env, db, ids[0]).value;
    if ids[0] == id {
      HeaderMoves(env, db, id);
      OtherTurns(env, next, ids[1..], id, env.redactSource(db.turns[id].content).value);
    } else {
      OtherTurn(env, db, ids[0], id, "");
      HeaderMovesInPass(env, next, ids[1..], id);
      OtherTurn(env, db, ids[0], id, env.redactSource(db.turns[id].content).value);
    }
  }

  lemma {:induction false} OtherTurns(env: Env, db: Db, ids: seq<string>, id: string, text: string)
    requires StepAll(env, db, SessionTurn, ids).Some? && id !in ids
    ensures Spells(StepAll(env, db, SessionTurn, ids).value.chunks, id, text) == Spells(db.chunks, id, text)
    decreases |ids|
  {
    hide StepTurn, Spells;
    if ids != [] {
      assert ids == [ids[0]] + ids[1..];
      OtherTurn(env, db, ids[0], id, text);
      OtherTurns(env, StepTurn(env, db, ids[0]).value, ids[1..], id, text);
    }
  }

  /** After a finished scrub, a turn that still had a header when the session_turn pass began
      is spelled by its chunks exactly when it had none then, or they already spelled it. */
  lemma HeadersEndInChunks(env: Env, db: Db, size: nat, d: Db, end: Db, id: string)
    requires env.Valid() && Splits(env) && size > 0 && RunFrom(env, db, 0, "", size) == Some(end)
    requires Passes(env, db, 6, size) == Some(d) && id != "" && id in d.turns && d.turns[id].content != ""
    ensures env.redactSource(d.turns[id].content).Some?
    ensures Spells(end.chunks, id, env.redactSource(d.turns[id].content).value)
       <==> ChunksOf(d, id) == {} || Spells(d.chunks, id, env.redactSource(d.turns[id].content).value)
  {
    hide RunFrom, RunTable, Step, Passes, After, StepAll, Spells, ChunksOf, Splits;
    RunFromPasses(env, db, 6, size);
    LastTables(env, d, size, end);
    var ids := After(env, Keys(d, SessionTurn), "");
    forall i, j | 0 <= i < j < |ids|
      ensures ids[i] != ids[j]
    {
      AfterDistinct(env, Keys(d, SessionTurn), "", i, j);
    }
    HeaderMovesInPass(env, d, ids, id);
  }

  // ---------------------------------------------------------------- raw source text

  /** A migrated row: the raw text leaves the payload, the link names a turn with the same
      owner, hmac and key, a turn made now is spelled by its chunks, and there is evidence if
      and only if the link is proven. */
  lemma SourceMoves(env: Env, db: Db, id: string, t: SourceTurn)
    requires env.Valid() && Splits(env) && id in db.semiote && StepSemiote(env, db, id).Some?
    requires Migration(env, db.semiote[id]) == Some(Source(t))
    ensures var r := StepSemiote(env, db, id).value;
      && Get(r.semiote[id].payload, "raw_source_text") == None
      && Anchor(r, Some(Link(t.id, t.hmac, t.fingerprint, "legacy", env.version)))
      && r.semiote[id].link == Some(Link(t.id, t.hmac, t.fingerprint, "legacy", env.version))
      && r.turns[t.id].userId == t.userId
      && (t.id in db.turns ==> r.turns == db.turns && r.chunks == db.chunks)
      && (t.id !in db.turns ==> r.turns == db.turns[t.id := Turn(t.userId, t.hmac, t.fingerprint, "", env.version)])
      && (t.id !in db.turns && ChunksOf(db, t.id) == {} ==> r.turns[t.id].content == "" && Spells(r.chunks, t.id, t.content))
      && (if t.proven then Proven(env, r, id, t) else r.evidence == db.evidence)
  {
    hide FactPayload, Rewritten, AddTurn, Spells, ChunksOf, Splits;
    FactPayloadAgain(env, db.semiote[id].payload);
    RewrittenParts(env, db.semiote[id], FactPayload(env, db.semiote[id].payload).value,
                   Some(Link(t.id, t.hmac, t.fingerprint, "legacy", env.version)));
    TurnAdded(env, db, t);
    if t.id !in db.turns && ChunksOf(db, t.id) == {} {
      TurnSpelled(env, db, t);
    }
  }

  lemma TurnAdded(env: Env, db: Db, t: SourceTurn)
    requires AddTurn(env, db, t).Some?
    ensures var r := AddTurn(env, db, t).value;
      && r.semiote == db.semiote && r.evidence == db.evidence && t.id in r.turns
      && r.turns[t.id].userId == t.userId && r.turns[t.id].hmac == t.hmac && r.turns[t.id].fingerprint == t.fingerprint
      && (t.id in db.turns ==> r == db) && (t.id !in db.turns ==> r.turns[t.id].content == "")
      && (t.id !in db.turns ==> r.turns == db.turns[t.id := Turn(t.userId, t.hmac, t.fingerprint, "", env.version)])
  {
    hide CreateChunks;
  }

  lemma TurnSpelled(env: Env, db: Db, t: SourceTurn)
    requires env.Valid() && Splits(env) && AddTurn(env, db, t).Some? && t.id !in db.turns && ChunksOf(db, t.id) == {}
    ensures Spells(AddTurn(env, db, t).value.chunks, t.id, t.content)
  {
    hide CreateChunks, Holds;
    Created(env, db.chunks, t.id, t.userId, env.split(t.content), 0);
    forall c | c in db.chunks
      ensures db.chunks[c].turnId != t.id
    {
      assert c !in ChunksOf(db, t.id);
    }
    var chunks := CreateChunks(env, db.chunks, t.id, t.userId, env.split(t.content), 0).value;
    CreatedHolds(env, db.chunks, chunks, t.id, t.userId, env.split(t.content));
    Spelled(chunks, t.id, env.split(t.content));
  }

  /** The raw text of a row is moved exactly if the payload is an object, not legacy text, with a
      raw text that is not blank and that can be prepared. */
  predicate MovesText(env: Env, row: Fact) {
    match Get(row.payload, "raw_source_text")
    case Some(Str(raw)) => !env.blank(raw) && env.prepare(row, raw).Source?
    case _ => false
  }

  /** The raw text always leaves the row; unless it is moved, no turn, chunk, evidence or link
      is made of it. */
  lemma RawTextSurvives(env: Env, db: Db, id: string)
    requires env.Valid() && id in db.semiote && StepSemiote(env, db, id).Some?
    ensures MovesText(env, db.semiote[id]) <==> exists t :: Migration(env, db.semiote[id]) == Some(Source(t))
    ensures var r := StepSemiote(env, db, id).value;
      && Get(r.semiote[id].payload, "raw_source_text") == None
      && (!MovesText(env, db.semiote[id]) ==>
            r == db.(semiote := r.semiote) && r.semiote[id].link == db.semiote[id].link)
  {
    hide FactPayload, Rewritten, AddTurn;
    var row := db.semiote[id];
    FactPayloadAgain(env, row.payload);
    RewrittenParts(env, row, FactPayload(env, row.payload).value, row.link);
    if MovesText(env, row) {
      var t := Migration(env, row).value.turn;
      assert Migration(env, row) == Some(Source(t));
      RewrittenParts(env, row, FactPayload(env, row.payload).value, Some(Link(t.id, t.hmac, t.fingerprint, "legacy", env.version)));
      AddTurnKeeps(env, db, t);
    }
  }

  lemma RewrittenParts(env: Env, row: Fact, payload: Json, link: Option<Link>)
    ensures Rewritten(env, row, payload, link).payload == payload && Rewritten(env, row, payload, link).link == link
  {
  }

  predicate Proven(env: Env, db: Db, id: string, t: SourceTurn) {
    var key := env.evidenceId(t.userId, id, t.id);
    key in db.evidence && db.evidence[key] == Evidence(t.userId, id, t.id, t.hmac, t.fingerprint)
  }

  // ---------------------------------------------------------------- what stays true

  /** A legacy link names an existing turn with the linked hmac and key. */
  predicate Anchor(db: Db, link: Option<Link>) {
    link.Some? && link.value.state == "legacy" ==>
      && link.value.turnId in db.turns
      && db.turns[link.value.turnId].hmac == link.value.hmac
      && db.turns[link.value.turnId].fingerprint == link.value.fingerprint
  }

  /** The norm is that of the row's text. */
  predicate NormFollows(env: Env, row: Fact) {
    var original := Original(env, row.payload);
    original.Some? ==> row.norm == env.norm(TextOf(env, original.value))
  }

  ghost predicate Consistent(env: Env, db: Db) {
    && (forall s :: s in db.semiote ==> Anchor(db, db.semiote[s].link))
    && (forall s :: s in db.semiote ==> NormFollows(env, db.semiote[s]))
    && (forall m :: m in db.memories ==> NormFollows(env, db.memories[m]))
  }

  lemma RewrittenFollows(env: Env, row: Fact, payload: Json, link: Option<Link>)
    requires NormFollows(env, row) && FactPayload(env, row.payload) == Some(payload) && payload.Obj?
    ensures NormFollows(env, Rewritten(env, row, payload, link))
  {
  }

  /** Turns keep their identity. */
  ghost predicate TurnsKeep(a: Db, b: Db) {
    forall t :: t in a.turns ==> t in b.turns && b.turns[t].hmac == a.turns[t].hmac && b.turns[t].fingerprint == a.turns[t].fingerprint
  }

  lemma AddTurnKeepsTurns(env: Env, db: Db, t: SourceTurn)
    requires AddTurn(env, db, t).Some?
    ensures var r := AddTurn(env, db, t).value;
      TurnsKeep(db, r) && SameFacts(r, db) && Anchor(r, Some(Link(t.id, t.hmac, t.fingerprint, "legacy", env.version)))
  {
  }

  lemma FactPut(env: Env, db: Db, r: Db, id: string, row: Fact)
    requires Consistent(env, db) && TurnsKeep(db, r) && r.semiote == db.semiote[id := row] && r.memories == db.memories
    requires Anchor(r, row.link) && NormFollows(env, row)
    ensures Consistent(env, r)
  {
    hide NormFollows;
  }

  lemma SemioteConsistent(env: Env, db: Db, id: string)
    requires env.Valid() && Consistent(env, db) && StepSemiote(env, db, id).Some?
    ensures Consistent(env, StepSemiote(env, db, id).value)
  {
    hide FactPayload, Rewritten, AddTurn, NormFollows, Consistent, Migration, Anchor, StepSemiote, AddEvidence, MovedRow;
    SemioteStep(env, db, id);
    if id in db.semiote {
      var row, r := db.semiote[id], StepSemiote(env, db, id).value;
      var m := Migration(env, row);
      FactPayloadAgain(env, row.payload);
      FactsOf(env, db, id);
      if m.Some? && m.value.Source? {
        var t := m.value.turn;
        var link := Some(Link(t.id, t.hmac, t.fingerprint, "legacy", env.version));
        AddTurnKeepsTurns(env, db, t);
        MovedParts(env, db, id, t);
        EvidenceOnly(env, MovedRow(env, db, id, t), id, t);
        AnchorTurns(AddTurn(env, db, t).value, r, link);
        RowConsistent(env, db, r, id, FactPayload(env, row.payload).value, link);
      } else if r != db {
        AnchorTurns(db, r, row.link);
        RowConsistent(env, db, r, id, FactPayload(env, row.payload).value, row.link);
      }
    }
  }

  lemma AnchorTurns(a: Db, b: Db, link: Option<Link>)
    requires Anchor(a, link) && a.turns == b.turns
    ensures Anchor(b, link)
  {
  }

  lemma RowConsistent(env: Env, db: Db, r: Db, id: string, payload: Json, link: Option<Link>)
    requires Consistent(env, db) && TurnsKeep(db, r) && r.memories == db.memories && Anchor(r, link) && id in db.semiote
    requires FactPayload(env, db.semiote[id].payload) == Some(payload) && payload.Obj?
    requires r.semiote == db.semiote[id := Rewritten(env, db.semiote[id], payload, link)]
    ensures Consistent(env, r)
  {
    hide FactPayload, Rewritten, NormFollows, Consistent, Anchor;
    var row := db.semiote[id];
    FactsOf(env, db, id);
    RewrittenFollows(env, row, payload, link);
    RewrittenParts(env, row, payload, link);
    FactPut(env, db, r, id, Rewritten(env, row, payload, link));
  }

  lemma FactsOf(env: Env, db: Db, id: string)
    requires Consistent(env, db) && id in db.semiote
    ensures Anchor(db, db.semiote[id].link) && NormFollows(env, db.semiote[id])
  {
  }

  lemma MemoryConsistent(env: Env, db: Db, id: string)
    requires env.Valid() && Consistent(env, db) && StepMemory(env, db, id).Some?
    ensures Consistent(env, StepMemory(env, db, id).value)
  {
    hide FactPayload, Rewritten, NormFollows;
    if id in db.memories {
      var row := db.memories[id];
      FactPayloadAgain(env, row.payload);
      RewrittenFollows(env, row, FactPayload(env, row.payload).value, row.link);
    }
  }

  lemma TurnConsistent(env: Env, db: Db, id: string)
    requires Consistent(env, db) && StepTurn(env, db, id).Some?
    ensures Consistent(env, StepTurn(env, db, id).value)
  {
    hide CreateChunks, NormFollows, ChunkClean;
  }

  lemma StepConsistent(env: Env, db: Db, t: Table, id: string)
    requires env.Valid() && Consistent(env, db) && Step(env, db, t, id).Some?
    ensures Consistent(env, Step(env, db, t, id).value)
  {
    hide StepSemiote, StepMemory, StepTurn, NormFollows;
    match t
    case Semiote => SemioteConsistent(env, db, id);
    case Memories => MemoryConsistent(env, db, id);
    case SessionTurn => TurnConsistent(env, db, id);
    case _ =>
  }

  lemma {:induction false} StepAllConsistent(env: Env, db: Db, t: Table, ids: seq<string>)
    requires env.Valid() && Consistent(env, db) && StepAll(env, db, t, ids).Some?
    ensures Consistent(env, StepAll(env, db, t, ids).value)
    decreases |ids|
  {
    hide Step, Consistent;
    if ids != [] {
      StepConsistent(env, db, t, ids[0]);
      StepAllConsistent(env, Step(env, db, t, ids[0]).value, t, ids[1..]);
    }
  }

  lemma {:induction false} PassesConsistent(env: Env, db: Db, n: nat, size: nat)
    requires env.Valid() && Consistent(env, db) && size > 0 && n <= |TABLES| && Passes(env, db, n, size).Some?
    ensures Consistent(env, Passes(env, db, n, size).value)
  {
    hide RunTable, Consistent, StepAll, After;
    if n > 0 {
      PassesConsistent(env, db, n - 1, size);
      var d := Passes(env, db, n - 1, size).value;
      RunTableIsStepAll(env, d, TABLES[n - 1], "", size);
      StepAllConsistent(env, d, TABLES[n - 1], After(env, Keys(d, TABLES[n - 1]), ""));
    }
  }

  /** A finished scrub keeps it: every legacy link still names its turn, every norm its text. */
  lemma ScrubConsistent(env: Env, db: Db, size: nat)
    requires env.Valid() && Consistent(env, db) && size > 0 && RunFrom(env, db, 0, "", size).Some?
    ensures Consistent(env, RunFrom(env, db, 0, "", size).value)
  {
    hide RunTable, Consistent, Passes;
    RunFromPasses(env, db, |TABLES|, size);
    PassesConsistent(env, db, |TABLES|, size);
  }
}
