/** A scrub that is interrupted anywhere and resumed ends as an uninterrupted one
    (scripts/source-layer/scrub.ts:303-381). */
module ScrubResume {
  import opened OrderedMap
  import opened JsonValues
  import opened ScrubValues
  import opened ScrubRecords
  import opened ScrubRows
  import opened ScrubOrder

  // ---------------------------------------------------------------- settled rows

  /** The scrub has nothing left to do on this row. */
  ghost predicate Settled(env: Env, db: Db, t: Table, id: string) {
    match t
    case Semiote => id in db.semiote ==> FactPayload(env, db.semiote[id].payload) == Some(db.semiote[id].payload)
    case Memories => id in db.memories ==> FactPayload(env, db.memories[id].payload) == Some(db.memories[id].payload)
    case SessionTurnChunk => id in db.chunks ==> ChunkClean(env, db.chunks[id])
    case SessionTurn => id in db.turns ==> db.turns[id].content == ""
    case SourceTurnEvidence => true
    case _ => (t, id) in db.records ==> Clean(env, db.records[(t, id)]) == Some(db.records[(t, id)])
  }

  lemma PayloadField()
    ensures !Derived("payload") && !Span("payload") && "payload" != "payload.raw_source_text"
  {
    var s := "payload";
    assert |s| == 7 && s[6] == 'd' && s[0] == 'p';
    assert s[|s| - 5..][4] == 'd' && "_norm"[4] == 'm';
    assert s[|s| - 7..][0] == 'p' && "rawSpan"[0] == 'r';
    assert |"payload.raw_source_text"| == 23;
  }

  lemma FactPayloadAgain(env: Env, payload: Json)
    requires env.Valid()
    ensures var r := FactPayload(env, payload);
      r.Some? ==> r.value.Obj? && Get(r.value, "raw_source_text") == None && FactPayload(env, r.value) == r
  {
    PayloadField();
    match Original(env, payload)
    case Some(Obj(fs)) =>
      ScrubAgain(env, "payload", Obj(fs));
      NoRawField(env, "payload", fs);
    case _ =>
  }

  /** Processing a settled row changes nothing. */
  lemma SettledStep(env: Env, db: Db, t: Table, id: string)
    requires env.Valid() && Settled(env, db, t, id)
    ensures Step(env, db, t, id) == Some(db)
  {
    match t
    case Semiote =>
      if id in db.semiote {
        FactPayloadAgain(env, db.semiote[id].payload);
      }
    case Memories =>
    case SessionTurnChunk =>
      if id in db.chunks {
        assert db.chunks[id := db.chunks[id]] == db.chunks;
      }
    case SessionTurn =>
    case SourceTurnEvidence =>
    case _ =>
      if (t, id) in db.records {
        assert db.records[(t, id) := db.records[(t, id)]] == db.records;
      }
  }

  ghost predicate SameFacts(a: Db, b: Db) {
    a.semiote == b.semiote && a.memories == b.memories && a.records == b.records && a.evidence == b.evidence
  }

  lemma AddTurnKeeps(env: Env, db: Db, t: SourceTurn)
    ensures AddTurn(env, db, t).Some? ==> SameFacts(AddTurn(env, db, t).value, db)
  {
  }

  /** A semiote row ends with its scrubbed payload; the other rows stay. */
  lemma StepSemioteShape(env: Env, db: Db, id: string) returns (row: Fact)
    requires id in db.semiote && StepSemiote(env, db, id).Some?
    ensures StepSemiote(env, db, id).value.semiote == db.semiote[id := row]
    ensures FactPayload(env, db.semiote[id].payload) == Some(row.payload)
  {
    hide AddTurn, FactPayload;
    row := db.semiote[id];
    var payload := FactPayload(env, row.payload).value;
    var m := Migration(env, row);
    if m.Some? && m.value.Source? {
      var t := m.value.turn;
      AddTurnKeeps(env, db, t);
      row := Rewritten(env, row, payload, Some(Link(t.id, t.hmac, t.fingerprint, "legacy", env.version)));
    } else if row.payload != payload {
      row := Rewritten(env, row, payload, row.link);
    } else {
      assert db.semiote[id := row] == db.semiote;
    }
  }

  lemma StepSemioteSettles(env: Env, db: Db, id: string)
    requires env.Valid() && StepSemiote(env, db, id).Some?
    ensures var r := StepSemiote(env, db, id).value;
      && Settled(env, r, Semiote, id) && r.semiote.Keys == db.semiote.Keys
      && forall other :: other != id && Settled(env, db, Semiote, other) ==> Settled(env, r, Semiote, other)
  {
    hide StepSemiote, FactPayload;
    if id in db.semiote {
      var row := StepSemioteShape(env, db, id);
      FactPayloadAgain(env, db.semiote[id].payload);
    } else {
      assert StepSemiote(env, db, id) == Some(db) by {
        StepSemioteAbsent(env, db, id);
      }
    }
  }

  lemma StepSemioteAbsent(env: Env, db: Db, id: string)
    requires id !in db.semiote
    ensures StepSemiote(env, db, id) == Some(db)
  {
  }

  lemma StepMemorySettles(env: Env, db: Db, id: string)
    requires env.Valid() && StepMemory(env, db, id).Some?
    ensures var r := StepMemory(env, db, id).value;
      && Settled(env, r, Memories, id) && r.memories.Keys == db.memories.Keys
      && forall other :: other != id && Settled(env, db, Memories, other) ==> Settled(env, r, Memories, other)
  {
    hide FactPayload;
    if id in db.memories {
      FactPayloadAgain(env, db.memories[id].payload);
    }
  }

  /** Processing a row settles it, keeps the table's ids, and leaves its other rows alone. */
  lemma StepSettles(env: Env, db: Db, t: Table, id: string)
    requires env.Valid() && Step(env, db, t, id).Some?
    ensures var r := Step(env, db, t, id).value;
      && Settled(env, r, t, id) && Keys(r, t) == Keys(db, t)
      && forall other :: other != id && Settled(env, db, t, other) ==> Settled(env, r, t, other)
  {
    hide FactPayload, StepSemiote, StepMemory, StepRecord;
    match t
    case Semiote => StepSemioteSettles(env, db, id);
    case Memories => StepMemorySettles(env, db, id);
    case SessionTurnChunk =>
      if id in db.chunks {
        assert Fixed(env.redactSource, env.redactSource(db.chunks[id].content).value);
      }
    case SessionTurn =>
    case SourceTurnEvidence =>
    case _ => StepRecordSettles(env, db, t, id);
  }

  lemma StepRecordSettles(env: Env, db: Db, t: Table, id: string)
    requires env.Valid() && (t.Noema? || t.RejectionLog? || t.RetrievalTrace?) && StepRecord(env, db, t, id).Some?
    ensures var r := StepRecord(env, db, t, id).value;
      && Settled(env, r, t, id) && Keys(r, t) == Keys(db, t)
      && forall other :: other != id && Settled(env, db, t, other) ==> Settled(env, r, t, other)
  {
    hide Clean;
    if (t, id) in db.records {
      CleanAgain(env, db.records[(t, id)]);
      var r := StepRecord(env, db, t, id).value;
      assert r.records.Keys == db.records.Keys;
    }
  }

  // ---------------------------------------------------------------- the uninterrupted pass

  function StepAll(env: Env, db: Db, t: Table, ids: seq<string>): Option<Db>
    decreases |ids|
  {
    if ids == [] then Some(db)
    else
      match Step(env, db, t, ids[0])
      case None => None
      case Some(next) => StepAll(env, next, t, ids[1..])
  }

  /** One page: every row, then the re-read check of every row. */
  function Batch(env: Env, db: Db, t: Table, ids: seq<string>): Option<Db> {
    match StepAll(env, db, t, ids)
    case None => None
    case Some(next) => if forall id :: id in ids ==> Verified(env, next, t, id) then Some(next) else None
  }

  function Page(env: Env, db: Db, t: Table, cursor: string, size: nat): (ids: seq<string>)
    requires env.Ordered()
  {
    var ids := After(env, Keys(db, t), cursor);
    if |ids| <= size then ids else ids[..size]
  }

  lemma {:induction false} StepAllKeys(env: Env, db: Db, t: Table, ids: seq<string>)
    requires env.Valid() && StepAll(env, db, t, ids).Some?
    ensures Keys(StepAll(env, db, t, ids).value, t) == Keys(db, t)
    decreases |ids|
  {
    hide Step, Keys;
    if ids != [] {
      StepSettles(env, db, t, ids[0]);
      StepAllKeys(env, Step(env, db, t, ids[0]).value, t, ids[1..]);
    }
  }

  lemma PageAdvances(env: Env, db: Db, t: Table, cursor: string, size: nat)
    requires env.Ordered() && size > 0 && Page(env, db, t, cursor, size) != []
    ensures var ids := Page(env, db, t, cursor, size); var last := ids[|ids| - 1];
      && |Above(env, Keys(db, t), last)| < |Above(env, Keys(db, t), cursor)|
      && After(env, Keys(db, t), last) == After(env, Keys(db, t), cursor)[|ids|..]
      && (|ids| == size || ids == After(env, Keys(db, t), cursor))
  {
    var all, ids := After(env, Keys(db, t), cursor), Page(env, db, t, cursor, size);
    var last := ids[|ids| - 1];
    assert last == all[|ids| - 1] && last in all;
    AfterRest(env, Keys(db, t), cursor, |ids|);
    assert last in Above(env, Keys(db, t), cursor) && last !in Above(env, Keys(db, t), last);
    SmallerSet(Above(env, Keys(db, t), last), Above(env, Keys(db, t), cursor));
  }

  lemma SmallerSet(a: set<string>, b: set<string>)
    requires a < b
    ensures |a| < |b|
  {
    assert b == a + (b - a);
  }

  /** The pages of one table from a cursor on. */
  function RunTable(env: Env, db: Db, t: Table, cursor: string, size: nat): Option<Db>
    requires env.Valid() && size > 0
    decreases |Above(env, Keys(db, t), cursor)|
  {
    var ids := Page(env, db, t, cursor, size);
    if ids == [] then Some(db)
    else
      match Batch(env, db, t, ids)
      case None => None
      case Some(next) =>
        StepAllKeys(env, db, t, ids);
        PageAdvances(env, db, t, cursor, size);
        RunTable(env, next, t, ids[|ids| - 1], size)
  }

  /** The tables in order from a checkpoint on. */
  function RunFrom(env: Env, db: Db, tableIndex: nat, cursor: string, size: nat): Option<Db>
    requires env.Valid() && size > 0
    decreases |TABLES| - tableIndex
  {
    if tableIndex >= |TABLES| then Some(db)
    else
      match RunTable(env, db, TABLES[tableIndex], cursor, size)
      case None => None
      case Some(next) => RunFrom(env, next, tableIndex + 1, "", size)
  }

  // ---------------------------------------------------------------- reprocessing a partial page

  lemma {:induction false} StepAllAppend(env: Env, db: Db, t: Table, xs: seq<string>, ys: seq<string>)
    ensures StepAll(env, db, t, xs + ys)
         == match StepAll(env, db, t, xs) case None => None case Some(next) => StepAll(env, next, t, ys)
    decreases |xs|
  {
    hide Step;
    if xs == [] {
      assert xs + ys == ys;
    } else {
      assert (xs + ys)[1..] == xs[1..] + ys;
      match Step(env, db, t, xs[0])
      case None =>
      case Some(next) => StepAllAppend(env, next, t, xs[1..], ys);
    }
  }

  lemma {:induction false} StepAllSettles(env: Env, db: Db, t: Table, ids: seq<string>, done: set<string>)
    requires env.Valid() && StepAll(env, db, t, ids).Some?
    requires forall id :: id in done ==> Settled(env, db, t, id)
    ensures forall id :: id in ids || id in done ==> Settled(env, StepAll(env, db, t, ids).value, t, id)
    decreases |ids|
  {
    hide Step, Settled;
    if ids != [] {
      StepSettles(env, db, t, ids[0]);
      var next := Step(env, db, t, ids[0]).value;
      StepAllSettles(env, next, t, ids[1..], done + {ids[0]});
      assert ids == [ids[0]] + ids[1..];
    }
  }

  lemma {:induction false} SettledAll(env: Env, db: Db, t: Table, ids: seq<string>)
    requires env.Valid() && forall id :: id in ids ==> Settled(env, db, t, id)
    ensures StepAll(env, db, t, ids) == Some(db)
    decreases |ids|
  {
    hide Step, Settled;
    if ids != [] {
      assert ids[0] in ids;
      SettledStep(env, db, t, ids[0]);
      SettledAll(env, db, t, ids[1..]);
    }
  }

  /** A crash after the first `m` rows of a page: what is left to do is unchanged, because the
      rows already rewritten are processed again without effect. */
  lemma PartialPage(env: Env, db: Db, t: Table, cursor: string, size: nat, m: nat)
    requires env.Valid() && size > 0 && 0 < m <= |Page(env, db, t, cursor, size)|
    requires StepAll(env, db, t, Page(env, db, t, cursor, size)[..m]).Some?
    ensures var next := StepAll(env, db, t, Page(env, db, t, cursor, size)[..m]).value;
      Page(env, next, t, cursor, size) == Page(env, db, t, cursor, size) && RunTable(env, next, t, cursor, size) == RunTable(env, db, t, cursor, size)
  {
    hide Step, Settled, Keys, After, Page, StepAll, Verified;
    var ids := Page(env, db, t, cursor, size);
    var first, rest := ids[..m], ids[m..];
    var next := StepAll(env, db, t, first).value;
    StepAllKeys(env, db, t, first);
    PageSame(env, db, next, t, cursor, size);
    assert ids == first + rest;
    StepAllAppend(env, db, t, first, rest);
    StepAllSettles(env, db, t, first, {});
    SettledAll(env, next, t, first);
    StepAllAppend(env, next, t, first, rest);
    PageOnly(env, db, next, t, cursor, size);
  }

  lemma PageSame(env: Env, a: Db, b: Db, t: Table, cursor: string, size: nat)
    requires env.Ordered() && Keys(a, t) == Keys(b, t)
    ensures Page(env, a, t, cursor, size) == Page(env, b, t, cursor, size)
  {
  }

  lemma PageOnly(env: Env, a: Db, b: Db, t: Table, cursor: string, size: nat)
    requires env.Valid() && size > 0 && Page(env, a, t, cursor, size) == Page(env, b, t, cursor, size)
    requires StepAll(env, a, t, Page(env, a, t, cursor, size)) == StepAll(env, b, t, Page(env, a, t, cursor, size))
    requires Page(env, a, t, cursor, size) != [] || a == b
    ensures RunTable(env, a, t, cursor, size) == RunTable(env, b, t, cursor, size)
  {
    hide Step, Keys, After, Page, StepAll, Verified;
  }
}
