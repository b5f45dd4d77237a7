/** Which turns commitCapture and markExtracted leave marked as extracted
    (src/capture/source-turn-spool.ts:50-60, 105-156). */
module ExtractedMarks {
  import opened OrderedMap
  import opened SpoolJournal
  import opened SpoolOps

  /** isExtracted: the marker is that of this body, user and key. */
  predicate Covers(m: Marker, t: Turn) {
    m.hmac == t.hmac && m.userId == t.userId && m.keyFingerprint == t.keyFingerprint
  }

  predicate Covered(extracted: map<string, Marker>, t: Turn) {
    t.id in extracted && Covers(extracted[t.id], t)
  }

  /** The last turn given for an id. */
  function LastTurn(turns: seq<Turn>, id: string): (r: Option<Turn>)
    ensures r.Some? ==> r.value in turns && r.value.id == id
    ensures r.None? ==> forall t :: t in turns ==> t.id != id
  {
    if turns == [] then None
    else
      var n := |turns| - 1;
      assert turns == turns[..n] + [turns[n]];
      if turns[n].id == id then Some(turns[n]) else LastTurn(turns[..n], id)
  }

  /** The last turn given for an id that was not marked before. */
  function LastNew(turns: seq<Turn>, extracted: map<string, Marker>, id: string): (r: Option<Turn>)
    ensures r.Some? ==> r.value in turns && r.value.id == id && !Covered(extracted, r.value)
    ensures r.None? ==> forall t :: t in turns && t.id == id ==> Covered(extracted, t)
  {
    if turns == [] then None
    else
      var n := |turns| - 1;
      assert turns == turns[..n] + [turns[n]];
      if turns[n].id == id && !Covered(extracted, turns[n]) then Some(turns[n]) else LastNew(turns[..n], extracted, id)
  }

  /** One id before and after: marked with all four fields of the turn, or as it was. */
  predicate MarkedAt(before: map<string, Marker>, after: map<string, Marker>, id: string, t: Option<Turn>) {
    match t
    case Some(turn) =>
      && id in after && after[id].userId == turn.userId && after[id].sessionId == turn.sessionId
      && after[id].hmac == turn.hmac && after[id].keyFingerprint == turn.keyFingerprint
    case None => (id in after <==> id in before) && (id in before ==> after[id] == before[id])
  }

  /** Every id with a completed turn that is not forgotten is marked with its last one, and no
      other marker changes. */
  ghost predicate MarkedLast(before: map<string, Marker>, forgotten: set<string>, completed: seq<Turn>, after: map<string, Marker>) {
    forall id :: MarkedAt(before, after, id, if id in forgotten then None else LastTurn(completed, id))
  }

  /** The same with its last turn that was not marked before. */
  ghost predicate MarkedNew(before: map<string, Marker>, forgotten: set<string>, turns: seq<Turn>, after: map<string, Marker>) {
    forall id :: MarkedAt(before, after, id, if id in forgotten then None else LastNew(turns, before, id))
  }

  // ---------------------------------------------------------------- recording markers

  lemma {:induction false} RecordedLast(ix: Index, marks: seq<Turn>, id: string)
    ensures MarkedAt(ix.extracted, RecordMarks(ix, marks).extracted, id, LastTurn(marks, id))
    decreases |marks|
  {
    if marks != [] {
      var next := ix.(known := ix.known + {marks[0].id}, extracted := ix.extracted[marks[0].id := MarkerOf(marks[0])]);
      RecordedLast(next, marks[1..], id);
      LastOfRest(marks, id);
    }
  }

  lemma {:induction false} LastOfRest(turns: seq<Turn>, id: string)
    requires turns != []
    ensures LastTurn(turns, id) == if LastTurn(turns[1..], id).Some? then LastTurn(turns[1..], id)
                                   else if turns[0].id == id then Some(turns[0]) else None
    decreases |turns|
  {
    var n := |turns| - 1;
    if n > 0 {
      assert turns[..n][1..] == turns[1..][..n - 1] && turns[1..][n - 1] == turns[n] && turns[..n][0] == turns[0];
      LastOfRest(turns[..n], id);
    } else {
      assert turns[1..] == [] && turns[..0] == [];
    }
  }

  lemma {:induction false} SelectedLast(turns: seq<Turn>, p: Turn -> bool, id: string)
    ensures LastTurn(Select(turns, p), id) == LastWith(turns, p, id)
    decreases |turns|
  {
    if turns != [] {
      SelectedLast(turns[1..], p, id);
      LastWithRest(turns, p, id);
      var rest := Select(turns[1..], p);
      assert Select(turns, p) == (if p(turns[0]) then [turns[0]] else []) + rest;
      hide LastTurn, LastWith, Select;
      if p(turns[0]) {
        LastOfRest([turns[0]] + rest, id);
        assert ([turns[0]] + rest)[1..] == rest;
      } else {
        assert [] + rest == rest;
      }
    }
  }

  function LastWith(turns: seq<Turn>, p: Turn -> bool, id: string): Option<Turn> {
    if turns == [] then None
    else
      var n := |turns| - 1;
      if turns[n].id == id && p(turns[n]) then Some(turns[n]) else LastWith(turns[..n], p, id)
  }

  lemma {:induction false} LastWithRest(turns: seq<Turn>, p: Turn -> bool, id: string)
    requires turns != []
    ensures LastWith(turns, p, id) == if LastWith(turns[1..], p, id).Some? then LastWith(turns[1..], p, id)
                                      else if turns[0].id == id && p(turns[0]) then Some(turns[0]) else None
    decreases |turns|
  {
    var n := |turns| - 1;
    if n > 0 {
      assert turns[..n][1..] == turns[1..][..n - 1] && turns[1..][n - 1] == turns[n] && turns[..n][0] == turns[0];
      LastWithRest(turns[..n], p, id);
    } else {
      assert turns[1..] == [] && turns[..0] == [];
    }
  }

  lemma {:induction false} LastOfRemembered(ix: Index, turns: seq<Turn>, id: string)
    ensures LastWith(turns, (t: Turn) => t.id !in ix.forgotten, id) == if id in ix.forgotten then None else LastTurn(turns, id)
    decreases |turns|
  {
    if turns != [] {
      LastOfRemembered(ix, turns[..|turns| - 1], id);
    }
  }

  lemma {:induction false} LastOfUnmarked(ix: Index, turns: seq<Turn>, id: string)
    ensures LastWith(turns, (t: Turn) => Unmarked(ix, t), id) == if id in ix.forgotten then None else LastNew(turns, ix.extracted, id)
    decreases |turns|
  {
    if turns != [] {
      LastOfUnmarked(ix, turns[..|turns| - 1], id);
    }
  }

  // ---------------------------------------------------------------- what the operations leave

  lemma {:induction false} PutsKeepMarks(c: Codec, ix: Index, turns: seq<Turn>, now: string, offset: nat)
    ensures RecordPuts(c, ix, turns, now, offset).extracted == ix.extracted
    decreases |turns|
  {
    if turns != [] {
      var t, length := turns[0], |c.Line(Put(turns[0], Some(now)))|;
      PutsKeepMarks(c, ix.(known := ix.known + {t.id}, pending := ix.pending.Set(t.id, PendingOf(t, Some(now), offset, length))),
                    turns[1..], now, offset + length);
    }
  }

  lemma NothingToMark(c: Codec, s: Spool, op: Op, io: Io)
    requires (op.Commit? || op.Mark?) && Execute(c, s, op, io).1
    ensures Execute(c, s, op, io).0.ix.extracted
         == RecordMarks(RecordPuts(c, s.ix, Puts(s.ix, op), Now(op), |s.file|), Marks(s.ix, op)).extracted
  {
    hide Puts, Marks;
    var puts, marks := Puts(s.ix, op), Marks(s.ix, op);
    if Plan(s.ix, op) == [] {
      assert |PutEntries(puts, Now(op))| == 0 && |MarkEntries(marks)| == 0;
    }
  }

  lemma MarksRecorded(c: Codec, s: Spool, op: Op, io: Io, id: string)
    requires (op.Commit? || op.Mark?) && Execute(c, s, op, io).1
    ensures MarkedAt(s.ix.extracted, Execute(c, s, op, io).0.ix.extracted, id, LastTurn(Marks(s.ix, op), id))
  {
    hide Execute, RecordPuts, RecordMarks, Puts, Marks;
    var middle := RecordPuts(c, s.ix, Puts(s.ix, op), Now(op), |s.file|);
    NothingToMark(c, s, op, io);
    PutsKeepMarks(c, s.ix, Puts(s.ix, op), Now(op), |s.file|);
    RecordedLast(middle, Marks(s.ix, op), id);
  }

  /** After a commitCapture that succeeded every completed turn that is not forgotten is marked
      with its user, session, hmac and key, of several with one id the last, and no other marker
      changes. */
  lemma CommitMarks(c: Codec, s: Spool, turns: seq<Turn>, completed: seq<Turn>, now: string, io: Io)
    requires Execute(c, s, Commit(turns, completed, now), io).1
    ensures MarkedLast(s.ix.extracted, s.ix.forgotten, completed, Execute(c, s, Commit(turns, completed, now), io).0.ix.extracted)
  {
    hide Execute, LastTurn, Select;
    var op := Commit(turns, completed, now);
    forall id: string
      ensures MarkedAt(s.ix.extracted, Execute(c, s, op, io).0.ix.extracted, id,
                       if id in s.ix.forgotten then None else LastTurn(completed, id))
    {
      MarksRecorded(c, s, op, io, id);
      SelectedLast(completed, (t: Turn) => t.id !in s.ix.forgotten, id);
      LastOfRemembered(s.ix, completed, id);
    }
  }

  /** After a markExtracted that succeeded every id that is not forgotten has the marker of its last
      turn that was not marked before, and no other marker changes. */
  lemma MarkMarks(c: Codec, s: Spool, turns: seq<Turn>, io: Io)
    requires Execute(c, s, Mark(turns), io).1
    ensures MarkedNew(s.ix.extracted, s.ix.forgotten, turns, Execute(c, s, Mark(turns), io).0.ix.extracted)
  {
    hide Execute, LastTurn, LastNew, Select, Unmarked;
    var op := Mark(turns);
    forall id: string
      ensures MarkedAt(s.ix.extracted, Execute(c, s, op, io).0.ix.extracted, id,
                       if id in s.ix.forgotten then None else LastNew(turns, s.ix.extracted, id))
    {
      MarksRecorded(c, s, op, io, id);
      SelectedLast(turns, (t: Turn) => Unmarked(s.ix, t), id);
      LastOfUnmarked(s.ix, turns, id);
    }
  }

  /** A line is written if and only if some turn is neither forgotten nor marked. */
  lemma MarkWrites(c: Codec, s: Spool, log: Log, turns: seq<Turn>)
    requires !s.latched
    ensures NextLog(c, s, log, Mark(turns), Synced).acked == log.acked
       <==> forall t :: t in turns ==> t.id in s.ix.forgotten || Covered(s.ix.extracted, t)
  {
    hide Unmarked;
    var marks := Marks(s.ix, Mark(turns));
    assert Plan(s.ix, Mark(turns)) == PutEntries([], "") + MarkEntries(marks) == MarkEntries(marks);
    UnmarkedIs(s.ix);
    if marks == [] {
      forall t | t in turns && Unmarked(s.ix, t)
        ensures t in marks
      {
      }
    } else {
      assert marks[0] in marks;
      assert |log.acked + MarkEntries(marks)| > |log.acked|;
    }
  }

  lemma UnmarkedIs(ix: Index)
    ensures forall t :: Unmarked(ix, t) <==> t.id !in ix.forgotten && !Covered(ix.extracted, t)
  {
  }

  /** The last turn given for an id ends up marked exactly when it was not marked before, or all
      turns given for the id were. */
  lemma MarkCoversLast(c: Codec, s: Spool, turns: seq<Turn>, io: Io, t: Turn)
    requires Execute(c, s, Mark(turns), io).1 && t.id !in s.ix.forgotten && LastTurn(turns, t.id) == Some(t)
    ensures Covered(Execute(c, s, Mark(turns), io).0.ix.extracted, t)
       <==> !Covered(s.ix.extracted, t) || forall u :: u in turns && u.id == t.id ==> Covered(s.ix.extracted, u)
  {
    hide Execute;
    MarkMarks(c, s, turns, io);
    var after := Execute(c, s, Mark(turns), io).0.ix.extracted;
    assert MarkedAt(s.ix.extracted, after, t.id, LastNew(turns, s.ix.extracted, t.id));
    if !Covered(s.ix.extracted, t) {
      NewIsLast(turns, s.ix.extracted, t);
    }
  }

  lemma {:induction false} NewIsLast(turns: seq<Turn>, extracted: map<string, Marker>, t: Turn)
    requires LastTurn(turns, t.id) == Some(t) && !Covered(extracted, t)
    ensures LastNew(turns, extracted, t.id) == Some(t)
    decreases |turns|
  {
    if turns[|turns| - 1].id != t.id {
      NewIsLast(turns[..|turns| - 1], extracted, t);
    }
  }

  /** Turns of which no two with one id differ in body, user or key all end up marked. */
  lemma MarkCoversAll(c: Codec, s: Spool, turns: seq<Turn>, io: Io, t: Turn)
    requires Execute(c, s, Mark(turns), io).1 && t in turns && t.id !in s.ix.forgotten
    requires forall u :: u in turns && u.id == t.id ==> u.hmac == t.hmac && u.userId == t.userId && u.keyFingerprint == t.keyFingerprint
    ensures Covered(Execute(c, s, Mark(turns), io).0.ix.extracted, t)
  {
    hide Execute;
    MarkMarks(c, s, turns, io);
    assert MarkedAt(s.ix.extracted, Execute(c, s, Mark(turns), io).0.ix.extracted, t.id, LastNew(turns, s.ix.extracted, t.id));
  }

  /** It can fail: marking a new body and then the marked one again leaves the new one marked. */
  lemma EarlierMarkStays(c: Codec, t: Turn, u: Turn) returns (s: Spool, turns: seq<Turn>)
    requires t.id == u.id && t.hmac != u.hmac
    ensures Coherent(s.ix) && !s.latched && t.id !in s.ix.forgotten && LastTurn(turns, t.id) == Some(t)
    ensures var (s', ok) := Execute(c, s, Mark(turns), Synced); ok && !Covered(s'.ix.extracted, t)
  {
    s := Spool([], Index(OMap([], map[]), {t.id}, {}, map[t.id := Marker(t.userId, t.sessionId, t.hmac, t.keyFingerprint)]), false);
    turns := [u, t];
    hide Execute;
    SyncedSucceeds(c, s, Mark(turns));
    assert turns[1] == t && turns[0] == u && u in turns;
    MarkCoversLast(c, s, turns, Synced, t);
  }

  lemma SyncedSucceeds(c: Codec, s: Spool, op: Op)
    requires !s.latched
    ensures Execute(c, s, op, Synced).1
  {
  }
}
