/** Which body a commitCapture leaves pending (src/capture/source-turn-spool.ts:105-138). */
module CaptureCommit {
  import opened OrderedMap
  import opened SpoolJournal
  import opened SpoolOps

  /** The hmac of the last turn of this id, and of the last one that differs from `h`. */
  function LastOf(turns: seq<Turn>, id: string): Option<Hmac> {
    if turns == [] then None
    else
      var later := LastOf(turns[1..], id);
      if later.Some? then later else if turns[0].id == id then Some(turns[0].hmac) else None
  }

  function LastOther(turns: seq<Turn>, id: string, h: Hmac): Option<Hmac> {
    if turns == [] then None
    else
      var later := LastOther(turns[1..], id, h);
      if later.Some? then later else if turns[0].id == id && turns[0].hmac != h then Some(turns[0].hmac) else None
  }

  function OrElse(a: Option<Hmac>, b: Option<Hmac>): Option<Hmac> {
    if a.Some? then a else b
  }

  function HmacIn(staged: OMap<string, Turn>, id: string): Option<Hmac> {
    if id in staged.at then Some(staged.at[id].hmac) else None
  }

  function PendingHmac(ix: Index, id: string): Option<Hmac> {
    if id in ix.pending.at then Some(ix.pending.at[id].hmac) else None
  }

  /** Staging compares a turn with the pending body if there is one, else with the staged one. */
  lemma {:induction false} Staged(ix: Index, turns: seq<Turn>, staged: OMap<string, Turn>, id: string)
    requires id !in ix.forgotten
    ensures HmacIn(StageCapture(ix, turns, staged), id)
         == if id in ix.pending.at then OrElse(LastOther(turns, id, ix.pending.at[id].hmac), HmacIn(staged, id))
            else OrElse(LastOf(turns, id), HmacIn(staged, id))
    decreases |turns|
  {
    if turns != [] {
      var t := turns[0];
      var keep := t.id in ix.forgotten || PriorHmac(ix, staged, t.id) == Some(t.hmac);
      Staged(ix, turns[1..], if keep then staged else staged.Set(t.id, t), id);
    }
  }

  lemma {:induction false} Recorded(c: Codec, ix: Index, puts: seq<Turn>, now: string, offset: nat, id: string)
    ensures PendingHmac(RecordPuts(c, ix, puts, now, offset), id) == OrElse(LastOf(puts, id), PendingHmac(ix, id))
    decreases |puts|
  {
    if puts != [] {
      var t, length := puts[0], |c.Line(Put(puts[0], Some(now)))|;
      Recorded(c, ix.(known := ix.known + {t.id},
                      pending := ix.pending.Set(t.id, PendingOf(t, Some(now), offset, length))),
               puts[1..], now, offset + length, id);
    }
  }

  lemma {:induction false} ListedLast(keys: seq<string>, at: map<string, Turn>, id: string)
    requires Distinct(keys) && forall k :: k in keys ==> k in at && at[k].id == k
    ensures LastOf(ListedFrom(keys, at), id) == if id in keys then Some(at[id].hmac) else None
    decreases |keys|
  {
    if keys != [] {
      assert keys == [keys[0]] + keys[1..];
      ListedLast(keys[1..], at, id);
      assert ListedFrom(keys, at) == [at[keys[0]]] + ListedFrom(keys[1..], at);
    }
  }

  /** After a synced commit: a new id holds its last turn; a pending one holds the last turn that
      differs from the body it held, or that body. */
  lemma CommitLeaves(c: Codec, s: Spool, turns: seq<Turn>, completed: seq<Turn>, now: string, id: string)
    requires Coherent(s.ix) && !s.latched && id !in s.ix.forgotten
    ensures var (s', ok) := Execute(c, s, Commit(turns, completed, now), Synced);
      && ok
      && PendingHmac(s'.ix, id)
         == if id in s.ix.pending.at
            then OrElse(LastOther(turns, id, s.ix.pending.at[id].hmac), PendingHmac(s.ix, id))
            else LastOf(turns, id)
  {
    hide Select;
    var op, staged := Commit(turns, completed, now), StageCapture(s.ix, turns, NOTHING);
    var puts := Listed(staged);
    assert Puts(s.ix, op) == puts;
    Staged(s.ix, turns, NOTHING, id);
    StageCaptureStageable(s.ix, turns, NOTHING);
    ListedLast(staged.keys, staged.at, id);
    Recorded(c, s.ix, puts, now, |s.file|, id);
    RecordMarksKeeps(RecordPuts(c, s.ix, puts, now, |s.file|), Marks(s.ix, op));
    CommitEffect(c, s, op);
  }

  lemma CommitEffect(c: Codec, s: Spool, op: Op)
    requires !s.latched && op.Commit?
    ensures var (s', ok) := Execute(c, s, op, Synced);
      ok && s'.ix == RecordMarks(RecordPuts(c, s.ix, Puts(s.ix, op), Now(op), |s.file|), Marks(s.ix, op))
  {
    hide Puts, Marks, RecordPuts, RecordMarks;
    var puts, marks := Puts(s.ix, op), Marks(s.ix, op);
    if Plan(s.ix, op) == [] {
      assert |PutEntries(puts, Now(op))| == 0 && |MarkEntries(marks)| == 0;
      NothingRecorded(c, s.ix, puts, marks, Now(op), |s.file|);
    }
  }

  lemma NothingRecorded(c: Codec, ix: Index, puts: seq<Turn>, marks: seq<Turn>, now: string, offset: nat)
    requires puts == [] && marks == []
    ensures RecordMarks(RecordPuts(c, ix, puts, now, offset), marks) == ix
  {
  }

  /** The commit leaves the last turn of an id pending exactly when the id was not pending, or
      the last turn differs from the pending body, or all its turns equal it. */
  lemma CommitKeepsLast(c: Codec, s: Spool, turns: seq<Turn>, completed: seq<Turn>, now: string, id: string)
    requires Coherent(s.ix) && !s.latched && id !in s.ix.forgotten && LastOf(turns, id).Some?
    ensures var s' := Execute(c, s, Commit(turns, completed, now), Synced).0;
      PendingHmac(s'.ix, id) == LastOf(turns, id)
      <==> LastOf(turns, id) != PendingHmac(s.ix, id) || forall t :: t in turns && t.id == id ==> Some(t.hmac) == PendingHmac(s.ix, id)
  {
    hide Execute;
    CommitLeaves(c, s, turns, completed, now, id);
    if id in s.ix.pending.at {
      LastAgainst(turns, id, s.ix.pending.at[id].hmac);
    }
  }

  lemma {:induction false} LastAgainst(turns: seq<Turn>, id: string, h: Hmac)
    ensures LastOther(turns, id, h).None? <==> forall t :: t in turns && t.id == id ==> t.hmac == h
    ensures LastOther(turns, id, h).Some? ==> LastOther(turns, id, h).value != h
    ensures LastOf(turns, id).None? ==> LastOther(turns, id, h).None?
    ensures LastOf(turns, id).Some? && LastOf(turns, id).value != h ==> LastOther(turns, id, h) == LastOf(turns, id)
    decreases |turns|
  {
    if turns != [] {
      assert turns == [turns[0]] + turns[1..];
      LastAgainst(turns[1..], id, h);
    }
  }

  /** It can fail: committing a new body and then the pending one again leaves the new body. */
  lemma EarlierBodyStays(c: Codec, t: Turn, u: Turn) returns (s: Spool, turns: seq<Turn>)
    requires t.id == u.id && t.hmac != u.hmac
    ensures Coherent(s.ix) && !s.latched && LastOf(turns, t.id) == Some(t.hmac)
    ensures PendingHmac(Execute(c, s, Commit(turns, [], ""), Synced).0.ix, t.id) == Some(u.hmac)
  {
    hide Execute;
    var p := PendingOf(t, Some(""), 0, |c.Line(Put(t, Some("")))|);
    s := Spool(c.Line(Put(t, Some(""))), Index(OMap([t.id], map[t.id := p]), {t.id}, {}, map[]), false);
    turns := [u, t];
    assert turns[1..] == [t] && [t][1..] == [];
    assert LastOf([t], t.id) == Some(t.hmac);
    assert LastOther([t], t.id, t.hmac).None? && LastOther(turns, t.id, t.hmac) == Some(u.hmac);
    CommitLeaves(c, s, turns, [], "", t.id);
  }

  // ---------------------------------------------------------------- the lines of a commit

  ghost predicate PutsId(es: seq<Entry>, id: string) {
    exists i: nat :: i < |es| && es[i].Put? && es[i].turn.id == id
  }

  lemma {:induction false} PutEntryAt(turns: seq<Turn>, now: string)
    ensures forall i :: 0 <= i < |turns| ==> PutEntries(turns, now)[i] == Put(turns[i], Some(now))
    decreases |turns|
  {
    if turns != [] {
      PutEntryAt(turns[1..], now);
    }
  }

  lemma {:induction false} MarkEntriesPutNothing(turns: seq<Turn>)
    ensures forall e :: e in MarkEntries(turns) ==> !e.Put?
    decreases |turns|
  {
    if turns != [] {
      MarkEntriesPutNothing(turns[1..]);
    }
  }

  lemma {:induction false} LastOfIn(turns: seq<Turn>, id: string)
    ensures LastOf(turns, id).Some? <==> exists t :: t in turns && t.id == id
    decreases |turns|
  {
    if turns != [] {
      assert turns == [turns[0]] + turns[1..];
      LastOfIn(turns[1..], id);
    }
  }

  /** A commit writes one put line for an id if a turn of it differs from the pending body, or if
      it has turns and is not pending, and none for a forgotten id or otherwise. */
  lemma CommitWrites(ix: Index, turns: seq<Turn>, completed: seq<Turn>, now: string, id: string)
    requires Coherent(ix)
    ensures var es := Plan(ix, Commit(turns, completed, now));
      && (PutsId(es, id) <==>
            id !in ix.forgotten && exists t :: t in turns && t.id == id && !(id in ix.pending.at && ix.pending.at[id].hmac == t.hmac))
      && (forall i, j :: 0 <= i < j < |es| && es[i].Put? && es[j].Put? ==> es[i].turn.id != es[j].turn.id)
  {
    hide Plan, StageCapture, LastOf, LastOther, PutsId;
    LinesOfStaged(ix, turns, completed, now, id);
    if id !in ix.forgotten {
      Staged(ix, turns, NOTHING, id);
      LastOfIn(turns, id);
      if id in ix.pending.at {
        LastAgainst(turns, id, ix.pending.at[id].hmac);
      }
    }
  }

  lemma LinesOfStaged(ix: Index, turns: seq<Turn>, completed: seq<Turn>, now: string, id: string)
    ensures var es, staged := Plan(ix, Commit(turns, completed, now)), StageCapture(ix, turns, NOTHING);
      && (PutsId(es, id) <==> id in staged.at) && (id in staged.at ==> id !in ix.forgotten)
      && (forall i, j :: 0 <= i < j < |es| && es[i].Put? && es[j].Put? ==> es[i].turn.id != es[j].turn.id)
  {
    var op, staged := Commit(turns, completed, now), StageCapture(ix, turns, NOTHING);
    var puts, marks := Puts(ix, op), Marks(ix, op);
    StageCaptureStageable(ix, turns, NOTHING);
    ListedFromIn(staged.keys, staged.at);
    hide StageCapture, ListedFrom, Marks, PutEntries, MarkEntries, PutsId;
    PutEntryAt(puts, now);
    MarkEntriesPutNothing(marks);
    var es := PutEntries(puts, now) + MarkEntries(marks);
    assert forall i :: |puts| <= i < |es| ==> es[i] == MarkEntries(marks)[i - |puts|];
    StagedPuts(staged, puts, es, id);
  }

  lemma StagedPuts(staged: OMap<string, Turn>, puts: seq<Turn>, es: seq<Entry>, id: string)
    requires staged.Valid() && (forall k :: k in staged.at ==> staged.at[k].id == k)
    requires |puts| == |staged.keys| && forall i :: 0 <= i < |puts| ==> staged.keys[i] in staged.at && puts[i] == staged.at[staged.keys[i]]
    requires |es| >= |puts| && (forall i :: 0 <= i < |puts| ==> es[i].Put? && es[i].turn == puts[i])
    requires forall i :: |puts| <= i < |es| ==> !es[i].Put?
    ensures PutsId(es, id) <==> id in staged.at
    ensures forall i, j :: 0 <= i < j < |es| && es[i].Put? && es[j].Put? ==> es[i].turn.id != es[j].turn.id
  {
    forall i | 0 <= i < |es| && es[i].Put?
      ensures i < |puts| && es[i].turn.id == staged.keys[i]
    {
    }
    if id in staged.at {
      var i :| 0 <= i < |staged.keys| && staged.keys[i] == id;
      assert es[i].Put? && es[i].turn.id == id;
    }
  }
}
