/** When a done line completes the body that was written: exactly when no commitCapture replaced
    that id between the pass's snapshot and its end (src/capture/source-turn-spool.ts). */
module SpoolRace {
  import opened OrderedMap
  import opened SpoolJournal
  import opened SpoolOps
  import opened SpoolProtocol
  import opened SpoolSafety
  import opened SpoolSteps
  import opened SpoolStartup

  /** The ids a successful commitCapture puts. */
  function PutBy(c: Codec, s: Sys, step: Step): set<string> {
    if step.Capture? && Perform(c, s, step.op, step.io).1
    then PutIds(s.spool.ix, step.op, step.op.Commit?)
    else {}
  }

  /** A run inside one pass: no crash, and the pass does not end in it. */
  ghost predicate InsidePass(steps: seq<Step>) {
    forall x :: x in steps ==> !x.Crash? && !x.Attempted? && !x.StartDies? && !x.DrainFinish? && !x.DrainRelease? && !x.DrainStart?
  }

  ghost function PutByAll(c: Codec, s: Sys, steps: seq<Step>): set<string>
    requires CanRun(c, s, steps)
    decreases |steps|
  {
    if steps == [] then {} else PutBy(c, s, steps[0]) + PutByAll(c, Do(c, s, steps[0]), steps[1..])
  }

  // ---------------------------------------------------------------- entries along a pass

  lemma {:induction false} RecordPutsEntries(c: Codec, ix: Index, turns: seq<Turn>, now: string, offset: nat)
    ensures var r := RecordPuts(c, ix, turns, now, offset);
      forall id :: id in r.pending.at ==>
        if exists t :: t in turns && t.id == id then r.pending.at[id].offset >= offset
        else id in ix.pending.at && r.pending.at[id] == ix.pending.at[id]
    decreases |turns|
  {
    if turns != [] {
      var t, length := turns[0], |c.Line(Put(turns[0], Some(now)))|;
      assert turns == [t] + turns[1..];
      RecordPutsEntries(c, ix.(known := ix.known + {t.id},
        pending := ix.pending.Set(t.id, PendingOf(t, Some(now), offset, length))), turns[1..], now, offset + length);
    }
  }

  lemma {:induction false} RecordForgetEntries(ix: Index, ids: seq<string>)
    ensures var r := RecordForget(ix, ids);
      forall id :: id in r.pending.at ==> id in ix.pending.at && r.pending.at[id] == ix.pending.at[id]
    decreases |ids|
  {
    if ids != [] {
      RecordForgetEntries(Index(ix.pending.Delete(ids[0]), ix.known + {ids[0]},
                                ix.forgotten + {ids[0]}, ix.extracted - {ids[0]}), ids[1..]);
    }
  }

  /** The append writer never replaces: what it stages is not pending. */
  lemma {:induction false} StagedIsNew(ix: Index, turns: seq<Turn>, staged: OMap<string, Turn>)
    requires forall id :: id in staged.at ==> id !in ix.pending.at
    ensures forall id :: id in StageAppends(ix, turns, staged).at ==> id !in ix.pending.at
    decreases |turns|
  {
    if turns != [] {
      StagedIsNew(ix, turns[1..], StageOne(ix, staged, turns[0]));
    }
  }

  /** Entries after a put, mark, flush or erase: old ones stay as they are, new ones lie beyond. */
  lemma EffectEntries(c: Codec, ix: Index, op: Op, offset: nat, id: string)
    requires !op.Complete? && id in ix.pending.at && id in Effect(c, ix, op, offset).pending.at
    ensures var p := Effect(c, ix, op, offset).pending.at[id];
      if op.Commit? && exists t :: t in Puts(ix, op) && t.id == id then p.offset >= offset
      else p == ix.pending.at[id]
  {
    if op.Erase? {
      RecordForgetEntries(ix, op.ids);
    } else {
      var puts := Puts(ix, op);
      RecordMarksKeeps(RecordPuts(c, ix, puts, Now(op), offset), Marks(ix, op));
      RecordPutsEntries(c, ix, puts, Now(op), offset);
      if op.Flush? {
        var staged := StageAppends(ix, Flatten(op.batch), NOTHING);
        StagedIsNew(ix, Flatten(op.batch), NOTHING);
        StageAppendsStageable(ix, Flatten(op.batch), NOTHING);
        ListedFromIn(staged.keys, staged.at);
      }
    }
  }

  lemma PerformEntries(c: Codec, s: Sys, op: Op, io: Io, id: string)
    requires !op.Complete? && id in s.spool.ix.pending.at
    ensures var (s', ok) := Perform(c, s, op, io);
      id in s'.spool.ix.pending.at ==>
        if ok && op.Commit? && exists t :: t in Puts(s.spool.ix, op) && t.id == id
        then s'.spool.ix.pending.at[id].offset >= |s.spool.file|
        else s'.spool.ix.pending.at[id] == s.spool.ix.pending.at[id]
  {
    var (s', ok) := Perform(c, s, op, io);
    if ok && Plan(s.spool.ix, op) != [] && id in s'.spool.ix.pending.at {
      EffectEntries(c, s.spool.ix, op, |s.spool.file|, id);
    } else if ok && Plan(s.spool.ix, op) == [] && op.Commit? {
      assert Puts(s.spool.ix, op) == [];
    }
  }

  /** Entries of a snapshot taken when the file had `size0` bytes, after ids in `put` were put. */
  ghost predicate Kept(snap: map<string, Pending>, size0: nat, ix: Index, size: nat, put: set<string>) {
    size0 <= size && forall id :: id in snap ==> EntryIs(snap[id], size0, ix, id, id in put)
  }

  /** Forgotten, or still the snapshot's entry, or a later line if the id was put. */
  predicate EntryIs(entry: Pending, size0: nat, ix: Index, id: string, put: bool) {
    && (id in ix.pending.at || id in ix.forgotten)
    && (id in ix.pending.at ==> if put then ix.pending.at[id].offset >= size0 else ix.pending.at[id] == entry)
  }

  /** What a pass holds comes from its snapshot. */
  ghost predicate OfSnapshot(snap: map<string, Pending>, d: Drain) {
    && (forall x :: x in Rest(d) ==> x.id in snap && x.entry == snap[x.id])
    && (d.Reading? || d.Writing? ==> d.item.id in snap && d.item.entry == snap[d.item.id])
    && (forall w :: w in DoneOf(d) ==> w.id in snap && w.hmac == snap[w.id].hmac)
  }

  /** `s` lies inside the pass whose snapshot was taken in `s0`. */
  ghost predicate Within(s0: Sys, s: Sys, put: set<string>) {
    && Kept(s0.spool.ix.pending.at, |s0.spool.file|, s.spool.ix, |s.spool.file|, put)
    && OfSnapshot(s0.spool.ix.pending.at, s.drain)
  }

  function PutIds(ix: Index, op: Op, ok: bool): set<string> {
    if ok then set t | t in Puts(ix, op) :: t.id else {}
  }

  /** One id of the snapshot, before and after an operation that is not the pass's own end. */
  lemma EntryKept(c: Codec, entry: Pending, size0: nat, s: Sys, put: bool, op: Op, io: Io, id: string)
    requires EntryIs(entry, size0, s.spool.ix, id, put) && size0 <= |s.spool.file|
    requires !op.Complete? && Inv(c, s) && s.boot.Up?
    ensures var (s', ok) := Perform(c, s, op, io);
      EntryIs(entry, size0, s'.spool.ix, id, put || id in PutIds(s.spool.ix, op, ok && op.Commit?))
  {
    hide Inv, Puts;
    var s' := Perform(c, s, op, io).0;
    if id in s.spool.ix.pending.at {
      PerformLeaves(c, s, op, io, id);
      PerformEntries(c, s, op, io, id);
    } else {
      InvAgrees(c, s);
      PerformKeeps(c, s, op, io);
    }
    if id in s'.spool.ix.pending.at {
      PerformLive(c, s, op, io, id);
    }
  }

  lemma PerformWithin(c: Codec, s0: Sys, s: Sys, put: set<string>, op: Op, io: Io)
    requires Within(s0, s, put) && !op.Complete? && Inv(c, s) && s.boot.Up?
    ensures var (s', ok) := Perform(c, s, op, io);
      && s'.drain == s.drain
      && Within(s0, s', put + PutIds(s.spool.ix, op, ok && op.Commit?))
  {
    var (s', ok) := Perform(c, s, op, io);
    InvAgrees(c, s);
    PerformKeeps(c, s, op, io);
    hide Perform, Inv, OfSnapshot, Puts, Agrees, PutIds, EntryIs;
    var snap, size0, more := s0.spool.ix.pending.at, |s0.spool.file|, put + PutIds(s.spool.ix, op, ok && op.Commit?);
    forall id | id in snap
      ensures EntryIs(snap[id], size0, s'.spool.ix, id, id in more)
    {
      EntryKept(c, snap[id], size0, s, id in put, op, io, id);
    }
  }

  /** An id leaves the map only by being forgotten, and a forgotten one does not come back. */
  lemma PerformLeaves(c: Codec, s: Sys, op: Op, io: Io, id: string)
    requires !op.Complete? && Inv(c, s) && s.boot.Up? && id in s.spool.ix.pending.at
    ensures var s' := Perform(c, s, op, io).0; id in s'.spool.ix.pending.at || id in s'.spool.ix.forgotten
  {
    var ix := s.spool.ix;
    hide Inv;
    if op.Erase? {
      ForgetLeaves(ix, op.ids, id);
    } else {
      RecordPutsKeeps(c, ix, Puts(ix, op), Now(op), |s.spool.file|);
      RecordMarksKeeps(RecordPuts(c, ix, Puts(ix, op), Now(op), |s.spool.file|), Marks(ix, op));
    }
  }

  lemma {:induction false} ForgetLeaves(ix: Index, ids: seq<string>, id: string)
    requires id in ix.pending.at || id in ix.forgotten
    ensures id in RecordForget(ix, ids).pending.at || id in RecordForget(ix, ids).forgotten
    decreases |ids|
  {
    if ids != [] {
      ForgetLeaves(Index(ix.pending.Delete(ids[0]), ix.known + {ids[0]},
                         ix.forgotten + {ids[0]}, ix.extracted - {ids[0]}), ids[1..], id);
    }
  }

  /** An id that was pending at the snapshot and is pending now was pending all along. */
  lemma PerformLive(c: Codec, s: Sys, op: Op, io: Io, id: string)
    requires Inv(c, s) && s.boot.Up? && id in Perform(c, s, op, io).0.spool.ix.pending.at
    requires id in s.spool.ix.pending.at || id in s.spool.ix.forgotten
    ensures id in s.spool.ix.pending.at
  {
    var s' := Perform(c, s, op, io).0;
    PerformKeeps(c, s, op, io);
    AgreesCoherent(c, s'.spool, s'.log, s'.seeds);
  }

  lemma WithinStep(c: Codec, s0: Sys, s: Sys, put: set<string>, step: Step)
    requires c.Valid() && Inv(c, s) && Within(s0, s, put) && Enabled(c, s, step) && InsidePass([step])
    ensures Within(s0, Do(c, s, step), put + PutBy(c, s, step))
  {
    hide Do, Inv, Kept, OfSnapshot, PutBy;
    assert step in [step];
    if step.Capture? || step.WriterFlush? || step.ForgetErase? {
      SerialWithin(c, s0, s, put, step);
    } else if step.DrainNext? || step.DrainRead? || step.DrainWrote? {
      PassWithin(c, s0, s, put, step);
    } else {
      OtherStep(c, s, step);
      KeptKnown(s0.spool.ix.pending.at, |s0.spool.file|, s.spool.ix, Do(c, s, step).spool.ix, |s.spool.file|, put);
      assert put + {} == put;
    }
  }

  /** The remaining steps touch neither the pass nor the pending entries. */
  lemma OtherStep(c: Codec, s: Sys, step: Step)
    requires Enabled(c, s, step) && InsidePass([step])
    requires !step.Capture? && !step.WriterFlush? && !step.ForgetErase?
    requires !step.DrainNext? && !step.DrainRead? && !step.DrainWrote?
    ensures var s' := Do(c, s, step);
      && s'.drain == s.drain && s'.spool.file == s.spool.file && s'.log == s.log && s'.written == s.written
      && s'.spool.ix.pending == s.spool.ix.pending && s'.spool.ix.forgotten == s.spool.ix.forgotten
    ensures PutBy(c, s, step) == {}
  {
    hide Crashed, Try, Execute;
    assert step in [step];
  }

  lemma KeptKnown(snap: map<string, Pending>, size0: nat, ix: Index, ix': Index, size: nat, put: set<string>)
    requires Kept(snap, size0, ix, size, put) && ix'.pending == ix.pending && ix'.forgotten == ix.forgotten
    ensures Kept(snap, size0, ix', size, put)
  {
  }

  lemma SerialWithin(c: Codec, s0: Sys, s: Sys, put: set<string>, step: Step)
    requires Inv(c, s) && Within(s0, s, put) && Enabled(c, s, step)
    requires step.Capture? || step.WriterFlush? || step.ForgetErase?
    ensures Within(s0, Do(c, s, step), put + PutBy(c, s, step))
  {
    hide Inv, Kept, OfSnapshot, Perform, Verdicts, Answers, Puts;
    assert put + {} == put;
    match step
    case Capture(op, io) => PerformWithin(c, s0, s, put, op, io);
    case WriterFlush(now, io) => PerformWithin(c, s0, s, put, Flush(TurnsOf(s.writer.batch), now), io);
    case ForgetErase(fid, io) => PerformWithin(c, s0, s, put, Erase(s.forgets[fid].ids), io);
  }

  lemma PassWithin(c: Codec, s0: Sys, s: Sys, put: set<string>, step: Step)
    requires c.Valid() && Inv(c, s) && Within(s0, s, put) && Enabled(c, s, step)
    requires step.DrainNext? || step.DrainRead? || step.DrainWrote?
    ensures Within(s0, Do(c, s, step), put + PutBy(c, s, step))
  {
    hide Do, c.Valid, Kept, OfSnapshot, Agrees, InvDrain, InvForget, InvHistory, InvWriter, PassEnds;
    assert put + {} == put;
    var snap := s0.spool.ix.pending.at;
    if step.DrainNext? {
      NextPass(c, s);
      NextOfSnapshot(snap, s.drain.pass, s.nextToken);
    } else if step.DrainRead? {
      ReadStep(c, s, step.opens);
      ReadOfSnapshot(snap, s.drain, Do(c, s, step).drain);
    } else {
      WroteStep(c, s, step.ok);
      WroteOfSnapshot(c, snap, s.spool.file, s.drain);
    }
  }

  lemma WroteOfSnapshot(c: Codec, snap: map<string, Pending>, file: seq<byte>, d: Drain)
    requires d.Writing? && OfSnapshot(snap, d) && InvOffsets(c, file, d)
    ensures var p := Hold(d.pass, d.item.id, d.token);
      && OfSnapshot(snap, Loop(p.(done := p.done)))
      && OfSnapshot(snap, Loop(p.(done := p.done + [Wrote(d.item.id, d.turn.hmac)])))
  {
    hide Addresses;
    assert Rest(Loop(Hold(d.pass, d.item.id, d.token))) == Rest(d);
  }

  lemma ReadOfSnapshot(snap: map<string, Pending>, d: Drain, d': Drain)
    requires d.Reading? && OfSnapshot(snap, d)
    requires d' == Loop(Hold(d.pass, d.item.id, d.token)) || (d'.Writing? && d' == Writing(d.pass, d.item, d.token, d'.turn))
    ensures OfSnapshot(snap, d')
  {
    assert Rest(d') == Rest(d) && DoneOf(d') == DoneOf(d);
  }

  lemma NextOfSnapshot(snap: map<string, Pending>, p: Pass, token: nat)
    requires OfSnapshot(snap, Loop(p))
    ensures OfSnapshot(snap, Finishing(p))
    ensures p.rest != [] ==>
      var p' := p.(rest := p.rest[1..], processed := p.processed + 1, bytes := p.bytes + p.rest[0].entry.bytes);
      OfSnapshot(snap, Loop(p')) && OfSnapshot(snap, Reading(p', p.rest[0], token))
  {
    if p.rest != [] {
      TakeItem(snap, p);
    }
  }

  lemma TakeItem(snap: map<string, Pending>, p: Pass)
    requires p.rest != [] && OfSnapshot(snap, Loop(p))
    ensures p.rest[0].id in snap && p.rest[0].entry == snap[p.rest[0].id]
    ensures forall x :: x in p.rest[1..] ==> x.id in snap && x.entry == snap[x.id]
  {
    assert p.rest[0] in p.rest;
    assert forall x :: x in p.rest[1..] ==> x in p.rest;
  }

  lemma {:induction false} WithinRun(c: Codec, s0: Sys, s: Sys, put: set<string>, steps: seq<Step>)
    requires c.Valid() && Inv(c, s) && Within(s0, s, put) && CanRun(c, s, steps) && InsidePass(steps)
    ensures Within(s0, RunAll(c, s, steps), put + PutByAll(c, s, steps))
    decreases |steps|
  {
    hide Do, Inv, Within, PutBy, Enabled;
    if steps == [] {
      assert put + {} == put;
    } else {
      assert steps[0] in steps;
      assert InsidePass([steps[0]]) && InsidePass(steps[1..]);
      WithinStep(c, s0, s, put, steps[0]);
      StepKeeps(c, s, steps[0]);
      WithinRun(c, s0, Do(c, s, steps[0]), put + PutBy(c, s, steps[0]), steps[1..]);
      assert put + PutBy(c, s, steps[0]) + PutByAll(c, Do(c, s, steps[0]), steps[1..]) == put + PutByAll(c, s, steps);
    }
  }

  /** For every pass: when it comes to write its done lines, an id it wrote successfully is still
      the journal line it wrote if and only if no commitCapture put that id since the snapshot. */
  lemma CompletesWhatItWrote(c: Codec, before: seq<Step>, maxTurns: int, inside: seq<Step>, w: Wrote)
    requires c.Valid() && CanRun(c, START, before)
    requires var s0 := RunAll(c, START, before);
      && s0.boot.Up? && s0.drain.Idle?
      && CanRun(c, Do(c, s0, DrainStart(maxTurns)), inside) && InsidePass(inside)
      && var s := RunAll(c, Do(c, s0, DrainStart(maxTurns)), inside);
      s.drain.Finishing? && w in s.drain.pass.done && w.id in s.spool.ix.pending.at
    ensures var s0 := RunAll(c, START, before);
      var s1 := Do(c, s0, DrainStart(maxTurns));
      var s := RunAll(c, s1, inside);
      && w.id in s0.spool.ix.pending.at && w.hmac == s0.spool.ix.pending.at[w.id].hmac
      && (s.spool.ix.pending.at[w.id] == s0.spool.ix.pending.at[w.id] <==> w.id !in PutByAll(c, s1, inside))
  {
    hide Do, Inv;
    Reachable(c, before);
    var s0 := RunAll(c, START, before);
    var s1 := Do(c, s0, DrainStart(maxTurns));
    StepKeeps(c, s0, DrainStart(maxTurns));
    InvAgrees(c, s0);
    StartWithin(c, s0, maxTurns);
    WithinRun(c, s0, s1, {}, inside);
    OldOffsets(c, s0, w.id);
  }

  lemma InvAgrees(c: Codec, s: Sys)
    requires Inv(c, s) && s.boot.Up?
    ensures Agrees(c, s.spool, s.log, s.seeds)
  {
  }

  lemma SnapshotItems(ix: Index)
    requires Coherent(ix)
    ensures forall x :: x in Window(ix.pending.keys, ix.pending.at) ==> x.id in ix.pending.at && x.entry == ix.pending.at[x.id]
  {
    WindowOf(ix.pending.keys, ix.pending.at);
  }

  lemma StartWithin(c: Codec, s0: Sys, maxTurns: int)
    requires Agrees(c, s0.spool, s0.log, s0.seeds) && s0.boot.Up? && s0.drain.Idle?
    ensures Within(s0, Do(c, s0, DrainStart(maxTurns)), {})
  {
    AgreesCoherent(c, s0.spool, s0.log, s0.seeds);
    hide Do, Agrees, Window, Coherent;
    SnapshotItems(s0.spool.ix);
    StartStep(c, s0, maxTurns);
  }

  lemma OldOffsets(c: Codec, s0: Sys, id: string)
    requires Inv(c, s0) && s0.boot.Up?
    ensures id in s0.spool.ix.pending.at ==> s0.spool.ix.pending.at[id].offset < |s0.spool.file|
  {
    InvAgrees(c, s0);
    PendingAddressed(c, s0.spool, s0.log, s0.seeds);
    hide Inv;
    if id in s0.spool.ix.pending.at {
      assert Addresses(c, s0.spool.file, id, s0.spool.ix.pending.at[id]);
    }
  }

  // ---------------------------------------------------------------- the body that is lost

  lemma PlanOne(ix: Index, t: Turn)
    requires t.id !in ix.forgotten
    requires t.id in ix.pending.at ==> ix.pending.at[t.id].hmac != t.hmac
    ensures var op := Commit([t], [], "");
      Puts(ix, op) == [t] && Marks(ix, op) == [] && Plan(ix, op) == [Put(t, Some(""))]
  {
    var op := Commit([t], [], "");
    var staged := NOTHING.Set(t.id, t);
    assert PriorHmac(ix, NOTHING, t.id) != Some(t.hmac);
    assert [t][1..] == [];
    assert StageCapture(ix, [t], NOTHING) == StageCapture(ix, [], staged) == staged;
    assert staged.keys == [t.id];
    assert Listed(staged) == [t] + ListedFrom(staged.keys[1..], staged.at);
    assert staged.keys[1..] == [];
    assert PutEntries([t], "") == [Put(t, Some(""))] + PutEntries([t][1..], "");
    assert MarkEntries([]) == [];
  }

  lemma CommitOne(c: Codec, s: Sys, t: Turn)
    requires s.boot.Up? && !s.spool.latched && t.id !in s.spool.ix.forgotten
    requires t.id in s.spool.ix.pending.at ==> s.spool.ix.pending.at[t.id].hmac != t.hmac
    ensures var s' := Do(c, s, Capture(Commit([t], [], ""), Synced)); var e := Put(t, Some(""));
      && s' == s.(spool := s'.spool, log := s'.log)
      && s'.spool.ix == Apply(s.spool.ix, e, |s.spool.file|, |c.Line(e)|)
      && !s'.spool.latched && s'.log.acked == s.log.acked + [e]
  {
    var ix, op, e := s.spool.ix, Commit([t], [], ""), Put(t, Some(""));
    PlanOne(ix, t);
    var offset := |s.spool.file|;
    var next := Apply(ix, e, offset, |c.Line(e)|);
    hide Plan, Puts, Marks, Apply;
    assert [t][1..] == [];
    assert RecordPuts(c, ix, [t], "", offset) == next by { OnePut(c, ix, t, offset); }
    assert RecordMarks(next, []) == next;
    assert Effect(c, ix, op, offset) == next;
  }

  lemma OnePut(c: Codec, ix: Index, t: Turn, offset: nat)
    requires t.id !in ix.forgotten
    ensures RecordPuts(c, ix, [t], "", offset) == Apply(ix, Put(t, Some("")), offset, |c.Line(Put(t, Some("")))|)
  {
    assert [t][1..] == [];
  }

  lemma {:induction false} Extend(c: Codec, s: Sys, steps: seq<Step>, step: Step)
    requires CanRun(c, s, steps) && Enabled(c, RunAll(c, s, steps), step)
    ensures CanRun(c, s, steps + [step]) && RunAll(c, s, steps + [step]) == Do(c, RunAll(c, s, steps), step)
    decreases |steps|
  {
    hide Do, Enabled;
    if steps == [] {
      assert ([] + [step])[1..] == [];
      assert RunAll(c, Do(c, s, step), []) == Do(c, s, step);
    } else {
      assert (steps + [step])[0] == steps[0] && (steps + [step])[1..] == steps[1..] + [step];
      Extend(c, Do(c, s, steps[0]), steps[1..], step);
    }
  }

  /** The pass's end over one written id that is still pending. */
  lemma FinishOne(c: Codec, s: Sys, id: string)
    requires s.boot.Up? && s.drain.Finishing? && Ids(s.drain.pass.done) == [id] && !s.spool.latched
    requires id in s.spool.ix.pending.at && id !in s.spool.ix.forgotten
    ensures var s' := Do(c, s, DrainFinish(Synced));
      && id !in s'.spool.ix.pending.at && s.log.acked <= s'.log.acked
      && s'.written == s.written && s'.asked == s.asked
  {
    var ix := s.spool.ix;
    assert [id][1..] == [];
    assert Eligible(ix, [id]) == [id] + Eligible(ix, []) == [id];
    assert DoneEntries([id]) == [Done(id)] + DoneEntries([]);
    RecordDoneKeeps(ix, [id]);
  }

  /** A run up to the moment the body of a freshly captured turn is being written. */
  lemma CaptureAndStartWrite(c: Codec, t: Turn) returns (run: seq<Step>)
    requires c.Valid() && |t.content| <= 256 * 1024
    ensures CanRun(c, START, run) && WritingOnly(RunAll(c, START, run), t)
  {
    hide Do, Inv, c.Valid, Enabled, Apply;
    run := [];
    var commit := Capture(Commit([t], [], ""), Synced);
    Allowed(c, START, commit);
    Extend(c, START, run, commit);
    run := run + [commit];
    CommitOne(c, START, t);
    FirstPut(c, t);
    var s1 := Do(c, START, commit);

    Allowed(c, s1, DrainStart(1000));
    Extend(c, START, run, DrainStart(1000));
    run := run + [DrainStart(1000)];
    StartStep(c, s1, 1000);
    StartRest(c, s1, 1000);
    OneWindow(t.id, PendingOf(t, Some(""), 0, |c.Line(Put(t, Some("")))|));
    var s2 := Do(c, s1, DrainStart(1000));

    Allowed(c, s2, DrainNext);
    Extend(c, START, run, DrainNext);
    run := run + [DrainNext];
    Reachable(c, run);
    NextReads(c, s2);
    var s3 := Do(c, s2, DrainNext);

    Allowed(c, s3, DrainRead(true));
    Extend(c, START, run, DrainRead(true));
    run := run + [DrainRead(true)];
    OffsetsOf(c, s3);
    ReadStep(c, s3, true);
  }

  /** `t` is the one pending turn and its body is being written. */
  ghost predicate WritingOnly(s: Sys, t: Turn) {
    && s.boot.Up? && s.drain.Writing? && s.drain.pass.rest == [] && s.drain.pass.done == []
    && s.drain.item.id == t.id && s.drain.turn.hmac == t.hmac
    && t.id in s.spool.ix.pending.at && s.spool.ix.pending.at[t.id].hmac == t.hmac
    && t.id !in s.spool.ix.forgotten && !s.spool.latched
    && s.written == {} && s.asked == {}
  }

  /** The property does fail without that condition: a commitCapture that replaces a turn while
      its old body is being written leaves the new body neither pending, nor written, nor
      forgotten, although the journal acknowledged it; no failure and no crash is needed. */
  lemma ReplacedBodyIsLost(c: Codec, t1: Turn, t2: Turn) returns (run: seq<Step>)
    requires c.Valid() && t1.id == t2.id && t1.hmac != t2.hmac && |t1.content| <= 256 * 1024
    ensures CanRun(c, START, run)
    ensures var s := RunAll(c, START, run);
      && Put(t2, Some("")) in s.log.acked
      && t2.id !in s.spool.ix.pending.at && t2.id !in s.asked && Wrote(t2.id, t2.hmac) !in s.written
  {
    hide Do, c.Valid, Enabled, Apply;
    run := CaptureAndStartWrite(c, t1);
    var s4 := RunAll(c, START, run);
    var commit := Capture(Commit([t2], [], ""), Synced);
    Allowed(c, s4, commit);
    Extend(c, START, run, commit);
    run := run + [commit];
    CommitOne(c, s4, t2);
    SecondPut(s4.spool.ix, t2, |s4.spool.file|, |c.Line(Put(t2, Some("")))|);
    var s5 := Do(c, s4, commit);

    Allowed(c, s5, DrainWrote(true));
    Extend(c, START, run, DrainWrote(true));
    run := run + [DrainWrote(true)];
    WroteStep(c, s5, true);
    WroteRest(c, s5, true);
    var s6 := Do(c, s5, DrainWrote(true));

    Allowed(c, s6, DrainNext);
    Extend(c, START, run, DrainNext);
    run := run + [DrainNext];
    NextPass(c, s6);
    var s7 := Do(c, s6, DrainNext);
    assert s7.drain.Finishing?;
    assert Ids(s7.drain.pass.done) == [t1.id];

    Allowed(c, s7, DrainFinish(Synced));
    Extend(c, START, run, DrainFinish(Synced));
    run := run + [DrainFinish(Synced)];
    FinishOne(c, s7, t1.id);
    var n := |s4.log.acked|;
    assert s7.log.acked[n] == Put(t2, Some(""));
    assert RunAll(c, START, run).log.acked[n] == Put(t2, Some(""));
  }

  lemma Allowed(c: Codec, s: Sys, step: Step)
    requires s.boot.Up?
    requires match step
      case Capture(op, _) => op.Commit? case DrainStart(_) => s.drain.Idle? case DrainNext => s.drain.Loop?
      case DrainRead(_) => s.drain.Reading? case DrainWrote(_) => s.drain.Writing?
      case DrainFinish(_) => s.drain.Finishing? case _ => false
    ensures Enabled(c, s, step)
  {
  }

  lemma FirstPut(c: Codec, t: Turn)
    ensures var e := Put(t, Some("")); var ix := Apply(Fresh({}), e, 0, |c.Line(e)|);
      ix.pending == OMap([t.id], map[t.id := PendingOf(t, Some(""), 0, |c.Line(e)|)]) && ix.forgotten == {}
  {
  }

  lemma SecondPut(ix: Index, t: Turn, offset: nat, length: nat)
    requires t.id !in ix.forgotten
    ensures var ix' := Apply(ix, Put(t, Some("")), offset, length);
      t.id in ix'.pending.at && ix'.forgotten == ix.forgotten
  {
  }

  lemma OneWindow(id: string, p: Pending)
    ensures Window([id], map[id := p]) == [Item(id, p)]
  {
    assert [id][1..] == [];
  }

  lemma NextReads(c: Codec, s: Sys)
    requires s.boot.Up? && s.drain.Loop? && !PassEnds(s.drain.pass)
    requires var id := s.drain.pass.rest[0].id; id in s.spool.ix.pending.at && id !in s.spool.ix.forgotten
    ensures var p, s' := s.drain.pass, Do(c, s, DrainNext);
      && s'.drain.Reading? && s'.drain.item == p.rest[0] && s'.spool == s.spool && s'.boot == s.boot
      && s'.drain.pass.rest == p.rest[1..] && s'.drain.pass.done == p.done
      && s'.log == s.log && s'.written == s.written && s'.asked == s.asked
  {
  }

  lemma OffsetsOf(c: Codec, s: Sys)
    requires Inv(c, s)
    ensures InvOffsets(c, s.spool.file, s.drain)
  {
  }

}
