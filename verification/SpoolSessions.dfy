/** Forgetting a session or a user: what is forgotten is what was there when it was asked for
    (src/capture/source-turn-spool.ts:390-416). */
module SpoolSessions {
  import opened OrderedMap
  import opened SpoolJournal
  import opened SpoolOps
  import opened SpoolStartup
  import opened SpoolProtocol
  import opened SpoolSteps
  import opened SpoolSafety
  import opened SpoolTheorems
  import opened SpoolKnown
  import opened SpoolRace
  import opened SpoolAnswers

  datatype Whose = OfUser(userId: string) | OfSession(userId: string, sessionId: string)
  {
    predicate Owns(userId: string, sessionId: string) {
      this.userId == userId && (OfSession? ==> this.sessionId == sessionId)
    }
  }

  /** The ids forgetUser or forgetSession finds: pending or marked for the user, and the session. */
  ghost predicate Found(ix: Index, w: Whose, id: string) {
    || (id in ix.pending.at && w.Owns(ix.pending.at[id].userId, ix.pending.at[id].sessionId))
    || (id in ix.extracted && w.Owns(ix.extracted[id].userId, ix.extracted[id].sessionId))
  }

  // ---------------------------------------------------------------- where an entry comes from

  /** A put line with the id, the owner and the hmac of a pending entry. */
  predicate PutFor(e: Entry, id: string, p: Pending) {
    e.Put? && e.turn.id == id && e.turn.userId == p.userId && e.turn.sessionId == p.sessionId && e.turn.hmac == p.hmac
  }

  ghost predicate PutIn(es: seq<Entry>, id: string, p: Pending) {
    exists e :: e in es && PutFor(e, id, p)
  }

  predicate SamePending(a: Index, b: Index, id: string) {
    id in a.pending.at && id in b.pending.at && a.pending.at[id] == b.pending.at[id]
  }

  lemma {:induction false} PendingSince(c: Codec, ix: Index, es: seq<Entry>, offset: nat, id: string)
    requires id in Replay(c, ix, es, offset).pending.at
    ensures SamePending(Replay(c, ix, es, offset), ix, id) || PutIn(es, id, Replay(c, ix, es, offset).pending.at[id])
    decreases |es|
  {
    hide Apply;
    if es != [] {
      var length := |c.Line(es[0])|;
      var next := Apply(ix, es[0], offset, length);
      PendingSince(c, next, es[1..], offset + length, id);
      assert es == [es[0]] + es[1..];
      assert es[0] in es;
      if SamePending(Replay(c, ix, es, offset), next, id) {
        ApplyPending(ix, es[0], offset, length, id);
      }
    }
  }

  lemma ApplyPending(ix: Index, e: Entry, offset: nat, length: nat, id: string)
    requires id in Apply(ix, e, offset, length).pending.at
    ensures SamePending(Apply(ix, e, offset, length), ix, id) || PutFor(e, id, Apply(ix, e, offset, length).pending.at[id])
  {
  }

  lemma {:induction false} MarkedSince(c: Codec, ix: Index, es: seq<Entry>, offset: nat, id: string)
    requires id in Replay(c, ix, es, offset).extracted
    ensures var m := Replay(c, ix, es, offset).extracted[id]; (id in ix.extracted && ix.extracted[id] == m) || Extracted(id, m) in es
    decreases |es|
  {
    hide Apply;
    if es != [] {
      var length := |c.Line(es[0])|;
      var next := Apply(ix, es[0], offset, length);
      MarkedSince(c, next, es[1..], offset + length, id);
      assert es == [es[0]] + es[1..];
      assert es[0] in es;
      if id in next.extracted {
        ApplyMarked(ix, es[0], offset, length, id);
      }
    }
  }

  lemma ApplyMarked(ix: Index, e: Entry, offset: nat, length: nat, id: string)
    requires id in Apply(ix, e, offset, length).extracted
    ensures var m := Apply(ix, e, offset, length).extracted[id]; (id in ix.extracted && ix.extracted[id] == m) || e == Extracted(id, m)
  {
  }

  /** Every entry and marker was in the earlier maps, or was put or marked by a later line. */
  lemma SinceThen(c: Codec, s0: Sys, s1: Sys, id: string)
    requires Inv(c, s0) && Inv(c, s1) && s0.boot.Up? && s1.boot.Up? && s0.log.acked <= s1.log.acked
    ensures var later := s1.log.acked[|s0.log.acked|..];
      && (id in s1.spool.ix.pending.at ==> SamePending(s1.spool.ix, s0.spool.ix, id) || PutIn(later, id, s1.spool.ix.pending.at[id]))
      && (id in s1.spool.ix.extracted ==>
            var m := s1.spool.ix.extracted[id]; (id in s0.spool.ix.extracted && s0.spool.ix.extracted[id] == m) || Extracted(id, m) in later)
  {
    hide InvDrain, InvForget, InvOffsets, InvHistory, InvWriter, Replay, PutIn, Filed;
    var later := s1.log.acked[|s0.log.acked|..];
    var r0, r1 := Replay(c, Fresh({}), s0.log.acked, 0), Replay(c, Fresh({}), s1.log.acked, 0);
    Unseeded(c, s0.log.acked, s0.seeds);
    Unseeded(c, s1.log.acked, s1.seeds);
    assert s1.log.acked == s0.log.acked + later;
    ReplayAppend(c, Fresh({}), s0.log.acked, later, 0);
    if id in r1.pending.at {
      PendingSince(c, r0, later, |c.Bytes(s0.log.acked)|, id);
    }
    if id in r1.extracted {
      MarkedSince(c, r0, later, |c.Bytes(s0.log.acked)|, id);
    }
  }

  lemma Unseeded(c: Codec, es: seq<Entry>, seeds: set<string>)
    ensures var a, b := Replay(c, Fresh(seeds), es, 0), Replay(c, Fresh({}), es, 0);
      a.pending == b.pending && a.extracted == b.extracted && a.forgotten == b.forgotten
  {
    hide Replay;
    ReplaySeeds(c, Fresh({}), es, 0, seeds);
    assert Fresh({}).(known := {} + seeds) == Fresh(seeds);
  }

  // ---------------------------------------------------------------- from the call to any later state

  predicate NoCrash(steps: seq<Step>) {
    forall i :: 0 <= i < |steps| ==> !steps[i].Crash?
  }

  /** A call keeps its ids while the process lives. */
  lemma IdsStay(c: Codec, s: Sys, step: Step, fid: nat)
    requires Enabled(c, s, step) && s.boot.Up? && !step.Crash? && fid in s.forgets
    ensures var s' := Do(c, s, step); s'.boot.Up? && fid in s'.forgets && s'.forgets[fid].ids == s.forgets[fid].ids
  {
    hide Do;
    if OfPass(step) {
      PassFrame(c, s, step);
    } else if OfWriter(step) {
      WriterFrame(c, s, step);
    } else if OfForget(step) {
      ForgetForgets(c, s, step, fid);
    } else {
      OtherFrame(c, s, step);
    }
  }

  lemma ForgetForgets(c: Codec, s: Sys, step: Step, fid: nat)
    requires Enabled(c, s, step) && OfForget(step) && s.boot.Up? && fid in s.forgets
    ensures var s' := Do(c, s, step); s'.boot.Up? && fid in s'.forgets && s'.forgets[fid].ids == s.forgets[fid].ids
  {
    hide DoPass, DoWriter, Crashed, Try, Execute, NextLog, TokensOf;
  }

  lemma {:induction false} RunIds(c: Codec, s: Sys, steps: seq<Step>, fid: nat)
    requires c.Valid() && Inv(c, s) && CanRun(c, s, steps) && NoCrash(steps) && s.boot.Up? && fid in s.forgets
    ensures var s' := RunAll(c, s, steps);
      Inv(c, s') && s'.boot.Up? && fid in s'.forgets && s'.forgets[fid].ids == s.forgets[fid].ids
    decreases |steps|
  {
    hide Do, Inv, Enabled;
    if steps != [] {
      IdsStay(c, s, steps[0], fid);
      StepKeeps(c, s, steps[0]);
      assert NoCrash(steps[1..]) by {
        assert forall i :: 0 <= i < |steps| - 1 ==> steps[1..][i] == steps[i + 1];
      }
      RunIds(c, Do(c, s, steps[0]), steps[1..], fid);
    }
  }

  /** An id tombstoned once is in every later state neither pending nor marked. */
  lemma TombstoneStays(c: Codec, s: Sys, steps: seq<Step>, id: string)
    requires c.Valid() && Inv(c, s) && CanRun(c, s, steps) && s.boot.Up? && RunAll(c, s, steps).boot.Up? && id in s.spool.ix.forgotten
    ensures var ix := RunAll(c, s, steps).spool.ix; id !in ix.pending.at && id !in ix.extracted
  {
    hide Do, Inv, CanRun, Named, LastMarker;
    KnownIs(c, s, id);
    LogGrows(c, s, steps);
    RunKeeps(c, s, steps);
    KnownIs(c, RunAll(c, s, steps), id);
    MapsCoherent(c, RunAll(c, s, steps));
  }

  /** The call's tombstones are synced. */
  predicate Erased(s: Sys, fid: nat) {
    fid in s.forgets && s.forgets[fid].AwaitDrain?
  }

  lemma EraseTombstones(c: Codec, s: Sys, fid: nat, io: Io, s': Sys)
    requires Inv(c, s) && Enabled(c, s, ForgetErase(fid, io)) && fid in s.forgets
    requires s' == Do(c, s, ForgetErase(fid, io)) && Erased(s', fid)
    ensures forall id :: id in s.forgets[fid].ids ==> id in s'.spool.ix.forgotten
    ensures s'.boot.Up?
  {
    hide Agrees, Perform, InvOffsets, InvWriter, InvDrain, InvForget, InvHistory;
    PerformKeeps(c, s, Erase(s.forgets[fid].ids), io);
  }

  /** Once the tombstones of a forgetSession or forgetUser are synced, in every later state all that is
      pending or marked for the session or user was put or marked after the call: by a capture or an append
      that came later, or whose request still waited when the ids were read. */
  lemma OnlyLaterLeft(c: Codec, before: seq<Step>, s0: Sys, w: Whose, fid: nat, ids: seq<string>, inside: seq<Step>, s2: Sys,
                      io: Io, after: seq<Step>, s: Sys)
    requires c.Valid() && CanRun(c, START, before) && s0 == RunAll(c, START, before)
    requires s0.boot.Up? && Enabled(c, s0, ForgetCall(fid, ids)) && forall id :: Found(s0.spool.ix, w, id) ==> id in ids
    requires CanRun(c, Do(c, s0, ForgetCall(fid, ids)), inside) && NoCrash(inside) && s2 == RunAll(c, Do(c, s0, ForgetCall(fid, ids)), inside)
    requires Enabled(c, s2, ForgetErase(fid, io)) && Erased(Do(c, s2, ForgetErase(fid, io)), fid)
    requires CanRun(c, Do(c, s2, ForgetErase(fid, io)), after) && s == RunAll(c, Do(c, s2, ForgetErase(fid, io)), after) && s.boot.Up?
    ensures s0.log.acked <= s.log.acked
    ensures forall id :: Found(s.spool.ix, w, id) ==> FoundIn(s.log.acked[|s0.log.acked|..], w, id)
  {
    hide Do, Inv, CanRun, Enabled, Found, FoundIn, Erased;
    Reachable(c, before);
    var s1 := Do(c, s0, ForgetCall(fid, ids));
    StepKeeps(c, s0, ForgetCall(fid, ids));
    LogStep(c, s0, ForgetCall(fid, ids));
    CallIds(c, s0, fid, ids);
    RunIds(c, s1, inside, fid);
    LogGrows(c, s1, inside);
    var s3 := Do(c, s2, ForgetErase(fid, io));
    EraseTombstones(c, s2, fid, io, s3);
    StepKeeps(c, s2, ForgetErase(fid, io));
    LogStep(c, s2, ForgetErase(fid, io));
    LogGrows(c, s3, after);
    RunKeeps(c, s3, after);
    forall id | Found(s.spool.ix, w, id)
      ensures FoundIn(s.log.acked[|s0.log.acked|..], w, id)
    {
      if id in ids {
        TombstoneStays(c, s3, after, id);
      }
      FoundSince(c, s0, s, w, id, ids);
    }
  }

  lemma CallIds(c: Codec, s: Sys, fid: nat, ids: seq<string>)
    requires Enabled(c, s, ForgetCall(fid, ids))
    ensures var s' := Do(c, s, ForgetCall(fid, ids)); s'.boot.Up? && fid in s'.forgets && s'.forgets[fid].ids == ids
  {
  }

  /** A line of the journal puts or marks the id for the session or user. */
  ghost predicate FoundIn(es: seq<Entry>, w: Whose, id: string) {
    exists e :: e in es && PutsOrMarks(e, w, id)
  }

  predicate PutsOrMarks(e: Entry, w: Whose, id: string) {
    match e
    case Put(turn, _) => turn.id == id && w.Owns(turn.userId, turn.sessionId)
    case Extracted(x, m) => x == id && w.Owns(m.userId, m.sessionId)
    case _ => false
  }

  lemma FoundSince(c: Codec, s0: Sys, s: Sys, w: Whose, id: string, ids: seq<string>)
    requires Inv(c, s0) && Inv(c, s) && s0.boot.Up? && s.boot.Up? && s0.log.acked <= s.log.acked
    requires Found(s0.spool.ix, w, id) ==> id in ids
    requires id in ids ==> id !in s.spool.ix.pending.at && id !in s.spool.ix.extracted
    requires Found(s.spool.ix, w, id)
    ensures FoundIn(s.log.acked[|s0.log.acked|..], w, id)
  {
    hide Inv, PutIn;
    var later := s.log.acked[|s0.log.acked|..];
    SinceThen(c, s0, s, id);
    if id in s.spool.ix.pending.at && w.Owns(s.spool.ix.pending.at[id].userId, s.spool.ix.pending.at[id].sessionId) {
      PutFound(later, w, id, s.spool.ix.pending.at[id]);
    } else {
      assert PutsOrMarks(Extracted(id, s.spool.ix.extracted[id]), w, id);
    }
  }

  lemma PutFound(es: seq<Entry>, w: Whose, id: string, p: Pending)
    requires PutIn(es, id, p) && w.Owns(p.userId, p.sessionId)
    ensures FoundIn(es, w, id)
  {
    var e :| e in es && PutFor(e, id, p);
    assert PutsOrMarks(e, w, id);
  }

  // ---------------------------------------------------------------- a request that waited

  /** A process with one append request of the turn, a call that found nothing to forget, and this writer. */
  predicate Stage(s: Sys, t: Turn, w: Writer, queue: seq<Request>, f: Forgetter) {
    && s.boot.Up? && !s.spool.latched && s.writer == w && s.queue == queue && s.inFlight == map[]
    && s.forgets == map[0 := f]
  }

  lemma CalledWhileQueued(c: Codec, t: Turn)
    ensures var req := Request(0, [t]); var s1 := Do(c, START, Submit(0, [t])); var s2 := Do(c, s1, ForgetCall(0, []));
      var s3 := Do(c, s2, WriterTake);
      && Enabled(c, START, Submit(0, [t])) && Enabled(c, s1, ForgetCall(0, [])) && s1.spool.ix == Fresh({})
      && Enabled(c, s2, WriterTake) && Stage(s3, t, Flushing(0, [req]), [], AwaitWriter([], 0)) && s3.spool == START.spool
  {
  }

  lemma Flushed(c: Codec, s: Sys, t: Turn)
    requires Stage(s, t, Flushing(0, [Request(0, [t])]), [], AwaitWriter([], 0)) && s.spool == START.spool
    ensures Enabled(c, s, WriterFlush("", Synced))
    ensures var s' := Do(c, s, WriterFlush("", Synced));
      Stage(s', t, Running(0), [], AwaitWriter([], 0)) && HoldsTurn(s'.spool.ix, t)
  {
    hide Effect, Replay;
    var turns := TurnsOf([Request(0, [t])]);
    assert turns == [[t]] && Flatten(turns) == [t] && Verdicts(s.spool.ix, [t], NOTHING)[0].accepted;
    NewMeansLines(s.spool.ix, turns, "");
    assert New(s.spool.ix, [t], 0);
    AcceptedMeansHeld(c, s.spool, turns, "", Synced, 0);
  }

  lemma WriterLeaves(c: Codec, s: Sys, t: Turn)
    requires Stage(s, t, Running(0), [], AwaitWriter([], 0))
    ensures var s1 := Do(c, s, WriterExit); var s2 := Do(c, s1, WriterFinally); var s3 := Do(c, s2, ForgetAwaited(0));
      && Enabled(c, s, WriterExit) && Enabled(c, s1, WriterFinally) && Enabled(c, s2, ForgetAwaited(0))
      && Stage(s3, t, NoWriter, [], Ready([])) && s3.spool == s.spool
  {
  }

  lemma ErasedNothing(c: Codec, s: Sys, t: Turn)
    requires Stage(s, t, NoWriter, [], Ready([]))
    ensures var s1 := Do(c, s, ForgetErase(0, Synced)); var s2 := Do(c, s1, ForgetResolve(0));
      && Enabled(c, s, ForgetErase(0, Synced)) && Enabled(c, s1, ForgetResolve(0))
      && s2.boot.Up? && s2.spool == s.spool && s2.forgets == map[0 := Resolved([])]
  {
    hide NextLog;
    assert Plan(s.spool.ix, Erase([])) == [];
  }

  /** It does happen: a turn whose append request waited when its session was forgotten is still pending when
      the call resolves, although nothing failed. */
  lemma WaitingTurnSurvives(c: Codec, t: Turn) returns (run: seq<Step>)
    ensures |run| == 9 && run[..2] == [Submit(0, [t]), ForgetCall(0, [])] && CanRun(c, START, run)
    ensures forall id :: !Found(RunAll(c, START, run[..1]).spool.ix, OfSession(t.userId, t.sessionId), id)
    ensures var s := RunAll(c, START, run); 0 in s.forgets && s.forgets[0].Resolved? && HoldsTurn(s.spool.ix, t)
  {
    hide Do, Enabled, HoldsTurn, Stage;
    var s0 := START;
    CalledWhileQueued(c, t);
    var s1 := Do(c, s0, Submit(0, [t]));
    var s2 := Do(c, s1, ForgetCall(0, []));
    var s3 := Do(c, s2, WriterTake);
    Flushed(c, s3, t);
    var s4 := Do(c, s3, WriterFlush("", Synced));
    WriterLeaves(c, s4, t);
    var s5 := Do(c, s4, WriterExit);
    var s6 := Do(c, s5, WriterFinally);
    var s7 := Do(c, s6, ForgetAwaited(0));
    ErasedNothing(c, s7, t);
    var s8 := Do(c, s7, ForgetErase(0, Synced));
    run := [];
    run := OneMore(c, run, Submit(0, [t]));
    run := OneMore(c, run, ForgetCall(0, []));
    run := OneMore(c, run, WriterTake);
    run := OneMore(c, run, WriterFlush("", Synced));
    run := OneMore(c, run, WriterExit);
    run := OneMore(c, run, WriterFinally);
    run := OneMore(c, run, ForgetAwaited(0));
    run := OneMore(c, run, ForgetErase(0, Synced));
    run := OneMore(c, run, ForgetResolve(0));
    assert run[..1] == [Submit(0, [t])] && [Submit(0, [t])][1..] == [];
    assert RunAll(c, START, run[..1]) == s1;
  }

  lemma OneMore(c: Codec, run: seq<Step>, step: Step) returns (longer: seq<Step>)
    requires CanRun(c, START, run) && Enabled(c, RunAll(c, START, run), step)
    ensures longer == run + [step] && CanRun(c, START, longer) && RunAll(c, START, longer) == Do(c, RunAll(c, START, run), step)
  {
    hide Do, Enabled;
    Extend(c, START, run, step);
    longer := run + [step];
  }
}
