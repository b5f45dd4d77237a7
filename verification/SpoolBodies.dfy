/** Whether every acknowledged body is kept: the last put of an id stays pending until that very
    body is written or the id is forgotten, as long as no pass completes an id whose pending
    body it has not written (src/capture/source-turn-spool.ts:105-138, 348-388). */
module SpoolBodies {
  import opened OrderedMap
  import opened SpoolJournal
  import opened SpoolOps
  import opened SpoolStartup
  import opened SpoolProtocol
  import opened SpoolSafety
  import opened SpoolSteps
  import opened SpoolRace
  import SpoolTheorems

  // ---------------------------------------------------------------- the last put of an id

  function LastPut(es: seq<Entry>, id: string): Option<Hmac> {
    if es == [] then None
    else
      var later := LastPut(es[1..], id);
      if later.Some? then later else if es[0].Put? && es[0].turn.id == id then Some(es[0].turn.hmac) else None
  }

  lemma {:induction false} LastPutAppend(a: seq<Entry>, b: seq<Entry>, id: string)
    ensures LastPut(a + b, id) == if LastPut(b, id).Some? then LastPut(b, id) else LastPut(a, id)
  {
    if a == [] {
      assert a + b == b;
    } else {
      assert (a + b)[1..] == a[1..] + b;
      LastPutAppend(a[1..], b, id);
    }
  }

  lemma {:induction false} NoPut(es: seq<Entry>, id: string)
    requires forall e :: e in es ==> !e.Put?
    ensures LastPut(es, id) == None
  {
    if es != [] {
      NoPut(es[1..], id);
    }
  }

  /** A pending entry has the hmac of the last put line of its id. */
  lemma {:induction false} PendingIsLast(c: Codec, ix: Index, es: seq<Entry>, offset: nat, id: string)
    requires Coherent(ix) && id in Replay(c, ix, es, offset).pending.at
    ensures var h := Replay(c, ix, es, offset).pending.at[id].hmac;
      if LastPut(es, id).Some? then h == LastPut(es, id).value else id in ix.pending.at && h == ix.pending.at[id].hmac
    decreases |es|
  {
    if es != [] {
      var e, length := es[0], |c.Line(es[0])|;
      hide Coherent;
      ApplyCoherent(ix, e, offset, length);
      PendingIsLast(c, Apply(ix, e, offset, length), es[1..], offset + length, id);
      if e.Put? && e.turn.id == id && id in ix.forgotten {
        StaysForgotten(c, ix, es, offset, id);
      }
    }
  }

  lemma StaysForgotten(c: Codec, ix: Index, es: seq<Entry>, offset: nat, id: string)
    requires Coherent(ix) && id in ix.forgotten
    ensures id !in Replay(c, ix, es, offset).pending.at
  {
    ReplayForgetsForever(c, ix, es, offset);
    ReplayCoherent(c, ix, es, offset);
  }

  // ---------------------------------------------------------------- fair journals

  ghost predicate Accounted(id: string, h: Hmac, written: set<Wrote>, asked: set<string>) {
    Wrote(id, h) in written || id in asked
  }

  /** Every done line takes out a body that was written, or whose forget was asked for. */
  ghost predicate Fair(c: Codec, ix: Index, es: seq<Entry>, offset: nat, written: set<Wrote>, asked: set<string>)
    decreases |es|
  {
    es == [] ||
    (&& (es[0].Done? && es[0].id in ix.pending.at ==> Accounted(es[0].id, ix.pending.at[es[0].id].hmac, written, asked))
     && Fair(c, Apply(ix, es[0], offset, |c.Line(es[0])|), es[1..], offset + |c.Line(es[0])|, written, asked))
  }

  lemma {:induction false} FairAppend(c: Codec, ix: Index, a: seq<Entry>, b: seq<Entry>, offset: nat, written: set<Wrote>, asked: set<string>)
    ensures Fair(c, ix, a + b, offset, written, asked)
       <==> (Fair(c, ix, a, offset, written, asked)
             && Fair(c, Replay(c, ix, a, offset), b, offset + |c.Bytes(a)|, written, asked))
    decreases |a|
  {
    hide Apply, Accounted;
    if a == [] {
      assert a + b == b;
    } else {
      assert (a + b)[1..] == a[1..] + b;
      var length := |c.Line(a[0])|;
      FairAppend(c, Apply(ix, a[0], offset, length), a[1..], b, offset + length, written, asked);
    }
  }

  lemma {:induction false} FairGrows(c: Codec, ix: Index, es: seq<Entry>, offset: nat, written: set<Wrote>, asked: set<string>,
                                     written': set<Wrote>, asked': set<string>)
    requires Fair(c, ix, es, offset, written, asked) && written <= written' && asked <= asked'
    ensures Fair(c, ix, es, offset, written', asked')
    decreases |es|
  {
    if es != [] {
      hide Apply;
      FairGrows(c, Apply(ix, es[0], offset, |c.Line(es[0])|), es[1..], offset + |c.Line(es[0])|, written, asked, written', asked');
    }
  }

  /** Only the pending bodies and the tombstones matter. */
  lemma {:induction false} FairSame(c: Codec, a: Index, b: Index, es: seq<Entry>, from: nat, to: nat, written: set<Wrote>, asked: set<string>)
    requires Fair(c, a, es, from, written, asked) && SameBodies(a, b)
    ensures Fair(c, b, es, to, written, asked)
    decreases |es|
  {
    hide SameBodies, Apply;
    if es != [] {
      var length := |c.Line(es[0])|;
      BodiesOf(a, b);
      BodiesNext(a, b, es[0], from, to, length);
      FairSame(c, Apply(a, es[0], from, length), Apply(b, es[0], to, length), es[1..], from + length, to + length, written, asked);
    }
  }

  ghost predicate SameBodies(a: Index, b: Index) {
    && a.forgotten == b.forgotten && a.pending.at.Keys == b.pending.at.Keys
    && forall id :: id in a.pending.at ==> a.pending.at[id].hmac == b.pending.at[id].hmac
  }

  lemma BodiesOf(a: Index, b: Index)
    requires SameBodies(a, b)
    ensures forall id :: id in a.pending.at <==> id in b.pending.at
    ensures forall id :: id in a.pending.at ==> a.pending.at[id].hmac == b.pending.at[id].hmac
  {
    assert forall id :: id in a.pending.at.Keys <==> id in b.pending.at.Keys;
  }

  lemma BodiesNext(a: Index, b: Index, e: Entry, from: nat, to: nat, length: nat)
    requires SameBodies(a, b)
    ensures SameBodies(Apply(a, e, from, length), Apply(b, e, to, length))
  {
  }

  lemma {:induction false} FairWithoutDone(c: Codec, ix: Index, es: seq<Entry>, offset: nat, written: set<Wrote>, asked: set<string>)
    requires forall e :: e in es ==> !e.Done?
    ensures Fair(c, ix, es, offset, written, asked)
    decreases |es|
  {
    if es != [] {
      hide Apply;
      FairWithoutDone(c, Apply(ix, es[0], offset, |c.Line(es[0])|), es[1..], offset + |c.Line(es[0])|, written, asked);
    }
  }

  lemma {:induction false} FairDone(c: Codec, ix: Index, ids: seq<string>, offset: nat, written: set<Wrote>, asked: set<string>)
    requires forall id :: id in ids && id in ix.pending.at ==> Accounted(id, ix.pending.at[id].hmac, written, asked)
    ensures Fair(c, ix, DoneEntries(ids), offset, written, asked)
    decreases |ids|
  {
    if ids != [] {
      var e := Done(ids[0]);
      DoneNext(ix, ids[0], offset, |c.Line(e)|);
      DoneHead(ids);
      hide Apply, DoneEntries, Fair, Accounted;
      FairDone(c, Apply(ix, e, offset, |c.Line(e)|), ids[1..], offset + |c.Line(e)|, written, asked);
      FairCons(c, ix, e, DoneEntries(ids[1..]), offset, written, asked);
    }
  }

  lemma DoneHead(ids: seq<string>)
    requires ids != []
    ensures DoneEntries(ids) == [Done(ids[0])] + DoneEntries(ids[1..])
    ensures ids[0] in ids && forall x :: x in ids[1..] ==> x in ids
  {
  }

  lemma FairCons(c: Codec, ix: Index, e: Entry, rest: seq<Entry>, offset: nat, written: set<Wrote>, asked: set<string>)
    requires e.Done? && e.id in ix.pending.at ==> Accounted(e.id, ix.pending.at[e.id].hmac, written, asked)
    requires Fair(c, Apply(ix, e, offset, |c.Line(e)|), rest, offset + |c.Line(e)|, written, asked)
    ensures Fair(c, ix, [e] + rest, offset, written, asked)
  {
    hide Apply;
    assert ([e] + rest)[1..] == rest;
  }

  lemma DoneNext(ix: Index, id: string, offset: nat, length: nat)
    ensures Apply(ix, Done(id), offset, length).pending.at == ix.pending.at - {id}
  {
  }

  /** The body `h` of `id` is pending, or was written. */
  ghost predicate Holds(ix: Index, id: string, h: Hmac, written: set<Wrote>) {
    (id in ix.pending.at && ix.pending.at[id].hmac == h) || Wrote(id, h) in written
  }

  /** A fair journal keeps the last body of every id that is not forgotten. */
  lemma {:induction false} FairKeeps(c: Codec, ix: Index, es: seq<Entry>, offset: nat, id: string, h: Hmac,
                                     written: set<Wrote>, asked: set<string>)
    requires Fair(c, ix, es, offset, written, asked) && id !in ix.forgotten && Forget(id) !in es && id !in asked
    requires LastPut(es, id) == Some(h) || (LastPut(es, id).None? && Holds(ix, id, h, written))
    ensures Holds(Replay(c, ix, es, offset), id, h, written)
    decreases |es|
  {
    if es != [] {
      assert es == [es[0]] + es[1..];
      var next := Apply(ix, es[0], offset, |c.Line(es[0])|);
      assert id !in next.forgotten;
      assert LastPut(es[1..], id).None? ==> Holds(next, id, h, written);
      hide Apply;
      FairKeeps(c, next, es[1..], offset + |c.Line(es[0])|, id, h, written, asked);
    }
  }

  // ---------------------------------------------------------------- over a run

  /** The lines a replay would work from: the acknowledged ones, or what a start-up finds. */
  function Journal(c: Codec, s: Sys): seq<Entry> {
    if s.boot.Up? then s.log.acked else OnDisk(c, s.log)
  }

  /** The last body put for this id is pending, or it was written, or its forget was asked for. */
  ghost predicate Saved(c: Codec, s: Sys, id: string) {
    var last := LastPut(Journal(c, s), id);
    last.Some? ==> Holds(Maps(c, s), id, last.value, s.written) || id in s.asked
  }

  /** The step is one in which a pass completes what it wrote, or dies while doing so. */
  predicate Completing(step: Step) {
    step.DrainFinish? || (step.Crash? && step.op.Complete?)
  }

  /** Every pending body the pass is about to complete has itself been written. */
  ghost predicate Faithful(s: Sys) {
    s.drain.Finishing? ==>
      forall id :: id in Ids(s.drain.pass.done) && id in s.spool.ix.pending.at ==>
        Accounted(id, s.spool.ix.pending.at[id].hmac, s.written, s.asked)
  }

  ghost predicate FaithfulRun(c: Codec, s: Sys, steps: seq<Step>)
    requires CanRun(c, s, steps)
    decreases |steps|
  {
    steps == [] || ((Completing(steps[0]) ==> Faithful(s)) && FaithfulRun(c, Do(c, s, steps[0]), steps[1..]))
  }

  ghost predicate InvFair(c: Codec, log: Log, written: set<Wrote>, asked: set<string>) {
    Fair(c, Fresh({}), log.acked + log.failed, 0, written, asked)
  }

  lemma BodiesOfSeeds(c: Codec, es: seq<Entry>, seeds: set<string>)
    ensures SameBodies(Replay(c, Fresh(seeds), es, 0), Replay(c, Fresh({}), es, 0))
  {
    ReplaySeeds(c, Fresh({}), es, 0, seeds);
    assert Fresh({}).(known := {} + seeds) == Fresh(seeds);
  }

  /** The lines of an operation are fair where they are appended. */
  lemma PlanFair(c: Codec, ix: Index, op: Op, offset: nat, written: set<Wrote>, asked: set<string>)
    requires op.Complete? ==> forall id :: id in op.done && id in ix.pending.at ==> Accounted(id, ix.pending.at[id].hmac, written, asked)
    ensures Fair(c, ix, Plan(ix, op), offset, written, asked)
  {
    hide Fair, Accounted;
    match op
    case Complete(done) =>
      EligiblePending(ix, done);
      FairDone(c, ix, Eligible(ix, done), offset, written, asked);
    case Erase(ids) =>
      ForgetEntriesAre(ids);
      FairWithoutDone(c, ix, Plan(ix, op), offset, written, asked);
    case _ =>
      PutEntriesArePuts(Puts(ix, op), Now(op));
      MarkEntriesAreMarks(Marks(ix, op));
      FairWithoutDone(c, ix, Plan(ix, op), offset, written, asked);
  }

  /** A journal with an operation's lines behind the acknowledged ones is still fair. */
  lemma MoreFair(c: Codec, s: Sys, op: Op)
    requires Agrees(c, s.spool, s.log, s.seeds) && InvFair(c, s.log, s.written, s.asked)
    requires op.Complete? ==> forall id :: id in op.done && id in s.spool.ix.pending.at ==>
      Accounted(id, s.spool.ix.pending.at[id].hmac, s.written, s.asked)
    ensures Fair(c, Fresh({}), s.log.acked, 0, s.written, s.asked)
    ensures Fair(c, Fresh({}), s.log.acked + Plan(s.spool.ix, op), 0, s.written, s.asked)
  {
    hide Fair, Plan, Accounted, Replay;
    var plan, r := Plan(s.spool.ix, op), Replay(c, Fresh({}), s.log.acked, 0);
    FairAppend(c, Fresh({}), s.log.acked, s.log.failed, 0, s.written, s.asked);
    PlanFair(c, s.spool.ix, op, 0, s.written, s.asked);
    BodiesOfSeeds(c, s.log.acked, s.seeds);
    assert SameBodies(s.spool.ix, r);
    FairSame(c, s.spool.ix, r, plan, 0, 0 + |c.Bytes(s.log.acked)|, s.written, s.asked);
    FairAppend(c, Fresh({}), s.log.acked, plan, 0, s.written, s.asked);
  }

  lemma PerformFair(c: Codec, s: Sys, op: Op, io: Io)
    requires Agrees(c, s.spool, s.log, s.seeds) && InvFair(c, s.log, s.written, s.asked)
    requires op.Complete? ==> forall id :: id in op.done && id in s.spool.ix.pending.at ==>
      Accounted(id, s.spool.ix.pending.at[id].hmac, s.written, s.asked)
    ensures InvFair(c, Perform(c, s, op, io).0.log, s.written, s.asked)
  {
    MoreFair(c, s, op);
    hide Fair, Plan, Accounted, Replay, SameMaps;
    var log := Perform(c, s, op, io).0.log;
    assert log == s.log || log.acked + log.failed == s.log.acked + Plan(s.spool.ix, op);
  }

  lemma DoneIds(s: Sys, op: Op)
    requires Faithful(s) && InProgress(s, op) && op.Complete?
    ensures forall id :: id in op.done && id in s.spool.ix.pending.at ==> Accounted(id, s.spool.ix.pending.at[id].hmac, s.written, s.asked)
  {
  }

  lemma DownFair(c: Codec, s: Sys, step: Step)
    requires Inv(c, s) && Enabled(c, s, step) && (step.Crash? || step.Attempted? || step.StartDies?)
    requires InvFair(c, s.log, s.written, s.asked) && (Completing(step) ==> Faithful(s))
    ensures InvFair(c, Do(c, s, step).log, s.written, s.asked)
  {
    DownIs(c, s, step);
    hide Do, InvFair, Inv, StartUp, Faithful;
    match step
    case Crash(op, cut) =>
      CrashUp(c, s, op, cut);
      CrashFair(c, s, op, cut);
    case Attempted(a) => TryFair(c, s.log, s.written, s.asked);
    case _ =>
  }

  lemma CrashUp(c: Codec, s: Sys, op: Op, cut: nat)
    requires Enabled(c, s, Crash(op, cut))
    ensures s.boot.Up? && InProgress(s, op)
  {
  }

  lemma CrashFair(c: Codec, s: Sys, op: Op, cut: nat)
    requires Inv(c, s) && InProgress(s, op) && InvFair(c, s.log, s.written, s.asked) && (op.Complete? ==> Faithful(s))
    ensures InvFair(c, CrashLog(s.spool, s.log, op, cut), s.written, s.asked)
  {
    InvAgrees(c, s);
    hide Inv, Fair, Plan, Accounted, Replay, SameMaps, Faithful;
    if op.Complete? {
      DoneIds(s, op);
    }
    MoreFair(c, s, op);
  }

  lemma TryFair(c: Codec, log: Log, written: set<Wrote>, asked: set<string>)
    requires InvFair(c, log, written, asked)
    ensures InvFair(c, Log(OnDisk(c, log), [], 0, true), written, asked) && InvFair(c, Log(OnDisk(c, log), [], 0, false), written, asked)
  {
    hide Fair, WholeLines;
    var es, rest := OnDisk(c, log), log.failed[WholeLines(c, log.failed, log.cut)..];
    assert es + rest == log.acked + log.failed;
    FairAppend(c, Fresh({}), es, rest, 0, written, asked);
    assert es + [] == es;
  }

  lemma UpFair(c: Codec, s: Sys, step: Step)
    requires Inv(c, s) && Enabled(c, s, step) && s.boot.Up? && !step.Crash?
    requires InvFair(c, s.log, s.written, s.asked) && (Completing(step) ==> Faithful(s))
    ensures var s' := Do(c, s, step);
      InvFair(c, s'.log, s.written, s.asked) && s.written <= s'.written && s.asked <= s'.asked
  {
    hide InvFair, Faithful, Inv, Crashed, Try, Do;
    if step.Capture? || step.WriterFlush? || step.ForgetErase? || step.DrainFinish? {
      var op, io := OpOf(s, step), IoOf(step);
      SerialIs(c, s, step);
      SerialFair(c, s, op, io);
    } else {
      LogStays(c, s, step);
    }
  }

  lemma SerialFair(c: Codec, s: Sys, op: Op, io: Io)
    requires Inv(c, s) && s.boot.Up? && InvFair(c, s.log, s.written, s.asked)
    requires op.Complete? ==> s.drain.Finishing? && op.done == Ids(s.drain.pass.done) && Faithful(s)
    ensures var s' := Perform(c, s, op, io).0;
      InvFair(c, s'.log, s.written, s.asked) && s'.written == s.written && s'.asked == s.asked
  {
    hide InvFair, Accounted, Execute, NextLog;
    InvAgrees(c, s);
    PerformFair(c, s, op, io);
  }

  lemma StepFair(c: Codec, s: Sys, step: Step)
    requires Inv(c, s) && Enabled(c, s, step)
    requires InvFair(c, s.log, s.written, s.asked) && (Completing(step) ==> Faithful(s))
    ensures var s' := Do(c, s, step); InvFair(c, s'.log, s'.written, s'.asked)
  {
    hide Inv, Do, Fair;
    var s' := Do(c, s, step);
    if step.Crash? || step.Attempted? || step.StartDies? {
      DownFair(c, s, step);
      DownFrame(c, s, step);
    } else {
      UpFair(c, s, step);
      FairGrows(c, Fresh({}), s'.log.acked + s'.log.failed, 0, s.written, s.asked, s'.written, s'.asked);
    }
  }

  lemma {:induction false} RunFair(c: Codec, s: Sys, steps: seq<Step>)
    requires c.Valid() && Inv(c, s) && InvFair(c, s.log, s.written, s.asked) && CanRun(c, s, steps) && FaithfulRun(c, s, steps)
    ensures var s' := RunAll(c, s, steps); InvFair(c, s'.log, s'.written, s'.asked)
    decreases |steps|
  {
    hide Inv, InvFair, Do, Enabled, Completing, Faithful;
    if steps != [] {
      StepFair(c, s, steps[0]);
      StepKeeps(c, s, steps[0]);
      RunFair(c, Do(c, s, steps[0]), steps[1..]);
    }
  }

  /** The journal is a first part of what is on disk, and its tombstones were asked for. */
  lemma JournalPart(c: Codec, s: Sys) returns (rest: seq<Entry>)
    requires Inv(c, s)
    ensures Journal(c, s) + rest == s.log.acked + s.log.failed
    ensures forall id :: Forget(id) in Journal(c, s) ==> id in s.asked
    ensures s.boot.Down? ==> Maps(c, s) == Replay(c, Fresh({}), Journal(c, s), 0)
  {
    hide Replay, InvMaps, InvDrain, InvForget, InvOffsets, InvWriter, WholeLines;
    rest := if s.boot.Up? then s.log.failed else s.log.failed[WholeLines(c, s.log.failed, s.log.cut)..];
    forall id | Forget(id) in Journal(c, s)
      ensures id in s.asked
    {
      assert Justified(Forget(id), s.written, s.asked);
    }
  }

  lemma FairSaved(c: Codec, s: Sys, id: string)
    requires Inv(c, s) && InvFair(c, s.log, s.written, s.asked)
    ensures Saved(c, s, id)
  {
    hide Fair, Replay, Inv, LastPut, Holds, Journal;
    var rest := JournalPart(c, s);
    var es := Journal(c, s);
    var last := LastPut(es, id);
    if last.Some? && id !in s.asked {
      FairAppend(c, Fresh({}), es, rest, 0, s.written, s.asked);
      FairKeeps(c, Fresh({}), es, 0, id, last.value, s.written, s.asked);
      if s.boot.Up? {
        JournalUp(c, s);
        UpHolds(c, s, id, last.value);
      }
    }
  }

  lemma JournalUp(c: Codec, s: Sys)
    requires s.boot.Up?
    ensures Journal(c, s) == s.log.acked && Maps(c, s) == s.spool.ix
  {
  }

  lemma UpHolds(c: Codec, s: Sys, id: string, h: Hmac)
    requires Inv(c, s) && s.boot.Up?
    ensures Holds(Replay(c, Fresh({}), s.log.acked, 0), id, h, s.written) <==> Holds(s.spool.ix, id, h, s.written)
  {
    InvAgrees(c, s);
    hide Inv, Replay;
    BodiesOfSeeds(c, s.log.acked, s.seeds);
    BodiesOf(Replay(c, Fresh(s.seeds), s.log.acked, 0), Replay(c, Fresh({}), s.log.acked, 0));
  }

  /** Over every run, with every failure, crash and retried start-up, in which each pass only
      completes bodies that were written: the last body put for any id is pending, or it was
      itself written, or its forget was asked for. */
  lemma BodiesKept(c: Codec, run: seq<Step>, id: string)
    requires c.Valid() && CanRun(c, START, run) && FaithfulRun(c, START, run)
    ensures Saved(c, RunAll(c, START, run), id)
  {
    hide Inv, Do, FaithfulRun, CanRun;
    StartInv(c);
    assert InvFair(c, START.log, START.written, START.asked);
    Reachable(c, run);
    RunFair(c, START, run);
    FairSaved(c, RunAll(c, START, run), id);
  }

  // ---------------------------------------------------------------- one pass

  /** The end of a pass, whose done lines are synced, keeps every last body if and only if each
      pending body it completes has itself been written or its forget was asked for. */
  lemma FinishKeepsBodies(c: Codec, s: Sys)
    requires c.Valid() && Inv(c, s) && s.boot.Up? && s.drain.Finishing? && !s.spool.latched
    requires forall id :: Saved(c, s, id)
    ensures (forall id :: Saved(c, Do(c, s, DrainFinish(Synced)), id)) <==> Faithful(s)
  {
    hide Do, Inv, Saved, Accounted;
    forall id
      ensures Saved(c, Do(c, s, DrainFinish(Synced)), id)
         <==> (id in Ids(s.drain.pass.done) && id in s.spool.ix.pending.at ==>
                 Accounted(id, s.spool.ix.pending.at[id].hmac, s.written, s.asked))
    {
      FinishBody(c, s, id);
    }
  }

  /** What the synced end of a pass does to the last body of one id. */
  lemma FinishBody(c: Codec, s: Sys, id: string)
    requires Inv(c, s) && s.boot.Up? && s.drain.Finishing? && !s.spool.latched && Saved(c, s, id)
    ensures Saved(c, Do(c, s, DrainFinish(Synced)), id)
       <==> (id in Ids(s.drain.pass.done) && id in s.spool.ix.pending.at ==>
               Accounted(id, s.spool.ix.pending.at[id].hmac, s.written, s.asked))
  {
    var s' := Do(c, s, DrainFinish(Synced));
    FinishMaps(c, s);
    hide Do, LastPut;
    if id in s.spool.ix.pending.at {
      AckedPending(c, s, id);
    }
  }

  lemma AckedPending(c: Codec, s: Sys, id: string)
    requires Inv(c, s) && s.boot.Up? && id in s.spool.ix.pending.at
    ensures LastPut(s.log.acked, id) == Some(s.spool.ix.pending.at[id].hmac)
  {
    InvAgrees(c, s);
    PendingIsLast(c, Fresh(s.seeds), s.log.acked, 0, id);
  }

  lemma FinishMaps(c: Codec, s: Sys)
    requires Inv(c, s) && s.boot.Up? && s.drain.Finishing? && !s.spool.latched
    ensures var s' := Do(c, s, DrainFinish(Synced)); var done := Ids(s.drain.pass.done);
      && s'.boot.Up? && s'.written == s.written && s'.asked == s.asked
      && (forall id :: id in s'.spool.ix.pending.at <==> id in s.spool.ix.pending.at && id !in done)
      && (forall id :: id in s'.spool.ix.pending.at ==> s'.spool.ix.pending.at[id] == s.spool.ix.pending.at[id])
      && (forall id :: LastPut(s'.log.acked, id) == LastPut(s.log.acked, id))
  {
    var ix, done := s.spool.ix, Ids(s.drain.pass.done);
    InvAgrees(c, s);
    AgreesCoherent(c, s.spool, s.log, s.seeds);
    EligiblePending(ix, done);
    RecordDoneKeeps(ix, Eligible(ix, done));
    FinishPuts(c, s);
    hide Inv, Agrees, LastPut, RecordDone, Eligible;
  }

  lemma FinishPuts(c: Codec, s: Sys)
    requires s.boot.Up? && s.drain.Finishing? && !s.spool.latched
    ensures var s' := Do(c, s, DrainFinish(Synced)); forall id :: LastPut(s'.log.acked, id) == LastPut(s.log.acked, id)
  {
    var ids := Eligible(s.spool.ix, Ids(s.drain.pass.done));
    DoneEntriesAre(ids);
    forall id
      ensures LastPut(s.log.acked + DoneEntries(ids), id) == LastPut(s.log.acked, id)
    {
      LastPutAppend(s.log.acked, DoneEntries(ids), id);
      NoPut(DoneEntries(ids), id);
    }
    hide LastPut, Eligible, DoneEntries, Effect, Crashed, Try;
    assert s.log.acked + [] == s.log.acked;
  }

  /** For every pass: the body its end completes is the written one if and only if the last put
      of the id that was acknowledged during the pass, if there is one, has the written hmac. */
  lemma CompletesBody(c: Codec, before: seq<Step>, maxTurns: int, inside: seq<Step>, w: Wrote)
    requires c.Valid() && CanRun(c, START, before)
    requires var s0 := RunAll(c, START, before);
      && s0.boot.Up? && s0.drain.Idle?
      && CanRun(c, Do(c, s0, DrainStart(maxTurns)), inside) && InsidePass(inside)
      && var s := RunAll(c, Do(c, s0, DrainStart(maxTurns)), inside);
      s.boot.Up? && s.drain.Finishing? && w in s.drain.pass.done && w.id in s.spool.ix.pending.at
    ensures var s0 := RunAll(c, START, before);
      var s := RunAll(c, Do(c, s0, DrainStart(maxTurns)), inside);
      s0.log.acked <= s.log.acked
      && var last := LastPut(s.log.acked[|s0.log.acked|..], w.id);
      s.spool.ix.pending.at[w.id].hmac == w.hmac <==> last.None? || last.value == w.hmac
  {
    hide Do, Inv, LastPut;
    var s0 := RunAll(c, START, before);
    var s1 := Do(c, s0, DrainStart(maxTurns));
    var s := RunAll(c, s1, inside);
    CompletesWhatItWrote(c, before, maxTurns, inside, w);
    Reachable(c, before);
    StepKeeps(c, s0, DrainStart(maxTurns));
    RunKeeps(c, s1, inside);
    StartRest(c, s0, maxTurns);
    SpoolTheorems.LogGrows(c, s1, inside);
    AckedPending(c, s0, w.id);
    AckedPending(c, s, w.id);
    var during := s.log.acked[|s0.log.acked|..];
    assert s0.log.acked + during == s.log.acked;
    LastPutAppend(s0.log.acked, during, w.id);
  }

  // ---------------------------------------------------------------- undisturbed passes

  /** The ids commitCapture has put since the snapshot of the running pass. */
  function PutSince(c: Codec, s: Sys, step: Step, put: set<string>): set<string> {
    if step.DrainStart? then {} else put + PutBy(c, s, step)
  }

  /** No pass completes an id that a commitCapture put since the pass's snapshot. */
  ghost predicate Undisturbed(c: Codec, s: Sys, steps: seq<Step>, put: set<string>)
    requires CanRun(c, s, steps)
    decreases |steps|
  {
    steps == [] ||
    (&& (Completing(steps[0]) && s.drain.Finishing? ==> forall id :: id in Ids(s.drain.pass.done) ==> id !in put)
     && Undisturbed(c, Do(c, s, steps[0]), steps[1..], PutSince(c, s, steps[0], put)))
  }

  /** The running pass carries the snapshot of some earlier state. */
  ghost predicate Carries(s: Sys, put: set<string>) {
    exists s0: Sys :: Within(s0, s, put)
  }

  lemma NothingCarried(s: Sys, put: set<string>)
    requires s.drain.Idle? || s.drain.Releasing?
    ensures Carries(s, put)
  {
    assert Within(START, s, put);
  }

  lemma CarriesStep(c: Codec, s: Sys, put: set<string>, step: Step)
    requires c.Valid() && Inv(c, s) && Carries(s, put) && Enabled(c, s, step)
    ensures Carries(Do(c, s, step), PutSince(c, s, step, put))
  {
    hide Do, Inv, Within, PutBy;
    var s' := Do(c, s, step);
    if step.DrainStart? {
      StartOfPass(c, s, step);
      InvAgrees(c, s);
      StartWithin(c, s, step.maxTurns);
      assert Within(s, s', {});
    } else if InsidePass([step]) {
      var s0: Sys :| Within(s0, s, put);
      WithinStep(c, s0, s, put, step);
    } else {
      PassOver(c, s, step);
      NothingCarried(s', put + PutBy(c, s, step));
    }
  }

  lemma StartOfPass(c: Codec, s: Sys, step: Step)
    requires Enabled(c, s, step) && step.DrainStart?
    ensures s.boot.Up? && s.drain.Idle?
  {
  }

  lemma PassOver(c: Codec, s: Sys, step: Step)
    requires Inv(c, s) && Enabled(c, s, step) && !step.DrainStart? && !InsidePass([step])
    ensures Do(c, s, step).drain.Idle? || Do(c, s, step).drain.Releasing?
  {
    hide Starting, Agrees, InvDrain, InvForget, InvOffsets, InvHistory, InvWriter, StartUp, Execute, NextLog, OnDisk;
  }

  lemma CarriedMatches(c: Codec, s: Sys, put: set<string>)
    requires Inv(c, s) && Carries(s, put) && s.drain.Finishing?
    requires forall id :: id in Ids(s.drain.pass.done) ==> id !in put
    ensures Faithful(s)
  {
    hide Inv;
    DoneWritten(c, s);
    var s0: Sys :| Within(s0, s, put);
    forall id | id in Ids(s.drain.pass.done) && id in s.spool.ix.pending.at
      ensures Wrote(id, s.spool.ix.pending.at[id].hmac) in s.written
    {
      var i :| 0 <= i < |s.drain.pass.done| && Ids(s.drain.pass.done)[i] == id;
      var w := s.drain.pass.done[i];
      assert w in DoneOf(s.drain);
      assert EntryIs(s0.spool.ix.pending.at[id], |s0.spool.file|, s.spool.ix, id, id in put);
    }
  }

  lemma DoneWritten(c: Codec, s: Sys)
    requires Inv(c, s)
    ensures forall w :: w in DoneOf(s.drain) ==> w in s.written
  {
  }

  lemma {:induction false} UndisturbedIsFaithful(c: Codec, s: Sys, steps: seq<Step>, put: set<string>)
    requires c.Valid() && Inv(c, s) && Carries(s, put) && CanRun(c, s, steps) && Undisturbed(c, s, steps, put)
    ensures FaithfulRun(c, s, steps)
    decreases |steps|
  {
    hide Inv, Do, Enabled, Carries, PutSince, Faithful;
    if steps != [] {
      if Completing(steps[0]) && s.drain.Finishing? {
        CarriedMatches(c, s, put);
      }
      NotFinishing(s);
      CarriesStep(c, s, put, steps[0]);
      StepKeeps(c, s, steps[0]);
      UndisturbedIsFaithful(c, Do(c, s, steps[0]), steps[1..], PutSince(c, s, steps[0], put));
    }
  }

  lemma NotFinishing(s: Sys)
    ensures !s.drain.Finishing? ==> Faithful(s)
  {
  }

  /** No acknowledged body is lost, over every run, as long as no pass completes an id that a
      commitCapture put since the pass's snapshot. */
  lemma BodiesKeptUndisturbed(c: Codec, run: seq<Step>, id: string)
    requires c.Valid() && CanRun(c, START, run) && Undisturbed(c, START, run, {})
    ensures Saved(c, RunAll(c, START, run), id)
  {
    hide Inv, Do, CanRun;
    StartInv(c);
    NothingCarried(START, {});
    UndisturbedIsFaithful(c, START, run, {});
    BodiesKept(c, run, id);
  }
}
