/** What every reachable state of the spool keeps: log and memory agree, offsets address their
    own lines, a resolved forget is final, no request is lost by the writer hand-off, and
    nothing leaves the journal unwritten and unforgotten. */
module SpoolSafety {
  import opened OrderedMap
  import opened SpoolJournal
  import opened SpoolOps
  import opened SpoolStartup
  import opened SpoolProtocol

  // ---------------------------------------------------------------- the invariants

  /** The registration a pass holds for the item it is reading or writing. */
  function Current(d: Drain): seq<Held> {
    match d
    case Reading(_, item, token) => [Held(item.id, token)]
    case Writing(_, item, token, _) => [Held(item.id, token)]
    case _ => []
  }

  function Registered(d: Drain): seq<Held> {
    match d
    case Idle => []
    case Releasing(held) => held
    case _ => d.pass.held + Current(d)
  }

  function Rest(d: Drain): seq<Item> {
    match d
    case Idle => []
    case Releasing(_) => []
    case _ => d.pass.rest
  }

  function DoneOf(d: Drain): seq<Wrote> {
    match d
    case Idle => []
    case Releasing(_) => []
    case _ => d.pass.done
  }

  ghost predicate DistinctIds(rest: seq<Item>, held: seq<Held>) {
    && (forall i, j :: 0 <= i < j < |rest| ==> rest[i].id != rest[j].id)
    && (forall i, j :: 0 <= i < j < |held| ==> held[i].id != held[j].id)
    && (forall x, h :: x in rest && h in held ==> x.id != h.id)
  }

  /** `inFlight` holds exactly the running pass's unreleased registrations. */
  ghost predicate InvDrain(d: Drain, inFlight: map<string, nat>, nextToken: nat, released: set<nat>) {
    InvHeld(Rest(d), Registered(d), inFlight, nextToken, released)
  }

  ghost predicate InvHeld(rest: seq<Item>, held: seq<Held>, inFlight: map<string, nat>, nextToken: nat, released: set<nat>) {
    && DistinctIds(rest, held)
    && inFlight.Keys == HeldIds(held)
    && (forall h :: h in held ==>
          h.id in inFlight && inFlight[h.id] == h.token && h.token < nextToken && h.token !in released)
    && (forall t :: t in released ==> t < nextToken)
  }

  /** Erased ids stay tombstoned, and a body still running for one is being waited for. */
  ghost predicate InvForget(forgets: map<nat, Forgetter>, forgotten: set<string>, d: Drain, final: set<string>) {
    && (forall fid :: fid in forgets && forgets[fid].AwaitDrain? ==>
          && (forall id :: id in forgets[fid].ids ==> id in forgotten)
          && (forall h :: h in Current(d) && h.id in forgets[fid].ids ==> h.token in forgets[fid].tokens))
    && final <= forgotten
    && (forall h :: h in Current(d) ==> h.id !in final)
  }

  /** Recorded places still address the put lines of their ids. */
  ghost predicate InvOffsets(c: Codec, file: seq<byte>, d: Drain) {
    && (forall x :: x in Rest(d) ==> Addresses(c, file, x.id, x.entry))
    && (d.Reading? ==> Addresses(c, file, d.item.id, d.item.entry))
    && (d.Writing? ==> d.turn.id == d.item.id && d.turn.hmac == d.item.entry.hmac)
  }

  /** Done lines stand for completed writes, forget lines for requested forgets. */
  ghost predicate Justified(e: Entry, written: set<Wrote>, asked: set<string>) {
    && (e.Done? ==> exists w :: w in written && w.id == e.id)
    && (e.Forget? ==> e.id in asked)
  }

  ghost predicate AllJustified(es: seq<Entry>, written: set<Wrote>, asked: set<string>) {
    forall e :: e in es ==> Justified(e, written, asked)
  }

  ghost predicate InvHistory(d: Drain, forgets: map<nat, Forgetter>, log: Log, written: set<Wrote>, asked: set<string>) {
    && (forall w :: w in DoneOf(d) ==> w in written)
    && (forall fid, id :: fid in forgets && id in forgets[fid].ids ==> id in asked)
    && AllJustified(log.acked, written, asked)
    && AllJustified(log.failed, written, asked)
  }

  function Rids(queue: seq<Request>): (r: seq<nat>)
    ensures |r| == |queue| && forall i :: 0 <= i < |queue| ==> r[i] == queue[i].rid
  {
    if queue == [] then [] else [queue[0].rid] + Rids(queue[1..])
  }

  function Waiting(writer: Writer, queue: seq<Request>): seq<nat> {
    (if writer.Flushing? then Rids(writer.batch) else []) + Rids(queue)
  }

  /** Every submitted request waits exactly once or is answered; a queued one has a writer. */
  ghost predicate InvWriter(writer: Writer, queue: seq<Request>, answers: map<nat, Answer>, submitted: set<nat>, nextGen: nat) {
    && Distinct(Waiting(writer, queue))
    && (forall r :: r in Waiting(writer, queue) ==> r !in answers)
    && (forall r :: r in submitted <==> r in answers || r in Waiting(writer, queue))
    && (queue != [] ==> !writer.NoWriter?)
    && (!writer.NoWriter? ==> writer.gen < nextGen)
  }

  /** A process that is not started yet does nothing else. */
  ghost predicate Still(s: Sys) {
    s == START.(spool := s.spool, boot := s.boot, log := s.log, submitted := s.answers.Keys, answers := s.answers,
                written := s.written, asked := s.asked, final := s.final)
  }

  ghost predicate InvMaps(c: Codec, s: Sys) {
    match s.boot
    case Up => Agrees(c, s.spool, s.log, s.seeds)
    case Down(read) => Still(s) && Starting(c, s.spool, s.log, read)
  }

  ghost predicate Inv(c: Codec, s: Sys) {
    && InvMaps(c, s)
    && InvDrain(s.drain, s.inFlight, s.nextToken, s.released)
    && InvForget(s.forgets, Maps(c, s).forgotten, s.drain, s.final)
    && InvOffsets(c, s.spool.file, s.drain)
    && InvHistory(s.drain, s.forgets, s.log, s.written, s.asked)
    && InvWriter(s.writer, s.queue, s.answers, s.submitted, s.nextGen)
  }

  // ---------------------------------------------------------------- what one operation changes

  lemma {:induction false} RecordPutsKeeps(c: Codec, ix: Index, turns: seq<Turn>, now: string, offset: nat)
    ensures var r := RecordPuts(c, ix, turns, now, offset);
      r.forgotten == ix.forgotten && r.extracted == ix.extracted
      && (forall id :: id in ix.pending.at ==> id in r.pending.at)
    decreases |turns|
  {
    if turns != [] {
      var t, length := turns[0], |c.Line(Put(turns[0], Some(now)))|;
      RecordPutsKeeps(c, ix.(known := ix.known + {t.id},
        pending := ix.pending.Set(t.id, PendingOf(t, Some(now), offset, length))), turns[1..], now, offset + length);
    }
  }

  lemma {:induction false} RecordDoneKeeps(ix: Index, ids: seq<string>)
    ensures var r := RecordDone(ix, ids);
      r.forgotten == ix.forgotten && r.extracted == ix.extracted && r.known == ix.known
      && r.pending.at == ix.pending.at - set id | id in ids
    decreases |ids|
  {
    if ids != [] {
      RecordDoneKeeps(ix.(pending := ix.pending.Delete(ids[0])), ids[1..]);
      assert ids == [ids[0]] + ids[1..];
    }
  }

  /** Memory before and after an operation: only an erase adds tombstones, files only grow. */
  lemma PerformKeeps(c: Codec, s: Sys, op: Op, io: Io)
    requires Agrees(c, s.spool, s.log, s.seeds)
    ensures var (s', ok) := Perform(c, s, op, io);
      && s' == s.(spool := s'.spool, log := s'.log)
      && Agrees(c, s'.spool, s'.log, s'.seeds)
      && s.spool.ix.forgotten <= s'.spool.ix.forgotten
      && (!op.Erase? ==> s'.spool.ix.forgotten == s.spool.ix.forgotten)
      && (op.Erase? && ok ==> forall id :: id in op.ids ==> id in s'.spool.ix.forgotten)
      && s.spool.file <= s'.spool.file
      && (s'.log.acked == s.log.acked || s'.log.acked == s.log.acked + Plan(s.spool.ix, op))
      && (s'.log.failed == s.log.failed || s'.log.failed == Plan(s.spool.ix, op))
  {
    ExecuteAgrees(c, s.spool, s.log, s.seeds, op, io);
    EffectForgets(c, s.spool.ix, op, |s.spool.file|);
    hide Agrees, Plan, Effect;
  }

  lemma EffectForgets(c: Codec, ix: Index, op: Op, offset: nat)
    ensures var r := Effect(c, ix, op, offset);
      && ix.forgotten <= r.forgotten
      && (!op.Erase? ==> r.forgotten == ix.forgotten)
      && (op.Erase? ==> (forall id :: id in op.ids ==> id in r.forgotten) && (Plan(ix, op) == [] ==> op.ids == []))
  {
    match op
    case Complete(done) => RecordDoneKeeps(ix, Eligible(ix, done));
    case Erase(ids) => ForgetsThem(ix, ids);
    case _ =>
      RecordPutsKeeps(c, ix, Puts(ix, op), Now(op), offset);
      RecordMarksKeeps(RecordPuts(c, ix, Puts(ix, op), Now(op), offset), Marks(ix, op));
  }

  lemma {:induction false} DoneEntriesAre(ids: seq<string>)
    ensures forall e :: e in DoneEntries(ids) ==> e.Done? && e.id in ids
    decreases |ids|
  {
    if ids != [] {
      DoneEntriesAre(ids[1..]);
      assert ids == [ids[0]] + ids[1..];
    }
  }

  lemma {:induction false} ForgetEntriesAre(ids: seq<string>)
    ensures forall e :: e in ForgetEntries(ids) ==> e.Forget? && e.id in ids
    decreases |ids|
  {
    if ids != [] {
      ForgetEntriesAre(ids[1..]);
      assert ids == [ids[0]] + ids[1..];
    }
  }

  lemma {:induction false} PutEntriesArePuts(turns: seq<Turn>, now: string)
    ensures forall e :: e in PutEntries(turns, now) ==> e.Put?
    decreases |turns|
  {
    if turns != [] {
      PutEntriesArePuts(turns[1..], now);
    }
  }

  lemma {:induction false} MarkEntriesAreMarks(turns: seq<Turn>)
    ensures forall e :: e in MarkEntries(turns) ==> e.Extracted?
    decreases |turns|
  {
    if turns != [] {
      MarkEntriesAreMarks(turns[1..]);
    }
  }

  /** The lines an operation plans are justified by the history. */
  lemma PlanJustified(s: Sys, op: Op)
    requires InvHistory(s.drain, s.forgets, s.log, s.written, s.asked)
    requires InProgress(s, op)
    ensures AllJustified(Plan(s.spool.ix, op), s.written, s.asked)
  {
    var ix := s.spool.ix;
    match op
    case Complete(done) =>
      DoneEntriesAre(Eligible(ix, done));
      EligiblePending(ix, done);
      forall id | id in done
        ensures exists w :: w in s.written && w.id == id
      {
        var i :| 0 <= i < |done| && done[i] == id;
        assert s.drain.pass.done[i] in DoneOf(s.drain);
      }
    case Erase(ids) => ForgetEntriesAre(ids);
    case _ =>
      PutEntriesArePuts(Puts(ix, op), Now(op));
      MarkEntriesAreMarks(Marks(ix, op));
  }

  lemma JustifiedGrows(es: seq<Entry>, more: seq<Entry>, written: set<Wrote>, asked: set<string>,
                       written': set<Wrote>, asked': set<string>)
    requires AllJustified(es, written, asked) && AllJustified(more, written, asked)
    requires written <= written' && asked <= asked'
    ensures AllJustified(es + more, written', asked')
  {
    forall e | e in es + more
      ensures Justified(e, written', asked')
    {
      assert e in es || e in more;
      assert Justified(e, written, asked);
    }
  }

  /** Any serialised operation keeps what only the log, the maps and the file decide. */
  lemma PerformInv(c: Codec, s: Sys, op: Op, io: Io)
    requires Inv(c, s) && InProgress(s, op)
    ensures var s' := Perform(c, s, op, io).0;
      && Agrees(c, s'.spool, s'.log, s.seeds)
      && InvOffsets(c, s'.spool.file, s.drain)
      && InvHistory(s.drain, s.forgets, s'.log, s.written, s.asked)
  {
    hide Agrees, Addresses, Plan, Perform, InvDrain, InvForget, InvWriter;
    PerformKeeps(c, s, op, io);
    PlanJustified(s, op);
    var s' := Perform(c, s, op, io).0;
    JustifiedGrows(s.log.acked, Plan(s.spool.ix, op), s.written, s.asked, s.written, s.asked);
    var more := s'.spool.file[|s.spool.file|..];
    assert s'.spool.file == s.spool.file + more;
    forall x | x in Rest(s.drain)
      ensures Addresses(c, s'.spool.file, x.id, x.entry)
    {
      AddressesGrow(c, s.spool.file, more, x.id, x.entry);
    }
    if s.drain.Reading? {
      AddressesGrow(c, s.spool.file, more, s.drain.item.id, s.drain.item.entry);
    }
  }

  // ---------------------------------------------------------------- one step keeps them

  lemma CaptureKeeps(c: Codec, s: Sys, op: Op, io: Io)
    requires Inv(c, s) && s.boot.Up? && (op.Commit? || op.Mark?)
    ensures Inv(c, Do(c, s, Capture(op, io)))
  {
    hide Agrees, Perform, InvDrain, InvForget, InvOffsets, InvHistory, InvWriter, DoPass, DoWriter, DoForget, Crashed, Try;
    PerformKeeps(c, s, op, io);
    PerformInv(c, s, op, io);
  }

  lemma SeedKeeps(c: Codec, s: Sys, rows: set<string>)
    requires Inv(c, s) && s.boot.Up?
    ensures Inv(c, Do(c, s, Seed(rows)))
  {
    hide InvDrain, InvForget, InvOffsets, InvHistory, InvWriter;
    ReplaySeeds(c, Fresh(s.seeds), s.log.acked, 0, rows);
    assert Fresh(s.seeds).(known := s.seeds + rows) == Fresh(s.seeds + rows);
  }

  lemma RidsAppend(a: seq<Request>, b: seq<Request>)
    ensures Rids(a + b) == Rids(a) + Rids(b)
  {
    assert |Rids(a + b)| == |a| + |b|;
    forall i | 0 <= i < |a| + |b|
      ensures Rids(a + b)[i] == (Rids(a) + Rids(b))[i]
    {
      assert (a + b)[i] == if i < |a| then a[i] else b[i - |a|];
    }
  }

  lemma {:induction false} AnswersKeys(ok: bool, batch: seq<Request>, vs: seq<Verdict>)
    requires |vs| == |Flatten(TurnsOf(batch))|
    ensures Answers(ok, batch, vs).Keys == set r | r in Rids(batch)
    decreases |batch|
  {
    if batch != [] {
      AnswersKeys(ok, batch[1..], vs[|batch[0].turns|..]);
      assert Rids(batch) == [batch[0].rid] + Rids(batch[1..]);
    }
  }

  lemma SubmitWaits(w: Writer, queue: seq<Request>, answers: map<nat, Answer>, submitted: set<nat>, nextGen: nat,
                    req: Request)
    requires InvWriter(w, queue, answers, submitted, nextGen) && req.rid !in submitted
    ensures var w' := if w.NoWriter? then Running(nextGen) else w;
      var gen' := if w.NoWriter? then nextGen + 1 else nextGen;
      InvWriter(w', queue + [req], answers, submitted + {req.rid}, gen')
  {
    RidsAppend(queue, [req]);
    hide Rids;
    var w' := if w.NoWriter? then Running(nextGen) else w;
    var before, after := Waiting(w, queue), Waiting(w', queue + [req]);
    assert after == before + [req.rid];
    assert req.rid !in before;
    assert forall r :: r in after <==> r in before || r == req.rid;
  }

  lemma HandOff(w: Writer, queue: seq<Request>, answers: map<nat, Answer>, submitted: set<nat>, nextGen: nat)
    requires InvWriter(w, queue, answers, submitted, nextGen) && !w.NoWriter?
    ensures w.Running? && queue != [] ==> InvWriter(Flushing(w.gen, queue), [], answers, submitted, nextGen)
    ensures w.Running? && queue == [] ==> InvWriter(Exited(w.gen), [], answers, submitted, nextGen)
    ensures w.Exited? && queue == [] ==> InvWriter(NoWriter, [], answers, submitted, nextGen)
    ensures w.Exited? && queue != [] ==> InvWriter(Running(nextGen), queue, answers, submitted, nextGen + 1)
  {
    if w.Running? {
      assert Waiting(Flushing(w.gen, queue), []) == Waiting(w, queue);
    }
  }

  /** The hand-off: submitting, taking the queue, leaving the loop, and the final restart. */
  lemma WriterKeeps(c: Codec, s: Sys, step: Step)
    requires Inv(c, s) && Enabled(c, s, step)
    requires step.Submit? || step.WriterTake? || step.WriterExit? || step.WriterFinally?
    ensures Inv(c, Do(c, s, step))
  {
    hide Agrees, InvDrain, InvForget, InvOffsets, InvHistory, InvWriter;
    if step.Submit? {
      SubmitWaits(s.writer, s.queue, s.answers, s.submitted, s.nextGen, Request(step.rid, step.turns));
    } else {
      HandOff(s.writer, s.queue, s.answers, s.submitted, s.nextGen);
    }
  }

  lemma DistinctParts<T>(a: seq<T>, b: seq<T>)
    requires Distinct(a + b)
    ensures Distinct(b)
    ensures forall x :: x in a ==> x !in b
  {
    forall i, j | 0 <= i < j < |b|
      ensures b[i] != b[j]
    {
      assert (a + b)[|a| + i] == b[i] && (a + b)[|a| + j] == b[j];
    }
    forall i, j | 0 <= i < |a| && 0 <= j < |b|
      ensures a[i] != b[j]
    {
      assert (a + b)[i] == a[i] && (a + b)[|a| + j] == b[j];
    }
  }

  lemma FlushAnswers(w: Writer, queue: seq<Request>, answers: map<nat, Answer>, submitted: set<nat>, nextGen: nat,
                     given: map<nat, Answer>)
    requires InvWriter(w, queue, answers, submitted, nextGen) && w.Flushing?
    requires given.Keys == set r | r in Rids(w.batch)
    ensures InvWriter(Running(w.gen), queue, answers + given, submitted, nextGen)
  {
    DistinctParts(Rids(w.batch), Rids(queue));
    assert Waiting(Running(w.gen), queue) == Rids(queue);
    assert forall r :: r in Waiting(w, queue) <==> r in Rids(w.batch) || r in Rids(queue);
  }

  lemma FlushKeeps(c: Codec, s: Sys, now: string, io: Io)
    requires Inv(c, s) && s.boot.Up? && s.writer.Flushing?
    ensures Inv(c, Do(c, s, WriterFlush(now, io)))
  {
    hide Agrees, Perform, InvDrain, InvForget, InvOffsets, InvHistory, InvWriter, Answers, Verdicts;
    var op := Flush(TurnsOf(s.writer.batch), now);
    PerformKeeps(c, s, op, io);
    PerformInv(c, s, op, io);
    var vs := Verdicts(s.spool.ix, Flatten(TurnsOf(s.writer.batch)), NOTHING);
    var ok := Perform(c, s, op, io).1;
    AnswersKeys(ok, s.writer.batch, vs);
    FlushAnswers(s.writer, s.queue, s.answers, s.submitted, s.nextGen, Answers(ok, s.writer.batch, vs));
  }

  lemma {:induction false} WindowOf(keys: seq<string>, at: map<string, Pending>)
    requires Distinct(keys)
    ensures forall x :: x in Window(keys, at) ==> x.id in keys && x.id in at && x.entry == at[x.id]
    ensures forall i, j :: 0 <= i < j < |Window(keys, at)| ==> Window(keys, at)[i].id != Window(keys, at)[j].id
    decreases |keys|
  {
    if keys != [] {
      WindowOf(keys[1..], at);
      assert keys == [keys[0]] + keys[1..];
      assert keys[0] !in keys[1..];
    }
  }

  /** A new pass sees each pending entry once, with nothing registered. */
  lemma SnapshotKeeps(c: Codec, s: Sys, p: Pass)
    requires Agrees(c, s.spool, s.log, s.seeds) && s.drain.Idle?
    requires InvDrain(s.drain, s.inFlight, s.nextToken, s.released)
    requires p.rest == Window(s.spool.ix.pending.keys, s.spool.ix.pending.at) && p.held == []
    ensures InvDrain(Loop(p), s.inFlight, s.nextToken, s.released)
    ensures InvOffsets(c, s.spool.file, Loop(p))
  {
    AgreesCoherent(c, s.spool, s.log, s.seeds);
    hide Agrees, Addresses;
    PendingAddressed(c, s.spool, s.log, s.seeds);
    WindowOf(s.spool.ix.pending.keys, s.spool.ix.pending.at);
  }

  lemma DrainStartKeeps(c: Codec, s: Sys, maxTurns: int)
    requires Inv(c, s) && s.boot.Up? && s.drain.Idle?
    ensures Inv(c, Do(c, s, DrainStart(maxTurns)))
  {
    hide Agrees, InvDrain, InvOffsets, InvWriter, AllJustified, Window;
    SnapshotKeeps(c, s, Pass(Window(s.spool.ix.pending.keys, s.spool.ix.pending.at), 0, 0, maxTurns, [], []));
  }

  lemma ShiftDistinct(rest: seq<Item>, held: seq<Held>, token: nat)
    requires rest != [] && DistinctIds(rest, held)
    ensures DistinctIds(rest[1..], held)
    ensures DistinctIds(rest[1..], held + [Held(rest[0].id, token)])
  {
    var tail, h := rest[1..], Held(rest[0].id, token);
    assert forall i :: 0 <= i < |tail| ==> tail[i] == rest[i + 1];
    assert forall x :: x in tail ==> x in rest;
    forall x, k | x in tail && k in held + [h]
      ensures x.id != k.id
    {
      assert k in held || k == h;
    }
    forall i, j | 0 <= i < j < |held + [h]|
      ensures (held + [h])[i].id != (held + [h])[j].id
    {
      assert (held + [h])[i] == held[i] && held[i] in held;
      assert rest[0] in rest;
    }
  }

  lemma SkipKeeps(p: Pass, p': Pass, inFlight: map<string, nat>, nextToken: nat, released: set<nat>)
    requires InvDrain(Loop(p), inFlight, nextToken, released)
    requires p.rest != [] && p'.rest == p.rest[1..] && p'.held == p.held
    ensures InvDrain(Loop(p'), inFlight, nextToken, released)
  {
    hide DistinctIds;
    assert Registered(Loop(p)) == p.held == Registered(Loop(p'));
    ShiftDistinct(p.rest, p.held, nextToken);
  }

  lemma AddHeld(rest: seq<Item>, held: seq<Held>, inFlight: map<string, nat>, nextToken: nat, released: set<nat>)
    requires rest != [] && InvHeld(rest, held, inFlight, nextToken, released)
    ensures InvHeld(rest[1..], held + [Held(rest[0].id, nextToken)], inFlight[rest[0].id := nextToken], nextToken + 1, released)
  {
    hide DistinctIds;
    var h := Held(rest[0].id, nextToken);
    ShiftDistinct(rest, held, nextToken);
    NotHeld(rest, held);
    assert HeldIds(held + [h]) == HeldIds(held) + {h.id};
    var flight := inFlight[h.id := nextToken];
    forall k | k in held + [h]
      ensures k.id in flight && flight[k.id] == k.token && k.token < nextToken + 1 && k.token !in released
    {
      assert k in held || k == h;
    }
  }

  lemma RegisterKeeps(p: Pass, p': Pass, inFlight: map<string, nat>, nextToken: nat, released: set<nat>)
    requires InvDrain(Loop(p), inFlight, nextToken, released)
    requires p.rest != [] && p'.rest == p.rest[1..] && p'.held == p.held
    ensures InvDrain(Reading(p', p.rest[0], nextToken), inFlight[p.rest[0].id := nextToken], nextToken + 1, released)
  {
    hide InvHeld;
    assert Registered(Loop(p)) == p.held;
    assert Registered(Reading(p', p.rest[0], nextToken)) == p.held + [Held(p.rest[0].id, nextToken)];
    AddHeld(p.rest, p.held, inFlight, nextToken, released);
  }

  lemma NotHeld(rest: seq<Item>, held: seq<Held>)
    requires rest != [] && DistinctIds(rest, held)
    ensures forall k :: k in held ==> k.id != rest[0].id
  {
    assert rest[0] in rest;
  }

  /** What the loop step leaves: the end of the pass, or one item taken off the window. */
  lemma NextPass(c: Codec, s: Sys)
    requires s.boot.Up? && s.drain.Loop?
    ensures var s' := Do(c, s, DrainNext); var p := s.drain.pass;
      if PassEnds(p) then s' == s.(drain := Finishing(p))
      else
        p.rest != [] &&
        var p' := p.(rest := p.rest[1..], processed := p.processed + 1, bytes := p.bytes + p.rest[0].entry.bytes);
        || s' == s.(drain := Loop(p'))
        || (s' == s.(drain := Reading(p', p.rest[0], s.nextToken), nextToken := s.nextToken + 1,
                     inFlight := s.inFlight[p.rest[0].id := s.nextToken])
            && p.rest[0].id !in s.spool.ix.forgotten)
  {
  }

  lemma NextFrame(c: Codec, s: Sys, p': Pass)
    requires s.drain.Loop? && InvForget(s.forgets, s.spool.ix.forgotten, s.drain, s.final)
    requires InvOffsets(c, s.spool.file, s.drain) && InvHistory(s.drain, s.forgets, s.log, s.written, s.asked)
    requires var p := s.drain.pass;
      p'.done == p.done && (p'.rest == p.rest || (p.rest != [] && p'.rest == p.rest[1..]))
    ensures forall d :: d == Loop(p') || d == Finishing(p') ==>
      && InvForget(s.forgets, s.spool.ix.forgotten, d, s.final)
      && InvOffsets(c, s.spool.file, d) && InvHistory(d, s.forgets, s.log, s.written, s.asked)
    ensures var p := s.drain.pass; p.rest != [] && p.rest[0].id !in s.spool.ix.forgotten ==>
      var d := Reading(p', p.rest[0], s.nextToken);
      && InvForget(s.forgets, s.spool.ix.forgotten, d, s.final)
      && InvOffsets(c, s.spool.file, d) && InvHistory(d, s.forgets, s.log, s.written, s.asked)
  {
    hide Addresses, AllJustified;
    assert forall x :: x in p'.rest ==> x in s.drain.pass.rest;
  }

  lemma DrainNextKeeps(c: Codec, s: Sys)
    requires Inv(c, s) && s.boot.Up? && s.drain.Loop?
    ensures Inv(c, Do(c, s, DrainNext))
  {
    hide Agrees, InvDrain, InvForget, InvOffsets, InvHistory, InvWriter, PassEnds, Do;
    NextPass(c, s);
    var p := s.drain.pass;
    if PassEnds(p) {
      NextFrame(c, s, p);
      EndPassKeeps(p, s.inFlight, s.nextToken, s.released);
    } else {
      var p' := p.(rest := p.rest[1..], processed := p.processed + 1, bytes := p.bytes + p.rest[0].entry.bytes);
      NextFrame(c, s, p');
      SkipKeeps(p, p', s.inFlight, s.nextToken, s.released);
      RegisterKeeps(p, p', s.inFlight, s.nextToken, s.released);
    }
  }

  lemma EndPassKeeps(p: Pass, inFlight: map<string, nat>, nextToken: nat, released: set<nat>)
    requires InvDrain(Loop(p), inFlight, nextToken, released)
    ensures InvDrain(Finishing(p), inFlight, nextToken, released)
  {
    assert Registered(Finishing(p)) == Registered(Loop(p));
  }

  /** Reading never mismatches: an opened file gives the turn of that id and hmac. */
  lemma ReadMatches(c: Codec, s: Sys)
    requires c.Valid() && InvOffsets(c, s.spool.file, s.drain) && s.drain.Reading?
    ensures var r := ReadTurn(c, s.spool.file, s.drain.item.entry);
      r.Some? && r.value.id == s.drain.item.id && r.value.hmac == s.drain.item.entry.hmac
  {
    hide c.Valid;
    ReadBack(c, s.spool.file, s.drain.item.id, s.drain.item.entry);
  }

  lemma BodyKeeps(p: Pass, item: Item, token: nat, turn: Turn, done: seq<Wrote>,
                  inFlight: map<string, nat>, nextToken: nat, released: set<nat>)
    requires InvDrain(Reading(p, item, token), inFlight, nextToken, released)
          || InvDrain(Writing(p, item, token, turn), inFlight, nextToken, released)
    ensures InvDrain(Writing(p, item, token, turn), inFlight, nextToken, released)
    ensures InvDrain(Loop(Hold(p, item.id, token)), inFlight, nextToken, released)
    ensures InvDrain(Loop(Hold(p, item.id, token).(done := done)), inFlight, nextToken, released)
  {
    assert Registered(Reading(p, item, token)) == Registered(Writing(p, item, token, turn));
    assert Registered(Loop(Hold(p, item.id, token))) == Registered(Writing(p, item, token, turn));
    assert Registered(Loop(Hold(p, item.id, token).(done := done))) == Registered(Writing(p, item, token, turn));
  }

  /** A read that can open the file goes on to the write of that very turn. */
  lemma ReadStep(c: Codec, s: Sys, opens: bool)
    requires c.Valid() && s.boot.Up? && InvOffsets(c, s.spool.file, s.drain) && s.drain.Reading?
    ensures var d := s.drain; var s' := Do(c, s, DrainRead(opens));
      s' == s.(drain := s'.drain)
      && (!opens ==> s'.drain == Loop(Hold(d.pass, d.item.id, d.token)))
      && (opens ==> s'.drain.Writing? && s'.drain == Writing(d.pass, d.item, d.token, s'.drain.turn)
                    && s'.drain.turn.id == d.item.id && s'.drain.turn.hmac == d.item.entry.hmac)
  {
    hide c.Valid, InvOffsets, ReadTurn;
    ReadMatches(c, s);
  }

  lemma ReadFrame(c: Codec, s: Sys, turn: Turn)
    requires s.drain.Reading? && InvForget(s.forgets, s.spool.ix.forgotten, s.drain, s.final)
    requires InvOffsets(c, s.spool.file, s.drain) && InvHistory(s.drain, s.forgets, s.log, s.written, s.asked)
    ensures var d := s.drain; var w := Writing(d.pass, d.item, d.token, turn); var l := Loop(Hold(d.pass, d.item.id, d.token));
      && InvForget(s.forgets, s.spool.ix.forgotten, w, s.final) && InvForget(s.forgets, s.spool.ix.forgotten, l, s.final)
      && InvHistory(w, s.forgets, s.log, s.written, s.asked) && InvHistory(l, s.forgets, s.log, s.written, s.asked)
      && InvOffsets(c, s.spool.file, l)
      && (turn.id == d.item.id && turn.hmac == d.item.entry.hmac ==> InvOffsets(c, s.spool.file, w))
  {
    hide Addresses, AllJustified;
    var d := s.drain;
    assert Current(Writing(d.pass, d.item, d.token, turn)) == Current(d);
  }

  lemma DrainReadKeeps(c: Codec, s: Sys, opens: bool)
    requires Enabled(c, s, DrainRead(opens)) && c.Valid() && Inv(c, s)
    ensures Inv(c, Do(c, s, DrainRead(opens)))
  {
    hide c.Valid, Agrees, InvDrain, InvForget, InvOffsets, InvHistory, InvWriter, Do;
    ReadStep(c, s, opens);
    var d, s' := s.drain, Do(c, s, DrainRead(opens));
    if opens {
      ReadFrame(c, s, s'.drain.turn);
      BodyKeeps(d.pass, d.item, d.token, s'.drain.turn, [], s.inFlight, s.nextToken, s.released);
    } else {
      var any := Turn("", "", "", "0", "", "", []);
      ReadFrame(c, s, any);
      BodyKeeps(d.pass, d.item, d.token, any, [], s.inFlight, s.nextToken, s.released);
    }
  }

  lemma WriteHistory(d: Drain, forgets: map<nat, Forgetter>, log: Log, written: set<Wrote>, asked: set<string>, w: Wrote)
    requires InvHistory(d, forgets, log, written, asked) && d.Writing?
    ensures InvHistory(Loop(Hold(d.pass, d.item.id, d.token)), forgets, log, written, asked)
    ensures InvHistory(Loop(Hold(d.pass, d.item.id, d.token).(done := d.pass.done + [w])), forgets, log, written + {w}, asked)
  {
    JustifiedGrows(log.acked, [], written, asked, written + {w}, asked);
    JustifiedGrows(log.failed, [], written, asked, written + {w}, asked);
    assert log.acked + [] == log.acked && log.failed + [] == log.failed;
  }

  lemma WroteFrame(c: Codec, s: Sys, p': Pass)
    requires s.drain.Writing? && p'.rest == s.drain.pass.rest
    requires InvForget(s.forgets, s.spool.ix.forgotten, s.drain, s.final) && InvOffsets(c, s.spool.file, s.drain)
    ensures InvForget(s.forgets, s.spool.ix.forgotten, Loop(p'), s.final)
    ensures InvOffsets(c, s.spool.file, Loop(p'))
  {
    hide Addresses;
    assert Rest(Loop(p')) == Rest(s.drain);
    assert Current(Loop(p')) == [];
  }

  lemma DrainWroteKeeps(c: Codec, s: Sys, ok: bool)
    requires Enabled(c, s, DrainWrote(ok)) && Inv(c, s)
    ensures Inv(c, Do(c, s, DrainWrote(ok)))
  {
    hide Agrees, InvDrain, InvForget, InvOffsets, InvHistory, InvWriter;
    var d := s.drain;
    var w := Wrote(d.item.id, d.turn.hmac);
    var p := Hold(d.pass, d.item.id, d.token);
    BodyKeeps(d.pass, d.item, d.token, d.turn, d.pass.done + [w], s.inFlight, s.nextToken, s.released);
    WriteHistory(d, s.forgets, s.log, s.written, s.asked, w);
    WroteFrame(c, s, p);
    WroteFrame(c, s, p.(done := p.done + [w]));
  }

  lemma FinishFrame(c: Codec, p: Pass, inFlight: map<string, nat>, nextToken: nat, released: set<nat>,
                    forgets: map<nat, Forgetter>, forgotten: set<string>, final: set<string>, file: seq<byte>,
                    log: Log, written: set<Wrote>, asked: set<string>)
    requires InvDrain(Finishing(p), inFlight, nextToken, released)
    requires InvForget(forgets, forgotten, Finishing(p), final)
    requires InvHistory(Finishing(p), forgets, log, written, asked)
    ensures var d := Releasing(p.held);
      && InvDrain(d, inFlight, nextToken, released)
      && InvForget(forgets, forgotten, d, final)
      && InvOffsets(c, file, d) && InvHistory(d, forgets, log, written, asked)
  {
    hide AllJustified;
    assert Registered(Finishing(p)) == p.held;
    assert Current(Finishing(p)) == Current(Releasing(p.held)) == [];
  }

  lemma DrainFinishKeeps(c: Codec, s: Sys, io: Io)
    requires Enabled(c, s, DrainFinish(io)) && Inv(c, s)
    ensures Inv(c, Do(c, s, DrainFinish(io)))
  {
    hide Agrees, Perform, InvDrain, InvForget, InvOffsets, InvHistory, InvWriter;
    var op := Complete(Ids(s.drain.pass.done));
    PerformKeeps(c, s, op, io);
    PerformInv(c, s, op, io);
    var s' := Perform(c, s, op, io).0;
    FinishFrame(c, s.drain.pass, s.inFlight, s.nextToken, s.released, s.forgets, s.spool.ix.forgotten, s.final,
                s'.spool.file, s'.log, s.written, s.asked);
  }

  lemma ReleaseDrain(held: seq<Held>, inFlight: map<string, nat>, nextToken: nat, released: set<nat>)
    requires InvDrain(Releasing(held), inFlight, nextToken, released)
    ensures InvDrain(Idle, inFlight - HeldIds(held), nextToken, released + HeldTokens(held))
  {
  }

  lemma ReleaseOthers(c: Codec, held: seq<Held>, forgets: map<nat, Forgetter>, forgotten: set<string>, final: set<string>,
                      file: seq<byte>, log: Log, written: set<Wrote>, asked: set<string>)
    requires InvForget(forgets, forgotten, Releasing(held), final)
    requires InvHistory(Releasing(held), forgets, log, written, asked)
    ensures InvForget(forgets, forgotten, Idle, final) && InvOffsets(c, file, Idle)
    ensures InvHistory(Idle, forgets, log, written, asked)
  {
    hide AllJustified;
  }

  lemma DrainReleaseKeeps(c: Codec, s: Sys)
    requires Enabled(c, s, DrainRelease) && Inv(c, s)
    ensures Inv(c, Do(c, s, DrainRelease))
  {
    hide InvDrain, InvForget, InvOffsets, InvHistory, InvWriter, Agrees, Starting, HeldTokens, HeldIds;
    ReleaseDrain(s.drain.held, s.inFlight, s.nextToken, s.released);
    ReleaseOthers(c, s.drain.held, s.forgets, s.spool.ix.forgotten, s.final, s.spool.file, s.log, s.written, s.asked);
  }

  lemma AskHistory(d: Drain, forgets: map<nat, Forgetter>, log: Log, written: set<Wrote>, asked: set<string>,
                   fid: nat, f: Forgetter)
    requires InvHistory(d, forgets, log, written, asked)
    ensures InvHistory(d, forgets[fid := f], log, written, asked + set id | id in f.ids)
  {
    var more := asked + set id | id in f.ids;
    JustifiedGrows(log.acked, [], written, asked, written, more);
    JustifiedGrows(log.failed, [], written, asked, written, more);
    assert log.acked + [] == log.acked && log.failed + [] == log.failed;
  }

  lemma ForgetCallKeeps(c: Codec, s: Sys, fid: nat, ids: seq<string>)
    requires Enabled(c, s, ForgetCall(fid, ids)) && Inv(c, s)
    ensures Inv(c, Do(c, s, ForgetCall(fid, ids)))
  {
    hide Agrees, InvOffsets, InvWriter, InvDrain, InvHistory;
    AskHistory(s.drain, s.forgets, s.log, s.written, s.asked, fid, Do(c, s, ForgetCall(fid, ids)).forgets[fid]);
  }

  lemma ForgetAwaitedKeeps(c: Codec, s: Sys, fid: nat)
    requires Enabled(c, s, ForgetAwaited(fid)) && Inv(c, s)
    ensures Inv(c, Do(c, s, ForgetAwaited(fid)))
  {
    hide Agrees, InvDrain, InvOffsets, InvWriter, AllJustified;
  }

  /** Resolving needs every awaited registration released; a running body's never is. */
  lemma ForgetResolveKeeps(c: Codec, s: Sys, fid: nat)
    requires Enabled(c, s, ForgetResolve(fid)) && Inv(c, s)
    ensures Inv(c, Do(c, s, ForgetResolve(fid)))
  {
    hide Agrees, InvOffsets, InvWriter, AllJustified, DistinctIds;
  }

  lemma EraseKeeps(c: Codec, s: Sys, fid: nat, io: Io)
    requires Inv(c, s) && s.boot.Up? && fid in s.forgets && s.forgets[fid].Ready?
    ensures Inv(c, Do(c, s, ForgetErase(fid, io)))
  {
    hide Agrees, Perform, InvOffsets, InvWriter, AllJustified;
    var op := Erase(s.forgets[fid].ids);
    assert InProgress(s, op);
    PerformKeeps(c, s, op, io);
    PerformInv(c, s, op, io);
  }

  /** What a crash leaves on disk: the acknowledged journal and a part of one batch. */
  lemma CrashKeeps(c: Codec, s: Sys, op: Op, cut: nat)
    requires Inv(c, s) && Enabled(c, s, Crash(op, cut))
    ensures Inv(c, Do(c, s, Crash(op, cut)))
    ensures s.log.acked <= Do(c, s, Crash(op, cut)).log.acked
  {
    hide Agrees, Plan, Starting, InvDrain, InvWriter, InvOffsets, Replay, WholeLines;
    var s' := Crashed(c, s, op, cut);
    CrashStarts(c, s.spool, s.log, s.seeds, op, cut);
    PlanJustified(s, op);
    CrashForgets(c, s, s'.log);
    StillInv(c, s');
  }

  /** A process that is not started has no pass, no registrations, no forgets and no requests waiting. */
  lemma StillInv(c: Codec, s: Sys)
    requires Still(s) && s.final <= Maps(c, s).forgotten
    ensures InvDrain(s.drain, s.inFlight, s.nextToken, s.released)
    ensures InvForget(s.forgets, Maps(c, s).forgotten, s.drain, s.final)
    ensures InvOffsets(c, s.spool.file, s.drain)
    ensures InvWriter(s.writer, s.queue, s.answers, s.submitted, s.nextGen)
  {
    hide Maps;
  }

  /** Tombstones are on disk. */
  lemma CrashForgets(c: Codec, s: Sys, log: Log)
    requires Agrees(c, s.spool, s.log, s.seeds) && log.acked == s.log.acked
    ensures s.spool.ix.forgotten <= Replay(c, Fresh({}), OnDisk(c, log), 0).forgotten
  {
    hide WholeLines, Apply;
    var more := log.failed[..WholeLines(c, log.failed, log.cut)];
    ReplaySeeds(c, Fresh({}), s.log.acked, 0, s.seeds);
    assert Fresh({}).(known := {} + s.seeds) == Fresh(s.seeds);
    ReplayAppend(c, Fresh({}), s.log.acked, more, 0);
    ReplayForgetsForever(c, Replay(c, Fresh({}), s.log.acked, 0), more, |c.Bytes(s.log.acked)|);
  }

  /** An attempt to start ends with log and memory in agreement, or can be tried again. */
  lemma TryKeeps(c: Codec, s: Sys, a: Attempt)
    requires c.Valid() && Inv(c, s) && s.boot.Down?
    ensures Inv(c, Do(c, s, Attempted(a)))
    ensures s.log.acked <= Do(c, s, Attempted(a)).log.acked
  {
    hide c.Valid, Agrees, Starting, StartUp, LinesRead, InOrder, InvDrain, InvWriter, InvOffsets, InvForget, Replay, WholeLines;
    StartAgrees(c, s.spool, s.log, s.boot.read, a);
    var s' := Try(c, s, a);
    FinalOnDisk(c, s);
    if s'.boot.Up? {
      AgreesReplays(c, s'.spool, s'.log, {});
      JustifiedGrows(s.log.acked, s.log.failed, s.written, s.asked, s.written, s.asked);
    }
    StartedInv(c, s');
  }

  lemma FinalOnDisk(c: Codec, s: Sys)
    requires InvForget(s.forgets, Maps(c, s).forgotten, s.drain, s.final)
    ensures s.final <= Maps(c, s).forgotten
  {
  }

  lemma StartedInv(c: Codec, s: Sys)
    requires Still(s.(boot := Down(0))) && s.final <= Maps(c, s).forgotten
    ensures InvDrain(s.drain, s.inFlight, s.nextToken, s.released)
    ensures InvForget(s.forgets, Maps(c, s).forgotten, s.drain, s.final)
    ensures InvOffsets(c, s.spool.file, s.drain)
    ensures InvWriter(s.writer, s.queue, s.answers, s.submitted, s.nextGen)
  {
    hide Maps;
  }

  lemma DiesKeeps(c: Codec, s: Sys)
    requires Inv(c, s) && s.boot.Down?
    ensures Inv(c, Do(c, s, StartDies))
  {
    hide InvDrain, InvWriter, InvOffsets, InvForget, InvHistory, Replay, OnDisk, Half, Filed;
    HalfFresh(c, OnDisk(c, s.log));
  }

  lemma AgreesReplays(c: Codec, s: Spool, log: Log, seeds: set<string>)
    requires Agrees(c, s, log, seeds)
    ensures SameMaps(s.ix, Replay(c, Fresh(seeds), log.acked, 0))
  {
  }

  /** Every step, with every I/O outcome and every crash, keeps every invariant. */
  lemma StepKeeps(c: Codec, s: Sys, step: Step)
    requires c.Valid() && Inv(c, s) && Enabled(c, s, step)
    ensures Inv(c, Do(c, s, step))
  {
    hide Inv, Do;
    match step
    case Capture(op, io) => CaptureKeeps(c, s, op, io);
    case Seed(rows) => SeedKeeps(c, s, rows);
    case WriterFlush(now, io) => FlushKeeps(c, s, now, io);
    case DrainStart(n) => DrainStartKeeps(c, s, n);
    case DrainNext => DrainNextKeeps(c, s);
    case DrainRead(opens) => DrainReadKeeps(c, s, opens);
    case DrainWrote(ok) => DrainWroteKeeps(c, s, ok);
    case DrainFinish(io) => DrainFinishKeeps(c, s, io);
    case DrainRelease => DrainReleaseKeeps(c, s);
    case ForgetCall(fid, ids) => ForgetCallKeeps(c, s, fid, ids);
    case ForgetAwaited(fid) => ForgetAwaitedKeeps(c, s, fid);
    case ForgetResolve(fid) => ForgetResolveKeeps(c, s, fid);
    case ForgetErase(fid, io) => EraseKeeps(c, s, fid, io);
    case Crash(op, cut) => CrashKeeps(c, s, op, cut);
    case Attempted(a) => TryKeeps(c, s, a);
    case StartDies => DiesKeeps(c, s);
    case _ => WriterKeeps(c, s, step);
  }

  lemma {:induction false} RunKeeps(c: Codec, s: Sys, steps: seq<Step>)
    requires c.Valid() && Inv(c, s) && CanRun(c, s, steps)
    ensures Inv(c, RunAll(c, s, steps))
    decreases |steps|
  {
    hide Inv, Do, Enabled;
    if steps != [] {
      StepKeeps(c, s, steps[0]);
      RunKeeps(c, Do(c, s, steps[0]), steps[1..]);
    }
  }

  /** After any run from an empty spool, every invariant holds. */
  lemma Reachable(c: Codec, steps: seq<Step>)
    requires c.Valid() && CanRun(c, START, steps)
    ensures Inv(c, RunAll(c, START, steps))
  {
    StartInv(c);
    RunKeeps(c, START, steps);
  }

  lemma StartInv(c: Codec)
    ensures Inv(c, START)
  {
    assert c.Bytes([]) + c.Bytes([])[..0] == [];
  }
}
