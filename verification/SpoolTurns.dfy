/** Which turn a drain hands over: the whole turn of the acknowledged line at the recorded place,
    as it was given to commitCapture or appendBatch
    (src/capture/source-turn-spool.ts:105-138, 282-345, 348-370). */
module SpoolTurns {
  import opened OrderedMap
  import opened SpoolJournal
  import opened SpoolOps
  import opened SpoolStartup
  import opened SpoolProtocol
  import opened SpoolSafety
  import opened SpoolSteps
  import opened SpoolRace
  import SpoolTheorems

  // ---------------------------------------------------------------- the line at a place

  /** Line `i` of the journal puts a turn, and `p` is its place and what the map says about it. */
  ghost predicate LineAt(c: Codec, es: seq<Entry>, i: nat, p: Pending) {
    && i < |es| && es[i].Put?
    && p.offset == |c.Bytes(es[..i])| && p.length == |c.encode(es[i])| + 1
    && p.bytes == |es[i].turn.content| && p.hmac == es[i].turn.hmac
    && p.userId == es[i].turn.userId && p.sessionId == es[i].turn.sessionId
    && p.queuedAt == (if es[i].queuedAt.Some? then es[i].queuedAt.value else es[i].turn.occurredAt)
  }

  /** The journal has a whole line at this place, which puts exactly this turn. */
  ghost predicate Whole(c: Codec, es: seq<Entry>, p: Pending, t: Turn) {
    exists i: nat :: LineAt(c, es, i, p) && es[i].turn == t
  }

  ghost predicate HasLine(c: Codec, es: seq<Entry>, id: string, p: Pending) {
    exists t: Turn :: t.id == id && Whole(c, es, p, t)
  }

  /** A place is that of one line only. */
  lemma OneLine(c: Codec, es: seq<Entry>, p: Pending, t: Turn, u: Turn)
    requires Whole(c, es, p, t) && Whole(c, es, p, u)
    ensures t == u
  {
    var i: nat :| LineAt(c, es, i, p) && es[i].turn == t;
    var j: nat :| LineAt(c, es, j, p) && es[j].turn == u;
    if i < j {
      LaterLine(c, es, i, j);
    } else if j < i {
      LaterLine(c, es, j, i);
    }
  }

  lemma LaterLine(c: Codec, es: seq<Entry>, i: nat, j: nat)
    requires i < j <= |es|
    ensures |c.Bytes(es[..i])| < |c.Bytes(es[..j])|
  {
    assert es[..j] == es[..i] + es[i..j];
    BytesAppend(c, es[..i], es[i..j]);
  }

  lemma WholeGrows(c: Codec, es: seq<Entry>, more: seq<Entry>, p: Pending, t: Turn)
    requires Whole(c, es, p, t) && es <= more
    ensures Whole(c, more, p, t)
  {
    var i: nat :| LineAt(c, es, i, p) && es[i].turn == t;
    assert more[..i] == es[..i];
    assert LineAt(c, more, i, p);
  }

  lemma LineGrows(c: Codec, es: seq<Entry>, more: seq<Entry>, id: string, p: Pending)
    requires HasLine(c, es, id, p) && es <= more
    ensures HasLine(c, more, id, p)
  {
    var t: Turn :| t.id == id && Whole(c, es, p, t);
    WholeGrows(c, es, more, p, t);
  }

  ghost predicate AllLines(c: Codec, es: seq<Entry>, ix: Index) {
    forall id :: id in ix.pending.at ==> HasLine(c, es, id, ix.pending.at[id])
  }

  lemma NextLines(c: Codec, before: seq<Entry>, ix: Index, e: Entry)
    requires AllLines(c, before, ix)
    ensures AllLines(c, before + [e], Apply(ix, e, |c.Bytes(before)|, |c.Line(e)|))
  {
    hide HasLine;
    var es, next := before + [e], Apply(ix, e, |c.Bytes(before)|, |c.Line(e)|);
    forall id | id in next.pending.at
      ensures HasLine(c, es, id, next.pending.at[id])
    {
      if e.Put? && id == e.turn.id && id !in ix.forgotten {
        NewLine(c, before, e);
      } else {
        LineGrows(c, before, es, id, ix.pending.at[id]);
      }
    }
  }

  lemma NewLine(c: Codec, before: seq<Entry>, e: Entry)
    requires e.Put?
    ensures HasLine(c, before + [e], e.turn.id, PendingOf(e.turn, e.queuedAt, |c.Bytes(before)|, |c.Line(e)|))
  {
    var es, p := before + [e], PendingOf(e.turn, e.queuedAt, |c.Bytes(before)|, |c.Line(e)|);
    assert es[..|before|] == before && es[|before|] == e;
    assert LineAt(c, es, |before|, p);
    assert Whole(c, es, p, e.turn);
  }

  lemma OneMoreLine(c: Codec, before: seq<Entry>, e: Entry)
    ensures |c.Bytes(before + [e])| == |c.Bytes(before)| + |c.Line(e)|
  {
    BytesAppend(c, before, [e]);
    assert c.Bytes([e]) == c.Line(e) + c.Bytes([]);
  }

  /** Whatever a replay makes pending stands at the place of a whole line that put it. */
  lemma {:induction false} ReplayLines(c: Codec, before: seq<Entry>, ix: Index, es: seq<Entry>)
    requires AllLines(c, before, ix)
    ensures AllLines(c, before + es, Replay(c, ix, es, |c.Bytes(before)|))
    decreases |es|
  {
    hide AllLines, Apply, c.Bytes;
    if es == [] {
      assert before + es == before;
    } else {
      NextLines(c, before, ix, es[0]);
      ReplayOn(c, before, ix, es);
      ReplayLines(c, before + [es[0]], Apply(ix, es[0], |c.Bytes(before)|, |c.Line(es[0])|), es[1..]);
      assert before + [es[0]] + es[1..] == before + es;
    }
  }

  lemma ReplayOn(c: Codec, before: seq<Entry>, ix: Index, es: seq<Entry>)
    requires es != []
    ensures Replay(c, ix, es, |c.Bytes(before)|)
         == Replay(c, Apply(ix, es[0], |c.Bytes(before)|, |c.Line(es[0])|), es[1..], |c.Bytes(before + [es[0]])|)
  {
    hide Apply;
    OneMoreLine(c, before, es[0]);
  }

  lemma AgreesLines(c: Codec, s: Spool, log: Log, seeds: set<string>)
    requires Agrees(c, s, log, seeds)
    ensures AllLines(c, log.acked, s.ix)
  {
    hide HasLine, Replay;
    ReplayLines(c, [], Fresh(seeds), log.acked);
    assert [] + log.acked == log.acked;
  }

  /** Reading at a line's place gives its turn back, every field of it. */
  lemma ReadWhole(c: Codec, file: seq<byte>, log: Log, p: Pending, t: Turn)
    requires c.Valid() && Filed(c, file, log) && Whole(c, log.acked, p, t)
    ensures ReadTurn(c, file, p) == Some(t)
  {
    var es := log.acked;
    var i: nat :| LineAt(c, es, i, p) && es[i].turn == t;
    assert es == es[..i] + [es[i]] + es[i + 1..];
    BytesAppend(c, es[..i] + [es[i]], es[i + 1..]);
    BytesAppend(c, es[..i], [es[i]]);
    assert c.Bytes([es[i]]) == c.Line(es[i]) + c.Bytes([]);
    var rest := c.Bytes(es[i + 1..]) + c.Bytes(log.failed)[..log.cut];
    assert file == c.Bytes(es[..i]) + c.Line(es[i]) + rest;
    assert file[p.offset..p.offset + p.length] == c.Line(es[i]);
    assert c.RoundTrips(es[i]);
  }

  // ---------------------------------------------------------------- along a pass

  /** Everything a pass still has to read stands in the journal, and what it writes is the whole
      turn of the line at that place. */
  ghost predicate Carried(c: Codec, es: seq<Entry>, d: Drain) {
    && (forall x :: x in Rest(d) ==> HasLine(c, es, x.id, x.entry))
    && (d.Reading? ==> HasLine(c, es, d.item.id, d.item.entry))
    && (d.Writing? ==> d.turn.id == d.item.id && Whole(c, es, d.item.entry, d.turn))
  }

  lemma CarriedGrows(c: Codec, es: seq<Entry>, more: seq<Entry>, d: Drain)
    requires Carried(c, es, d) && es <= more
    ensures Carried(c, more, d)
  {
    hide HasLine, Whole;
    forall x | x in Rest(d)
      ensures HasLine(c, more, x.id, x.entry)
    {
      LineGrows(c, es, more, x.id, x.entry);
    }
    if d.Reading? {
      LineGrows(c, es, more, d.item.id, d.item.entry);
    }
    if d.Writing? {
      WholeGrows(c, es, more, d.item.entry, d.turn);
    }
  }

  /** What a step of a pass makes of the pass. */
  lemma ReadOutcome(c: Codec, s: Sys, opens: bool)
    requires s.boot.Up? && s.drain.Reading?
    ensures var d, d' := s.drain, Do(c, s, DrainRead(opens)).drain; var t := ReadTurn(c, s.spool.file, d.item.entry);
      d' == if opens && t.Some? then Writing(d.pass, d.item, d.token, t.value) else Loop(Hold(d.pass, d.item.id, d.token))
  {
    hide ReadTurn, Hold;
  }

  lemma ReadCarries(c: Codec, s: Sys, opens: bool)
    requires c.Valid() && Enabled(c, s, DrainRead(opens)) && Filed(c, s.spool.file, s.log) && Carried(c, s.log.acked, s.drain)
    ensures Carried(c, s.log.acked, Do(c, s, DrainRead(opens)).drain)
  {
    hide Do, Whole, ReadTurn;
    ReadOutcome(c, s, opens);
    var t: Turn :| t.id == s.drain.item.id && Whole(c, s.log.acked, s.drain.item.entry, t);
    ReadWhole(c, s.spool.file, s.log, s.drain.item.entry, t);
  }

  lemma PassCarries(c: Codec, s: Sys, step: Step)
    requires c.Valid() && Inv(c, s) && Carried(c, s.log.acked, s.drain) && Enabled(c, s, step) && s.boot.Up?
    requires OfPass(step) && !step.DrainFinish?
    ensures Carried(c, s.log.acked, Do(c, s, step).drain)
  {
    hide Do, Inv, HasLine, Whole, Window, PassEnds, Agrees, Filed, Coherent;
    match step
    case DrainStart(n) =>
      StartStep(c, s, n);
      InvAgrees(c, s);
      WindowLines(c, s.spool, s.log, s.seeds);
    case DrainNext =>
      NextPass(c, s);
      NextCarries(c, s.log.acked, s.drain.pass, s.nextToken);
    case DrainRead(opens) =>
      InvAgrees(c, s);
      FiledNow(c, s.spool, s.log, s.seeds);
      ReadCarries(c, s, opens);
    case DrainWrote(ok) => WroteStep(c, s, ok);
    case DrainRelease => ReleaseIdle(c, s);
  }

  lemma FiledNow(c: Codec, s: Spool, log: Log, seeds: set<string>)
    requires Agrees(c, s, log, seeds)
    ensures Filed(c, s.file, log)
  {
  }

  lemma WindowLines(c: Codec, s: Spool, log: Log, seeds: set<string>)
    requires Agrees(c, s, log, seeds)
    ensures forall x :: x in Window(s.ix.pending.keys, s.ix.pending.at) ==> HasLine(c, log.acked, x.id, x.entry)
  {
    hide Window, HasLine, Agrees, Coherent;
    AgreesCoherent(c, s, log, seeds);
    AgreesLines(c, s, log, seeds);
    SnapshotItems(s.ix);
  }

  lemma ReleaseIdle(c: Codec, s: Sys)
    requires Enabled(c, s, DrainRelease)
    ensures Do(c, s, DrainRelease).drain.Idle?
  {
    hide HeldTokens, HeldIds;
  }

  lemma NextCarries(c: Codec, es: seq<Entry>, p: Pass, token: nat)
    requires Carried(c, es, Loop(p))
    ensures Carried(c, es, Finishing(p))
    ensures p.rest != [] ==>
      var p' := p.(rest := p.rest[1..], processed := p.processed + 1, bytes := p.bytes + p.rest[0].entry.bytes);
      Carried(c, es, Loop(p')) && Carried(c, es, Reading(p', p.rest[0], token))
  {
    hide HasLine;
    if p.rest != [] {
      assert p.rest[0] in p.rest;
      assert forall x :: x in p.rest[1..] ==> x in p.rest;
    }
  }

  /** A process that is starting or has died has no pass. */
  lemma DownIdle(c: Codec, s: Sys, step: Step)
    requires Inv(c, s) && Enabled(c, s, step) && (step.Crash? || step.Attempted? || step.StartDies?)
    ensures Do(c, s, step).drain.Idle?
  {
    DownIs(c, s, step);
    hide Do, StartUp, Plan, OnDisk, InOrder, LinesRead;
  }

  lemma StepCarries(c: Codec, s: Sys, step: Step)
    requires c.Valid() && Inv(c, s) && Carried(c, s.log.acked, s.drain) && Enabled(c, s, step)
    ensures Carried(c, Do(c, s, step).log.acked, Do(c, s, step).drain)
  {
    hide Do, Inv, HasLine, Whole;
    var s' := Do(c, s, step);
    if step.Crash? || step.Attempted? || step.StartDies? {
      DownIdle(c, s, step);
    } else if step.DrainFinish? {
      SpoolTheorems.FinishReleases(c, s, step.io);
    } else if OfPass(step) {
      PassLog(c, s, step);
      PassCarries(c, s, step);
    } else {
      if step.Capture? || step.WriterFlush? || step.ForgetErase? {
        SerialDrain(c, s, step);
      } else {
        OtherStep(c, s, step);
      }
      SpoolTheorems.LogStep(c, s, step);
      CarriedGrows(c, s.log.acked, s'.log.acked, s.drain);
    }
  }

  lemma {:induction false} RunCarries(c: Codec, s: Sys, steps: seq<Step>)
    requires c.Valid() && Inv(c, s) && Carried(c, s.log.acked, s.drain) && CanRun(c, s, steps)
    ensures Carried(c, RunAll(c, s, steps).log.acked, RunAll(c, s, steps).drain)
    decreases |steps|
  {
    hide Do, Inv, Enabled, Carried;
    if steps != [] {
      StepCarries(c, s, steps[0]);
      StepKeeps(c, s, steps[0]);
      RunCarries(c, Do(c, s, steps[0]), steps[1..]);
    }
  }

  /** Over every run: the turn a pass hands to the writer is, in all its fields, the turn of the
      acknowledged put line at the place of the entry being drained. */
  lemma HandsOverWhole(c: Codec, run: seq<Step>)
    requires c.Valid() && CanRun(c, START, run)
    ensures var s := RunAll(c, START, run);
      s.drain.Writing? ==> s.drain.turn.id == s.drain.item.id && Whole(c, s.log.acked, s.drain.item.entry, s.drain.turn)
  {
    hide Do, CanRun, Inv;
    StartInv(c);
    RunCarries(c, START, run);
  }

  // ---------------------------------------------------------------- the turns that were given

  function SetOfTurns(turns: seq<Turn>): set<Turn> {
    set t | t in turns
  }

  /** The turns a step hands to the spool; a commit that a crash cuts off hands its turns over too. */
  function GivenBy(step: Step): set<Turn> {
    match step
    case Capture(Commit(turns, _, _), _) => SetOfTurns(turns)
    case Crash(Commit(turns, _, _), _) => SetOfTurns(turns)
    case Submit(_, turns) => SetOfTurns(turns)
    case _ => {}
  }

  function Given(run: seq<Step>): set<Turn> {
    if run == [] then {} else GivenBy(run[0]) + Given(run[1..])
  }

  ghost predicate PutsFrom(es: seq<Entry>, given: set<Turn>) {
    forall e :: e in es && e.Put? ==> e.turn in given
  }

  ghost predicate RequestsFrom(rs: seq<Request>, given: set<Turn>) {
    forall r, t :: r in rs && t in r.turns ==> t in given
  }

  ghost predicate AllGiven(s: Sys, given: set<Turn>) {
    && PutsFrom(s.log.acked, given) && PutsFrom(s.log.failed, given) && RequestsFrom(s.queue, given)
    && (s.writer.Flushing? ==> RequestsFrom(s.writer.batch, given))
  }

  lemma {:induction false} StageCaptureFrom(ix: Index, turns: seq<Turn>, staged: OMap<string, Turn>, given: set<Turn>)
    requires (forall t :: t in turns ==> t in given) && forall id :: id in staged.at ==> staged.at[id] in given
    ensures forall id :: id in StageCapture(ix, turns, staged).at ==> StageCapture(ix, turns, staged).at[id] in given
    decreases |turns|
  {
    if turns != [] {
      var t := turns[0];
      assert turns == [t] + turns[1..];
      var keep := t.id in ix.forgotten || PriorHmac(ix, staged, t.id) == Some(t.hmac);
      StageCaptureFrom(ix, turns[1..], if keep then staged else staged.Set(t.id, t), given);
    }
  }

  lemma {:induction false} StageAppendsFrom(ix: Index, turns: seq<Turn>, staged: OMap<string, Turn>, given: set<Turn>)
    requires (forall t :: t in turns ==> t in given) && forall id :: id in staged.at ==> staged.at[id] in given
    ensures forall id :: id in StageAppends(ix, turns, staged).at ==> StageAppends(ix, turns, staged).at[id] in given
    decreases |turns|
  {
    if turns != [] {
      assert turns == [turns[0]] + turns[1..];
      StageAppendsFrom(ix, turns[1..], StageOne(ix, staged, turns[0]), given);
    }
  }

  lemma {:induction false} FlattenIn(batch: seq<seq<Turn>>)
    ensures forall t :: t in Flatten(batch) <==> InBatch(batch, t)
    decreases |batch|
  {
    if batch != [] {
      assert batch == [batch[0]] + batch[1..];
      FlattenIn(batch[1..]);
    }
  }

  lemma {:induction false} PutEntriesAre(turns: seq<Turn>, now: string)
    ensures forall e :: e in PutEntries(turns, now) ==> e.Put? && e.turn in turns && e.queuedAt == Some(now)
    decreases |turns|
  {
    if turns != [] {
      assert turns == [turns[0]] + turns[1..];
      PutEntriesAre(turns[1..], now);
    }
  }

  /** The turns passed to an operation to be put. */
  ghost predicate Passed(op: Op, t: Turn) {
    match op
    case Commit(turns, _, _) => t in turns
    case Flush(batch, _) => InBatch(batch, t)
    case _ => false
  }

  ghost predicate InBatch(batch: seq<seq<Turn>>, t: Turn) {
    exists turns :: turns in batch && t in turns
  }

  lemma PutsTurns(ix: Index, op: Op)
    ensures forall t :: t in Puts(ix, op) ==> Passed(op, t)
  {
    hide StageCapture, StageAppends, ListedFrom, Flatten;
    match op
    case Commit(turns, _, _) =>
      StageCaptureFrom(ix, turns, NOTHING, SetOfTurns(turns));
      var staged := StageCapture(ix, turns, NOTHING);
      ListedFromIn(staged.keys, staged.at);
    case Flush(batch, _) =>
      StageAppendsFrom(ix, Flatten(batch), NOTHING, SetOfTurns(Flatten(batch)));
      var staged := StageAppends(ix, Flatten(batch), NOTHING);
      ListedFromIn(staged.keys, staged.at);
      FlattenIn(batch);
    case _ =>
  }

  /** Every put line of an operation holds one of the turns passed to it, whole, and the moment
      of the operation. */
  lemma PlanTurns(ix: Index, op: Op)
    ensures forall e :: e in Plan(ix, op) && e.Put? ==> Passed(op, e.turn) && (op.Commit? || op.Flush?) && e.queuedAt == Some(op.now)
  {
    hide MarkEntries, PutEntries, DoneEntries, ForgetEntries, ListedFrom, StageCapture, StageAppends, Flatten, Marks, Passed;
    match op
    case Complete(done) => DoneEntriesAre(Eligible(ix, done));
    case Erase(ids) => ForgetEntriesAre(ids);
    case _ =>
      PutEntriesAre(Puts(ix, op), Now(op));
      MarkEntriesAreMarks(Marks(ix, op));
      PutsTurns(ix, op);
  }

  // ---------------------------------------------------------------- over a run

  lemma PutsGrow(a: seq<Entry>, b: seq<Entry>, given: set<Turn>)
    requires PutsFrom(a, given) && PutsFrom(b, given)
    ensures PutsFrom(a + b, given)
  {
  }

  lemma GivenGrows(s: Sys, given: set<Turn>, more: set<Turn>)
    requires AllGiven(s, given) && given <= more
    ensures AllGiven(s, more)
  {
  }

  lemma PlanGiven(s: Sys, op: Op, given: set<Turn>)
    requires AllGiven(s, given) && InProgress(s, op)
    requires op.Commit? ==> forall t :: t in op.turns ==> t in given
    ensures PutsFrom(Plan(s.spool.ix, op), given)
  {
    hide Plan;
    PlanTurns(s.spool.ix, op);
    if op.Flush? {
      BatchGiven(s.writer.batch, given);
    }
  }

  lemma BatchGiven(batch: seq<Request>, given: set<Turn>)
    requires RequestsFrom(batch, given)
    ensures forall t :: InBatch(TurnsOf(batch), t) ==> t in given
  {
    forall t | InBatch(TurnsOf(batch), t)
      ensures t in given
    {
      var turns :| turns in TurnsOf(batch) && t in turns;
      var i :| 0 <= i < |batch| && TurnsOf(batch)[i] == turns;
      assert batch[i] in batch;
    }
  }

  lemma SerialGiven(c: Codec, s: Sys, step: Step, given: set<Turn>)
    requires Inv(c, s) && Enabled(c, s, step) && AllGiven(s, given) && GivenBy(step) <= given
    requires step.Capture? || step.WriterFlush? || step.ForgetErase? || step.DrainFinish?
    ensures PutsFrom(Do(c, s, step).log.acked, given) && PutsFrom(Do(c, s, step).log.failed, given)
  {
    hide Do, Inv, Perform, Plan, PutsFrom, RequestsFrom;
    SerialIs(c, s, step);
    InvAgrees(c, s);
    var op := OpOf(s, step);
    PerformKeeps(c, s, op, IoOf(step));
    PlanGiven(s, op, given);
    PutsGrow(s.log.acked, Plan(s.spool.ix, op), given);
  }

  lemma DownGiven(c: Codec, s: Sys, step: Step, given: set<Turn>)
    requires Inv(c, s) && Enabled(c, s, step) && AllGiven(s, given) && GivenBy(step) <= given
    requires step.Crash? || step.Attempted? || step.StartDies?
    ensures AllGiven(Do(c, s, step), given)
  {
    DownIs(c, s, step);
    hide Do, StartUp, Plan, InOrder, LinesRead, WholeLines;
    if step.Crash? {
      PlanGiven(s, step.op, given);
    } else if step.Attempted? {
      PutsGrow(s.log.acked, s.log.failed[..WholeLines(c, s.log.failed, s.log.cut)], given);
    }
  }

  /** Where the requests of the next state come from. */
  ghost predicate RequestsOf(s: Sys, s': Sys, more: seq<Request>) {
    && (forall r :: r in s'.queue ==> r in s.queue || r in more)
    && (s'.writer.Flushing? ==> forall r :: r in s'.writer.batch ==> r in s.queue || (s.writer.Flushing? && r in s.writer.batch))
  }

  lemma StepRequests(c: Codec, s: Sys, step: Step)
    requires Enabled(c, s, step) && !step.Crash? && !step.Attempted? && !step.StartDies?
    ensures RequestsOf(s, Do(c, s, step), if step.Submit? then [Request(step.rid, step.turns)] else [])
  {
    hide Do, RequestsOf;
    if OfPass(step) {
      PassRequests(c, s, step);
    } else if OfWriter(step) {
      WriterRequests(c, s, step);
    } else if OfForget(step) {
      ForgetRequests(c, s, step);
    } else {
      OtherRequests(c, s, step);
    }
  }

  lemma PassRequests(c: Codec, s: Sys, step: Step)
    requires Enabled(c, s, step) && OfPass(step)
    ensures RequestsOf(s, Do(c, s, step), [])
  {
    hide DoWriter, DoForget, Crashed, Try, Execute, NextLog, ReadTurn, Hold, PassEnds, Window;
  }

  lemma WriterRequests(c: Codec, s: Sys, step: Step)
    requires Enabled(c, s, step) && OfWriter(step)
    ensures RequestsOf(s, Do(c, s, step), if step.Submit? then [Request(step.rid, step.turns)] else [])
  {
    hide DoPass, DoForget, Crashed, Try, Execute, NextLog, Answers, Verdicts, TurnsOf;
  }

  lemma ForgetRequests(c: Codec, s: Sys, step: Step)
    requires Enabled(c, s, step) && OfForget(step)
    ensures RequestsOf(s, Do(c, s, step), [])
  {
    hide DoPass, DoWriter, Crashed, Try, Execute, NextLog;
  }

  lemma OtherRequests(c: Codec, s: Sys, step: Step)
    requires Enabled(c, s, step) && (step.Capture? || step.Seed?)
    ensures RequestsOf(s, Do(c, s, step), [])
  {
    hide DoPass, DoWriter, DoForget, Crashed, Try, Execute, NextLog;
  }

  lemma UpGiven(c: Codec, s: Sys, step: Step, given: set<Turn>)
    requires Inv(c, s) && Enabled(c, s, step) && AllGiven(s, given) && GivenBy(step) <= given
    requires !step.Crash? && !step.Attempted? && !step.StartDies?
    ensures AllGiven(Do(c, s, step), given)
  {
    hide Do, Inv, PutsFrom;
    StepRequests(c, s, step);
    if step.Capture? || step.WriterFlush? || step.ForgetErase? || step.DrainFinish? {
      SerialGiven(c, s, step, given);
    } else {
      LogStays(c, s, step);
    }
  }

  lemma {:induction false} RunGiven(c: Codec, s: Sys, steps: seq<Step>, given: set<Turn>)
    requires c.Valid() && Inv(c, s) && CanRun(c, s, steps) && AllGiven(s, given)
    ensures AllGiven(RunAll(c, s, steps), given + Given(steps))
    decreases |steps|
  {
    hide Do, Inv, Enabled, AllGiven, GivenBy;
    if steps == [] {
      assert given + {} == given;
    } else {
      var step, more := steps[0], given + GivenBy(steps[0]);
      GivenGrows(s, given, more);
      if step.Crash? || step.Attempted? || step.StartDies? {
        DownGiven(c, s, step, more);
      } else {
        UpGiven(c, s, step, more);
      }
      StepKeeps(c, s, step);
      RunGiven(c, Do(c, s, step), steps[1..], more);
      assert more + Given(steps[1..]) == given + Given(steps);
    }
  }

  /** Over every run: every acknowledged put line holds, whole, a turn that was given to
      commitCapture or appendBatch, and so does every body handed to the writer. */
  lemma JournalHoldsGiven(c: Codec, run: seq<Step>)
    requires c.Valid() && CanRun(c, START, run)
    ensures var s := RunAll(c, START, run);
      && (forall e :: e in s.log.acked && e.Put? ==> e.turn in Given(run))
      && (s.drain.Writing? ==> s.drain.turn in Given(run))
  {
    hide Do, CanRun, Inv, Given;
    StartInv(c);
    RunGiven(c, START, run, {});
    assert {} + Given(run) == Given(run);
    HandsOverWhole(c, run);
  }

  /** The put lines an operation adds to the journal hold turns passed to it, whole. */
  lemma LinesPassed(c: Codec, s: Spool, log: Log, op: Op, io: Io, i: nat)
    requires |log.acked| <= i < |NextLog(c, s, log, op, io).acked| && NextLog(c, s, log, op, io).acked[i].Put?
    ensures var e := NextLog(c, s, log, op, io).acked[i];
      Passed(op, e.turn) && (op.Commit? || op.Flush?) && e.queuedAt == Some(op.now)
  {
    hide Plan, Passed;
    PlanTurns(s.ix, op);
    assert NextLog(c, s, log, op, io).acked[i] == Plan(s.ix, op)[i - |log.acked|];
  }
}
