/** What an answered append request tells its caller, over every run of the writer
    (src/capture/source-turn-spool.ts:264-333). */
module SpoolAnswers {
  import opened OrderedMap
  import opened Sequences
  import opened SpoolJournal
  import opened SpoolOps
  import opened GroupCommit
  import opened SpoolProtocol
  import opened SpoolSteps
  import opened SpoolSafety
  import opened SpoolTheorems
  import opened SpoolTurns

  // ---------------------------------------------------------------- one answer

  /** The spool has the turn's id pending with the turn's hmac. */
  predicate HoldsTurn(ix: Index, t: Turn) {
    t.id in ix.pending.at && ix.pending.at[t.id].hmac == t.hmac
  }

  /** No tombstone, nothing pending and no earlier turn of the batch has the id of turn `i`. */
  ghost predicate New(ix: Index, turns: seq<Turn>, i: nat)
    requires i < |turns|
  {
    turns[i].id !in ix.forgotten && turns[i].id !in ix.pending.at && forall j :: 0 <= j < i ==> turns[j].id != turns[i].id
  }

  /** How many turns of the batch the requests before the k-th brought. */
  function Before(batch: seq<Request>, k: nat): nat
    requires k <= |batch|
  {
    if k == 0 then 0 else Before(batch, k - 1) + |batch[k - 1].turns|
  }

  /** Request `k` got a flag for each of its turns: accepted when the spool holds the turn afterwards, and
      first when it was new. */
  ghost predicate Told(before: Index, after: Index, batch: seq<Request>, k: nat, a: Answer)
    requires k < |batch|
  {
    var turns, flat, n := batch[k].turns, Flatten(TurnsOf(batch)), Before(batch, k);
    && |a.accepted| == |turns| && |a.first| == |turns| && n + |turns| <= |flat|
    && forall j :: 0 <= j < |turns| ==>
         flat[n + j] == turns[j] && (a.accepted[j] <==> HoldsTurn(after, turns[j])) && (a.first[j] <==> New(before, flat, n + j))
  }

  /** Nothing was accepted, and nothing is first. */
  predicate Refused(turns: seq<Turn>, a: Answer) {
    |a.accepted| == |turns| && |a.first| == |turns| && forall j :: 0 <= j < |turns| ==> !a.accepted[j] && !a.first[j]
  }

  lemma {:induction false} FirstIsNew(ix: Index, turns: seq<Turn>, staged: OMap<string, Turn>, i: nat)
    requires i < |turns|
    ensures Verdicts(ix, turns, staged)[i].first <==>
      turns[i].id !in ix.forgotten && PriorHmac(ix, staged, turns[i].id) == None && forall j :: 0 <= j < i ==> turns[j].id != turns[i].id
    decreases |turns|
  {
    if i > 0 {
      var t, next := turns[0], StageOne(ix, staged, turns[0]);
      FirstIsNew(ix, turns[1..], next, i - 1);
      assert turns[1..][i - 1] == turns[i];
      assert (forall j :: 0 <= j < i ==> turns[j].id != turns[i].id) <==>
        t.id != turns[i].id && forall j :: 0 <= j < i - 1 ==> turns[1..][j].id != turns[i].id by {
        assert forall j :: 0 <= j < i - 1 ==> turns[1..][j] == turns[j + 1];
      }
    }
  }

  lemma {:induction false} NoFirsts(vs: seq<Verdict>)
    ensures Firsts(vs) == 0 <==> forall i :: 0 <= i < |vs| ==> !vs[i].first
  {
    if vs != [] {
      NoFirsts(vs[1..]);
      assert forall i :: 0 < i < |vs| ==> vs[i] == vs[1..][i - 1];
      assert forall i :: 0 <= i < |vs| - 1 ==> vs[1..][i] == vs[i + 1];
    }
  }

  lemma NewMeansFirst(ix: Index, turns: seq<Turn>, i: nat)
    requires i < |turns|
    ensures Verdicts(ix, turns, NOTHING)[i].first <==> New(ix, turns, i)
  {
    FirstIsNew(ix, turns, NOTHING, i);
  }

  /** A batch writes something exactly when one of its turns is new. */
  lemma NewMeansLines(ix: Index, batch: seq<seq<Turn>>, now: string)
    requires Coherent(ix)
    ensures Plan(ix, Flush(batch, now)) == [] <==> forall i :: 0 <= i < |Flatten(batch)| ==> !New(ix, Flatten(batch), i)
  {
    hide Plan, Verdicts, New;
    var turns := Flatten(batch);
    FreshPerPut(ix, batch, now);
    NoFirsts(Verdicts(ix, turns, NOTHING));
    forall i | 0 <= i < |turns|
      ensures Verdicts(ix, turns, NOTHING)[i].first <==> New(ix, turns, i)
    {
      NewMeansFirst(ix, turns, i);
    }
  }

  /** After a flush that succeeds, accepted is held. */
  lemma AcceptedMeansHeld(c: Codec, s: Spool, batch: seq<seq<Turn>>, now: string, io: Io, i: nat)
    requires Coherent(s.ix) && i < |Flatten(batch)| && Execute(c, s, Flush(batch, now), io).1
    ensures Verdicts(s.ix, Flatten(batch), NOTHING)[i].accepted <==> HoldsTurn(Execute(c, s, Flush(batch, now), io).0.ix, Flatten(batch)[i])
  {
    hide Verdicts, Plan, Effect;
    AcceptedIsHeld(c, s.(latched := false), batch, now, i);
  }

  lemma {:induction false} BeforeRest(batch: seq<Request>, k: nat)
    requires k <= |batch|
    ensures k > 0 ==> Before(batch, k) == |batch[0].turns| + Before(batch[1..], k - 1)
  {
    if k > 1 {
      BeforeRest(batch, k - 1);
      assert batch[1..][k - 2] == batch[k - 1];
    }
  }

  lemma RestIs(batch: seq<Request>)
    requires batch != []
    ensures |Flatten(TurnsOf(batch))| == |batch[0].turns| + |Flatten(TurnsOf(batch[1..]))|
    ensures Flatten(TurnsOf(batch)) == batch[0].turns + Flatten(TurnsOf(batch[1..]))
    ensures Rids(batch)[0] == batch[0].rid && Rids(batch)[1..] == Rids(batch[1..])
  {
    assert TurnsOf(batch)[1..] == TurnsOf(batch[1..]);
  }

  lemma {:induction false} FlatAt(batch: seq<Request>, k: nat, j: nat)
    requires k < |batch| && j < |batch[k].turns|
    ensures Before(batch, k) + |batch[k].turns| <= |Flatten(TurnsOf(batch))|
    ensures Flatten(TurnsOf(batch))[Before(batch, k) + j] == batch[k].turns[j]
    decreases |batch|
  {
    hide Flatten, TurnsOf, Rids, Before;
    RestIs(batch);
    if k == 0 {
      NoneBefore(batch);
    } else {
      BeforeRest(batch, k);
      FlatAt(batch[1..], k - 1, j);
    }
  }

  lemma {:induction false} FlatSize(batch: seq<Request>, k: nat)
    requires k < |batch|
    ensures Before(batch, k) + |batch[k].turns| <= |Flatten(TurnsOf(batch))|
    decreases |batch|
  {
    hide Flatten, TurnsOf, Rids, Before;
    RestIs(batch);
    if k == 0 {
      NoneBefore(batch);
    } else {
      BeforeRest(batch, k);
      FlatSize(batch[1..], k - 1);
    }
  }

  lemma DistinctRest(rids: seq<nat>)
    requires Distinct(rids) && rids != []
    ensures Distinct(rids[1..]) && rids[0] !in rids[1..]
  {
    assert forall i :: 0 <= i < |rids| - 1 ==> rids[1..][i] == rids[i + 1];
  }

  /** Each request gets the verdicts on its own turns. */
  lemma {:induction false} AnswerIs(ok: bool, batch: seq<Request>, vs: seq<Verdict>, k: nat)
    requires |vs| == |Flatten(TurnsOf(batch))| && k < |batch| && Distinct(Rids(batch))
    requires Before(batch, k) + |batch[k].turns| <= |vs|
    ensures batch[k].rid in Answers(ok, batch, vs)
    ensures Answers(ok, batch, vs)[batch[k].rid] == AnswerOf(ok, vs[Before(batch, k)..Before(batch, k) + |batch[k].turns|])
    decreases |batch|
  {
    hide AnswerOf, Distinct, Flatten, TurnsOf, Rids, Before;
    BeforeRest(batch, k);
    RestIs(batch);
    var m, l := |batch[0].turns|, |batch[k].turns|;
    AnswersRest(ok, batch, vs);
    if k == 0 {
      NoneBefore(batch);
      assert vs[0..l] == vs[..l];
    } else {
      DistinctRest(Rids(batch));
      AnswerIs(ok, batch[1..], vs[m..], k - 1);
      RidAt(batch, k);
      var p := Before(batch[1..], k - 1);
      assert vs[m..][p..p + l] == vs[m + p..m + p + l];
    }
  }

  lemma NoneBefore(batch: seq<Request>)
    ensures Before(batch, 0) == 0
  {
  }

  lemma RidAt(batch: seq<Request>, k: nat)
    requires 0 < k < |batch|
    ensures batch[k].rid in Rids(batch)[1..]
  {
    assert Rids(batch)[1..][k - 1] == batch[k].rid;
  }

  lemma AnswersRest(ok: bool, batch: seq<Request>, vs: seq<Verdict>)
    requires batch != [] && |vs| == |Flatten(TurnsOf(batch))| == |batch[0].turns| + |Flatten(TurnsOf(batch[1..]))|
    ensures var n := |batch[0].turns|;
      Answers(ok, batch, vs) == Answers(ok, batch[1..], vs[n..])[batch[0].rid := AnswerOf(ok, vs[..n])]
  {
  }

  lemma Flags(ok: bool, vs: seq<Verdict>, n: nat, l: nat)
    requires n + l <= |vs|
    ensures var a := AnswerOf(ok, vs[n..n + l]);
      |a.accepted| == l && |a.first| == l
      && forall j :: 0 <= j < l ==> (a.accepted[j] <==> ok && vs[n + j].accepted) && (a.first[j] <==> ok && vs[n + j].first)
  {
  }

  // ---------------------------------------------------------------- one flush

  /** A flush is acknowledged when it is synced, or when none of its turns is new. */
  ghost predicate Acknowledged(s: Spool, flat: seq<Turn>, io: Io) {
    (io.Synced? && !s.latched) || forall i :: 0 <= i < |flat| ==> !New(s.ix, flat, i)
  }

  lemma AckIsOk(c: Codec, s: Spool, batch: seq<seq<Turn>>, now: string, io: Io)
    requires Coherent(s.ix)
    ensures Execute(c, s, Flush(batch, now), io).1 <==> Acknowledged(s, Flatten(batch), io)
  {
    hide Plan, Effect, New;
    NewMeansLines(s.ix, batch, now);
  }

  /** When the writer's flush ends, each request of its batch is answered: of an acknowledged one every turn
      is accepted exactly when the spool now holds it, and first exactly when it was new; of a failed one
      nothing is accepted. */
  lemma FlushTells(c: Codec, s: Sys, now: string, io: Io, k: nat)
    requires Inv(c, s) && Enabled(c, s, WriterFlush(now, io)) && k < |s.writer.batch|
    ensures var s', batch := Do(c, s, WriterFlush(now, io)), s.writer.batch;
      && batch[k].rid in s'.answers
      && if Acknowledged(s.spool, Flatten(TurnsOf(batch)), io)
         then Told(s.spool.ix, s'.spool.ix, batch, k, s'.answers[batch[k].rid])
         else Refused(batch[k].turns, s'.answers[batch[k].rid])
  {
    hide Inv, Execute, NextLog, Verdicts, Answers, New, Flatten, TurnsOf, HoldsTurn, Before;
    MapsCoherent(c, s);
    BatchDistinct(c, s);
    var batch := s.writer.batch;
    var turns := TurnsOf(batch);
    var flat := Flatten(turns);
    var vs := Verdicts(s.spool.ix, flat, NOTHING);
    var ok := Execute(c, s.spool, Flush(turns, now), io).1;
    AckIsOk(c, s.spool, turns, now, io);
    FlatSize(batch, k);
    AnswerIs(ok, batch, vs, k);
    Flags(ok, vs, Before(batch, k), |batch[k].turns|);
    if ok {
      forall j | 0 <= j < |batch[k].turns|
        ensures flat[Before(batch, k) + j] == batch[k].turns[j]
        ensures vs[Before(batch, k) + j].accepted <==> HoldsTurn(Execute(c, s.spool, Flush(turns, now), io).0.ix, batch[k].turns[j])
        ensures vs[Before(batch, k) + j].first <==> New(s.spool.ix, flat, Before(batch, k) + j)
      {
        FlatAt(batch, k, j);
        AcceptedMeansHeld(c, s.spool, turns, now, io, Before(batch, k) + j);
        NewMeansFirst(s.spool.ix, flat, Before(batch, k) + j);
      }
    }
  }

  lemma BatchDistinct(c: Codec, s: Sys)
    requires Inv(c, s) && s.writer.Flushing?
    ensures Distinct(Rids(s.writer.batch))
  {
    hide InvMaps, InvDrain, InvForget, InvOffsets, InvHistory, Rids;
    var a, b := Rids(s.writer.batch), Rids(s.queue);
    assert Waiting(s.writer, s.queue) == a + b;
    forall i, j | 0 <= i < j < |a|
      ensures a[i] != a[j]
    {
      assert (a + b)[i] == a[i] && (a + b)[j] == a[j];
    }
  }

  // ---------------------------------------------------------------- over a run

  /** The request a step submits. */
  function Submitted(step: Step): set<Request> {
    if step.Submit? then {Request(step.rid, step.turns)} else {}
  }

  function SubmittedIn(run: seq<Step>): set<Request> {
    if run == [] then {} else Submitted(run[0]) + SubmittedIn(run[1..])
  }

  /** A put line of the journal has the turn's id and hmac. */
  ghost predicate Logged(es: seq<Entry>, t: Turn) {
    exists i: nat :: PutOf(es, i, t)
  }

  predicate PutOf(es: seq<Entry>, i: nat, t: Turn) {
    i < |es| && es[i].Put? && es[i].turn.id == t.id && es[i].turn.hmac == t.hmac
  }

  /** The answer has a flag for each turn, and what it accepts is in the journal. */
  ghost predicate Backed(es: seq<Entry>, turns: seq<Turn>, a: Answer) {
    && |a.accepted| == |turns| && |a.first| == |turns|
    && forall j :: 0 <= j < |turns| && a.accepted[j] ==> Logged(es, turns[j])
  }

  ghost predicate AnswerBacked(es: seq<Entry>, asked: set<Request>, rid: nat, a: Answer) {
    exists r :: r in asked && r.rid == rid && Backed(es, r.turns, a)
  }

  ghost predicate AllBacked(s: Sys, asked: set<Request>) {
    && (forall r :: r in s.queue ==> r in asked)
    && (s.writer.Flushing? ==> forall r :: r in s.writer.batch ==> r in asked)
    && (forall rid :: rid in s.answers ==> AnswerBacked(s.log.acked, asked, rid, s.answers[rid]))
  }

  lemma BackedGrows(es: seq<Entry>, fs: seq<Entry>, turns: seq<Turn>, a: Answer)
    requires Backed(es, turns, a) && es <= fs
    ensures Backed(fs, turns, a)
  {
    forall j | 0 <= j < |turns| && a.accepted[j]
      ensures Logged(fs, turns[j])
    {
      var i: nat :| PutOf(es, i, turns[j]);
      assert PutOf(fs, i, turns[j]);
    }
  }

  lemma AnswerGrows(es: seq<Entry>, fs: seq<Entry>, asked: set<Request>, more: set<Request>, rid: nat, a: Answer)
    requires AnswerBacked(es, asked, rid, a) && es <= fs && asked <= more
    ensures AnswerBacked(fs, more, rid, a)
  {
    hide Backed;
    var r :| r in asked && r.rid == rid && Backed(es, r.turns, a);
    BackedGrows(es, fs, r.turns, a);
    assert r in more;
  }

  lemma HeldIsLogged(c: Codec, s: Sys, t: Turn)
    requires Inv(c, s) && s.boot.Up? && HoldsTurn(s.spool.ix, t)
    ensures Logged(s.log.acked, t)
  {
    hide InvDrain, InvForget, InvOffsets, InvHistory, InvWriter, Agrees;
    AgreesLines(c, s.spool, s.log, s.seeds);
    var p := s.spool.ix.pending.at[t.id];
    assert HasLine(c, s.log.acked, t.id, p);
    var u: Turn :| u.id == t.id && Whole(c, s.log.acked, p, u);
    var i: nat :| LineAt(c, s.log.acked, i, p) && s.log.acked[i].turn == u;
    assert PutOf(s.log.acked, i, t);
  }

  lemma FlushBacked(c: Codec, s: Sys, now: string, io: Io, k: nat)
    requires c.Valid() && Inv(c, s) && Enabled(c, s, WriterFlush(now, io)) && k < |s.writer.batch|
    ensures var s' := Do(c, s, WriterFlush(now, io));
      s.writer.batch[k].rid in s'.answers && Backed(s'.log.acked, s.writer.batch[k].turns, s'.answers[s.writer.batch[k].rid])
  {
    hide Do, Inv, HoldsTurn, Logged, New, Acknowledged;
    var step := WriterFlush(now, io);
    FlushTells(c, s, now, io, k);
    StepKeeps(c, s, step);
    var s' := Do(c, s, step);
    FlushUp(c, s, now, io);
    forall t | HoldsTurn(s'.spool.ix, t)
      ensures Logged(s'.log.acked, t)
    {
      HeldIsLogged(c, s', t);
    }
  }

  lemma FlushUp(c: Codec, s: Sys, now: string, io: Io)
    requires Enabled(c, s, WriterFlush(now, io))
    ensures var s' := Do(c, s, WriterFlush(now, io));
      s'.boot.Up? && s'.queue == s.queue && !s'.writer.Flushing?
      && forall rid :: rid in s'.answers ==> (rid in s.answers && s'.answers[rid] == s.answers[rid]) || rid in Rids(s.writer.batch)
  {
    hide Execute, NextLog, Answers, Verdicts, Flatten, TurnsOf;
    var turns := TurnsOf(s.writer.batch);
    AnswersKeys(Execute(c, s.spool, Flush(turns, now), io).1, s.writer.batch, Verdicts(s.spool.ix, Flatten(turns), NOTHING));
  }

  lemma AnswersStay(c: Codec, s: Sys, step: Step)
    requires Enabled(c, s, step) && !step.WriterFlush?
    ensures Do(c, s, step).answers == s.answers
  {
    hide Do;
    if OfPass(step) {
      PassFrame(c, s, step);
    } else if OfWriter(step) {
      WriterFrame(c, s, step);
    } else if OfForget(step) {
      ForgetFrame(c, s, step);
    } else if step.Crash? || step.Attempted? || step.StartDies? {
      DownFrame(c, s, step);
    } else {
      OtherFrame(c, s, step);
    }
  }

  lemma DownRequests(c: Codec, s: Sys, step: Step)
    requires Inv(c, s) && Enabled(c, s, step) && (step.Crash? || step.Attempted? || step.StartDies?)
    ensures Do(c, s, step).queue == [] && !Do(c, s, step).writer.Flushing?
  {
    DownIs(c, s, step);
    hide Do, StartUp, Plan, CrashLog, OnDisk, LinesRead, InvDrain, InvForget, InvOffsets, InvHistory, InvWriter, Agrees, Starting;
  }

  lemma FlushAllBacked(c: Codec, s: Sys, step: Step, asked: set<Request>)
    requires c.Valid() && Inv(c, s) && Enabled(c, s, step) && step.WriterFlush? && AllBacked(s, asked)
    ensures AllBacked(Do(c, s, step), asked)
  {
    hide Do, Inv, Enabled, Backed, AnswerBacked;
    var s' := Do(c, s, step);
    WriterUpAt(c, s, step);
    FlushUp(c, s, step.now, step.io);
    LogStep(c, s, step);
    forall rid | rid in s'.answers
      ensures AnswerBacked(s'.log.acked, asked, rid, s'.answers[rid])
    {
      if rid in Rids(s.writer.batch) {
        var k :| 0 <= k < |s.writer.batch| && Rids(s.writer.batch)[k] == rid;
        FlushBacked(c, s, step.now, step.io, k);
        OneBacked(s'.log.acked, asked, s.writer.batch[k], s'.answers[rid]);
      } else {
        AnswerGrows(s.log.acked, s'.log.acked, asked, asked, rid, s.answers[rid]);
      }
    }
  }

  lemma WriterUpAt(c: Codec, s: Sys, step: Step)
    requires Enabled(c, s, step) && step.WriterFlush?
    ensures s.writer.Flushing?
  {
  }

  lemma OneBacked(es: seq<Entry>, asked: set<Request>, r: Request, a: Answer)
    requires r in asked && Backed(es, r.turns, a)
    ensures AnswerBacked(es, asked, r.rid, a)
  {
  }

  lemma StepBacked(c: Codec, s: Sys, step: Step, asked: set<Request>)
    requires c.Valid() && Inv(c, s) && Enabled(c, s, step) && AllBacked(s, asked) && Submitted(step) <= asked
    ensures AllBacked(Do(c, s, step), asked)
  {
    hide Do, Inv, Enabled, AnswerBacked;
    if step.WriterFlush? {
      FlushAllBacked(c, s, step, asked);
    } else {
      var s' := Do(c, s, step);
      AnswersStay(c, s, step);
      LogStep(c, s, step);
      if step.Crash? || step.Attempted? || step.StartDies? {
        DownRequests(c, s, step);
      } else {
        StepRequests(c, s, step);
      }
      forall rid | rid in s'.answers
        ensures AnswerBacked(s'.log.acked, asked, rid, s'.answers[rid])
      {
        AnswerGrows(s.log.acked, s'.log.acked, asked, asked, rid, s.answers[rid]);
      }
    }
  }

  lemma MoreAsked(s: Sys, asked: set<Request>, more: set<Request>)
    requires AllBacked(s, asked) && asked <= more
    ensures AllBacked(s, more)
  {
    hide AnswerBacked;
    forall rid | rid in s.answers
      ensures AnswerBacked(s.log.acked, more, rid, s.answers[rid])
    {
      AnswerGrows(s.log.acked, s.log.acked, asked, more, rid, s.answers[rid]);
    }
  }

  lemma {:induction false} RunBacked(c: Codec, s: Sys, steps: seq<Step>, asked: set<Request>)
    requires c.Valid() && Inv(c, s) && CanRun(c, s, steps) && AllBacked(s, asked)
    ensures AllBacked(RunAll(c, s, steps), asked + SubmittedIn(steps))
    decreases |steps|
  {
    hide Do, Inv, Enabled, AllBacked, Submitted;
    if steps == [] {
      assert asked + {} == asked;
    } else {
      var more := asked + Submitted(steps[0]);
      MoreAsked(s, asked, more);
      StepBacked(c, s, steps[0], more);
      StepKeeps(c, s, steps[0]);
      RunBacked(c, Do(c, s, steps[0]), steps[1..], more);
      assert more + SubmittedIn(steps[1..]) == asked + SubmittedIn(steps);
    }
  }

  /** Over every run: an answer belongs to a submitted request, has a flag for each of its turns, and a turn
      it calls accepted has a put line of its id and hmac in the acknowledged journal. */
  lemma AcceptedIsLogged(c: Codec, run: seq<Step>, rid: nat)
    requires c.Valid() && CanRun(c, START, run) && rid in RunAll(c, START, run).answers
    ensures var s := RunAll(c, START, run); AnswerBacked(s.log.acked, SubmittedIn(run), rid, s.answers[rid])
  {
    hide Do, CanRun, Inv, SubmittedIn, AnswerBacked;
    StartInv(c);
    RunBacked(c, START, run, {});
    assert {} + SubmittedIn(run) == SubmittedIn(run);
  }
}
