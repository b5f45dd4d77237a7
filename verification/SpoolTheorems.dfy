/** What follows for whole runs of the spool: finality of forget, absence of deadlock, answers
    to every request, and no acknowledged turn lost. */
module SpoolTheorems {
  import opened OrderedMap
  import opened SpoolJournal
  import opened SpoolOps
  import opened SpoolProtocol
  import opened SpoolSafety
  import opened SpoolSteps
  import opened SpoolStartup

  // ---------------------------------------------------------------- forget is final

  ghost predicate Touches(d: Drain, id: string) {
    exists h :: h in Current(d) && h.id == id
  }

  /** An id of a resolved forget: no body for it is being read or written, it is not resident,
      nor will it be once start-up ends, and its tombstone is there. */
  ghost predicate Gone(c: Codec, s: Sys, id: string) {
    && !Touches(s.drain, id)
    && id !in Maps(c, s).pending.at && id !in Maps(c, s).extracted
    && id in Maps(c, s).forgotten
  }

  lemma MapsCoherent(c: Codec, s: Sys)
    requires Inv(c, s)
    ensures Coherent(Maps(c, s))
  {
    if s.boot.Up? {
      AgreesCoherent(c, s.spool, s.log, s.seeds);
    } else {
      ReplayCoherent(c, Fresh({}), OnDisk(c, s.log), 0);
    }
  }

  lemma FinalIsGone(c: Codec, s: Sys, id: string)
    requires Inv(c, s) && id in s.final
    ensures Gone(c, s, id)
  {
    hide InvMaps, InvDrain, InvOffsets, InvHistory, InvWriter, Maps;
    MapsCoherent(c, s);
  }

  lemma {:induction false} FinalGrows(c: Codec, s: Sys, steps: seq<Step>)
    requires CanRun(c, s, steps)
    ensures s.final <= RunAll(c, s, steps).final
    decreases |steps|
  {
    if steps != [] {
      hide Perform, Crashed, Try, Verdicts, Answers;
      FinalStep(c, s, steps[0]);
      FinalGrows(c, Do(c, s, steps[0]), steps[1..]);
    }
  }

  lemma FinalStep(c: Codec, s: Sys, step: Step)
    requires Enabled(c, s, step)
    ensures s.final <= Do(c, s, step).final
    ensures step.ForgetResolve? ==> forall id :: id in s.forgets[step.fid].ids ==> id in Do(c, s, step).final
  {
    hide Do, DoPass, DoWriter, DoForget, Crashed, Try, Perform;
    if step.Crash? || step.Attempted? || step.StartDies? {
      DownFrame(c, s, step);
    } else if OfPass(step) {
      FinalPass(c, s, step);
    } else if OfForget(step) {
      FinalForget(c, s, step);
    } else {
      FinalOther(c, s, step);
    }
  }

  lemma FinalPass(c: Codec, s: Sys, step: Step)
    requires Enabled(c, s, step) && OfPass(step)
    ensures Do(c, s, step).final == s.final
  {
    hide DoWriter, DoForget, Crashed, Try, Execute, NextLog, ReadTurn, Hold, PassEnds, Window;
  }

  lemma FinalForget(c: Codec, s: Sys, step: Step)
    requires Enabled(c, s, step) && OfForget(step)
    ensures s.final <= Do(c, s, step).final
    ensures step.ForgetResolve? ==> forall id :: id in s.forgets[step.fid].ids ==> id in Do(c, s, step).final
  {
    hide DoPass, DoWriter, Crashed, Try, Execute, NextLog;
  }

  lemma FinalOther(c: Codec, s: Sys, step: Step)
    requires Enabled(c, s, step) && (OfWriter(step) || step.Capture? || step.Seed?)
    ensures Do(c, s, step).final == s.final
  {
    hide DoPass, DoForget, Crashed, Try, Execute, NextLog, Verdicts, Answers;
  }

  lemma {:induction false} SplitRun(c: Codec, s: Sys, before: seq<Step>, after: seq<Step>)
    requires CanRun(c, s, before + after)
    ensures CanRun(c, s, before) && CanRun(c, RunAll(c, s, before), after)
    ensures RunAll(c, s, before + after) == RunAll(c, RunAll(c, s, before), after)
    decreases |before|
  {
    hide Do, Enabled;
    if before == [] {
      assert before + after == after;
    } else {
      assert (before + after)[0] == before[0];
      assert (before + after)[1..] == before[1..] + after;
      SplitRun(c, Do(c, s, before[0]), before[1..], after);
    }
  }

  /** Once `forget(ids)` resolves, its ids are gone in every later state of the run, whatever
      captures, appends, drains, failures and crashes follow. */
  lemma ForgetIsFinal(c: Codec, before: seq<Step>, fid: nat, after: seq<Step>)
    requires c.Valid() && CanRun(c, START, before + [ForgetResolve(fid)] + after)
    ensures CanRun(c, START, before)
    ensures var s := RunAll(c, START, before);
      fid in s.forgets && forall id :: id in s.forgets[fid].ids ==>
        Gone(c, RunAll(c, START, before + [ForgetResolve(fid)] + after), id)
  {
    hide Do, Gone, Inv;
    var all := before + [ForgetResolve(fid)] + after;
    assert all == before + ([ForgetResolve(fid)] + after);
    SplitRun(c, START, before, [ForgetResolve(fid)] + after);
    var s := RunAll(c, START, before);
    var rest := [ForgetResolve(fid)] + after;
    assert rest[0] == ForgetResolve(fid) && rest[1..] == after;
    var s' := Do(c, s, ForgetResolve(fid));
    FinalStep(c, s, ForgetResolve(fid));
    FinalGrows(c, s', after);
    Reachable(c, all);
    forall id | id in s.forgets[fid].ids
      ensures Gone(c, RunAll(c, START, all), id)
    {
      FinalIsGone(c, RunAll(c, START, all), id);
    }
  }

  // ---------------------------------------------------------------- no deadlock

  /** Steps a pass still has in front of it, counting its end and its release. */
  function PassWork(d: Drain): nat {
    match d
    case Idle => 0
    case Releasing(_) => 1
    case Finishing(_) => 2
    case Loop(p) => 3 + 3 * |p.rest|
    case Writing(p, _, _, _) => 4 + 3 * |p.rest|
    case Reading(p, _, _) => 5 + 3 * |p.rest|
  }

  /** The step a running pass takes next; `io` and `ok` are whatever its environment answers. */
  function NextOfPass(d: Drain, ok: bool, io: Io): Step {
    match d
    case Loop(_) => DrainNext
    case Reading(_, _, _) => DrainRead(ok)
    case Writing(_, _, _, _) => DrainWrote(ok)
    case Finishing(_) => DrainFinish(io)
    case _ => DrainRelease
  }

  /** A running pass is never blocked, and each of its steps brings its end closer. */
  lemma PassAdvances(c: Codec, s: Sys, ok: bool, io: Io)
    requires s.boot.Up? && !s.drain.Idle?
    ensures Enabled(c, s, NextOfPass(s.drain, ok, io))
    ensures PassWork(Do(c, s, NextOfPass(s.drain, ok, io)).drain) < PassWork(s.drain)
    ensures Do(c, s, NextOfPass(s.drain, ok, io)).forgets == s.forgets && Do(c, s, NextOfPass(s.drain, ok, io)).boot == s.boot
    ensures s.released <= Do(c, s, NextOfPass(s.drain, ok, io)).released
  {
    hide Do, PassEnds;
    if s.drain.Loop? {
      NextPass(c, s);
    } else if s.drain.Finishing? {
      FinishReleases(c, s, io);
    } else {
      BodyAdvances(c, s, ok, io);
    }
  }

  lemma BodyAdvances(c: Codec, s: Sys, ok: bool, io: Io)
    requires s.boot.Up? && (s.drain.Reading? || s.drain.Writing? || s.drain.Releasing?)
    ensures Enabled(c, s, NextOfPass(s.drain, ok, io))
    ensures var s' := Do(c, s, NextOfPass(s.drain, ok, io));
      PassWork(s'.drain) < PassWork(s.drain) && s'.forgets == s.forgets && s.released <= s'.released && s'.boot == s.boot
      && HeldTokens(Registered(s.drain)) <= HeldTokens(Registered(s'.drain)) + s'.released
  {
    hide ReadTurn, Execute, NextLog, DoWriter, DoForget, Crashed, Try;
    var s' := Do(c, s, NextOfPass(s.drain, ok, io));
    if !s.drain.Releasing? {
      assert Registered(s.drain) == Registered(s'.drain);
    }
  }

  lemma FinishReleases(c: Codec, s: Sys, io: Io)
    requires s.boot.Up? && s.drain.Finishing?
    ensures var s' := Do(c, s, DrainFinish(io));
      s'.drain == Releasing(s.drain.pass.held) && s'.forgets == s.forgets && s'.released == s.released && s'.boot == s.boot
  {
    hide Execute, NextLog;
  }

  /** Whatever a forget waits for is released or held by the running pass. */
  ghost predicate InvTokens(s: Sys) {
    && (forall fid, t :: fid in s.forgets && s.forgets[fid].AwaitDrain? && t in s.forgets[fid].tokens ==>
          t in s.released || t in HeldTokens(Registered(s.drain)))
  }

  lemma RunningForgetsDrain(c: Codec, s: Sys, fid: nat, ok: bool, io: Io) returns (steps: seq<Step>)
    requires c.Valid() && Inv(c, s) && InvTokens(s) && s.boot.Up?
    requires fid in s.forgets && s.forgets[fid].AwaitDrain?
    ensures CanRun(c, s, steps)
    ensures var s' := RunAll(c, s, steps); fid in s'.forgets && s'.forgets[fid] == Resolved(s.forgets[fid].ids)
    decreases PassWork(s.drain)
  {
    hide Do, Inv, InvTokens, Registered;
    if s.drain.Idle? {
      IdleReleased(s, fid);
      steps := [ForgetResolve(fid)];
      ResolveOutcome(c, s, fid);
      assert steps[1..] == [];
    } else {
      var step := NextOfPass(s.drain, ok, io);
      PassAdvances(c, s, ok, io);
      StepKeeps(c, s, step);
      TokensKept(c, s, step);
      var rest := RunningForgetsDrain(c, Do(c, s, step), fid, ok, io);
      steps := [step] + rest;
      assert steps[0] == step && steps[1..] == rest;
    }
  }

  lemma IdleReleased(s: Sys, fid: nat)
    requires InvTokens(s) && s.drain.Idle? && fid in s.forgets && s.forgets[fid].AwaitDrain?
    ensures s.forgets[fid].tokens <= s.released
  {
  }

  lemma ResolveOutcome(c: Codec, s: Sys, fid: nat)
    requires Enabled(c, s, ForgetResolve(fid))
    ensures var s' := Do(c, s, ForgetResolve(fid)); fid in s'.forgets && s'.forgets[fid] == Resolved(s.forgets[fid].ids)
  {
  }

  /** Registrations leave a pass only by being released; erasing waits only for registered ones. */
  lemma TokensKept(c: Codec, s: Sys, step: Step)
    requires Inv(c, s) && InvTokens(s) && Enabled(c, s, step)
    ensures InvTokens(Do(c, s, step))
  {
    if step.DrainNext? || step.DrainRead? || step.DrainWrote? || step.DrainFinish? || step.DrainRelease? || step.DrainStart? {
      PassTokens(c, s, step);
    } else if step.ForgetErase? {
      EraseTokens(c, s, step.fid, step.io);
    } else if step.Crash? || step.Attempted? || step.StartDies? {
      hide Do, Inv;
      StillTokens(c, s, step);
    } else {
      OtherTokens(c, s, step);
    }
  }

  lemma PassTokens(c: Codec, s: Sys, step: Step)
    requires InvTokens(s) && Enabled(c, s, step)
    requires step.DrainNext? || step.DrainRead? || step.DrainWrote? || step.DrainFinish? || step.DrainRelease? || step.DrainStart?
    ensures InvTokens(Do(c, s, step))
  {
    hide Do;
    var s' := Do(c, s, step);
    if step.DrainStart? {
      StartHolds(c, s, step.maxTurns);
    } else if step.DrainNext? {
      hide PassEnds;
      NextPass(c, s);
      assert HeldTokens(Registered(s.drain)) <= HeldTokens(Registered(s'.drain));
    } else if step.DrainFinish? {
      FinishReleases(c, s, step.io);
      assert Registered(s'.drain) == Registered(s.drain);
    } else {
      BodyAdvances(c, s, if step.DrainRead? then step.opens else if step.DrainWrote? then step.ok else true, OpenFails);
    }
  }

  lemma StartHolds(c: Codec, s: Sys, maxTurns: int)
    requires Enabled(c, s, DrainStart(maxTurns))
    ensures var s' := Do(c, s, DrainStart(maxTurns));
      s'.forgets == s.forgets && s'.released == s.released && Registered(s.drain) == Registered(s'.drain) == []
  {
    hide Window;
  }

  lemma StillTokens(c: Codec, s: Sys, step: Step)
    requires Inv(c, s) && Enabled(c, s, step) && (step.Crash? || step.Attempted? || step.StartDies?)
    ensures Do(c, s, step).forgets == map[]
  {
    hide Starting, Agrees, InvDrain, InvForget, InvHistory, InvWriter, StartUp;
  }

  lemma EraseTokens(c: Codec, s: Sys, fid: nat, io: Io)
    requires Inv(c, s) && InvTokens(s) && Enabled(c, s, ForgetErase(fid, io))
    ensures InvTokens(Do(c, s, ForgetErase(fid, io)))
  {
    hide Execute, NextLog, Agrees, InvForget, InvOffsets, InvHistory, InvWriter, DistinctIds;
    var ids := s.forgets[fid].ids;
    forall t | t in TokensOf(s.inFlight, ids)
      ensures t in HeldTokens(Registered(s.drain))
    {
      var id :| id in ids && id in s.inFlight && s.inFlight[id] == t;
      assert id in HeldIds(Registered(s.drain));
      var h :| h in Registered(s.drain) && h.id == id;
      assert h.token == t;
    }
  }

  lemma OtherTokens(c: Codec, s: Sys, step: Step)
    requires InvTokens(s) && Enabled(c, s, step)
    requires step.Capture? || step.Seed? || step.Submit? || step.WriterTake? || step.WriterFlush? || step.WriterExit?
          || step.WriterFinally? || step.ForgetCall? || step.ForgetAwaited? || step.ForgetResolve?
    ensures InvTokens(Do(c, s, step))
  {
    hide Execute, NextLog, Answers, Verdicts, Registered;
  }

  lemma {:induction false} RunTokens(c: Codec, s: Sys, steps: seq<Step>)
    requires c.Valid() && Inv(c, s) && InvTokens(s) && CanRun(c, s, steps)
    ensures InvTokens(RunAll(c, s, steps))
    decreases |steps|
  {
    hide Do, Inv, InvTokens, Enabled;
    if steps != [] {
      StepKeeps(c, s, steps[0]);
      TokensKept(c, s, steps[0]);
      RunTokens(c, Do(c, s, steps[0]), steps[1..]);
    }
  }

  /** A forget never deadlocks with a drain: from every reachable state in which it waits, the
      steps of the running pass alone, whatever they meet, lead to its resolution. */
  lemma ForgetNeverDeadlocks(c: Codec, run: seq<Step>, fid: nat, ok: bool, io: Io) returns (steps: seq<Step>)
    requires c.Valid() && CanRun(c, START, run)
    requires fid in RunAll(c, START, run).forgets && RunAll(c, START, run).forgets[fid].AwaitDrain?
    ensures var s := RunAll(c, START, run);
      CanRun(c, s, steps) && fid in RunAll(c, s, steps).forgets
      && RunAll(c, s, steps).forgets[fid] == Resolved(s.forgets[fid].ids)
  {
    hide Do, Inv, InvTokens;
    Reachable(c, run);
    StartInv(c);
    StartTokens();
    RunTokens(c, START, run);
    ForgetsUp(c, RunAll(c, START, run), fid);
    steps := RunningForgetsDrain(c, RunAll(c, START, run), fid, ok, io);
  }

  lemma ForgetsUp(c: Codec, s: Sys, fid: nat)
    requires Inv(c, s) && fid in s.forgets
    ensures s.boot.Up?
  {
  }

  lemma StartTokens()
    ensures InvTokens(START)
  {
  }

  // ---------------------------------------------------------------- every request is answered

  function WriterWork(s: Sys): nat {
    match s.writer
    case NoWriter => 0
    case Exited(_) => if s.queue == [] then 1 else 5
    case Flushing(_, _) => if s.queue == [] then 3 else 6
    case Running(_) => if s.queue == [] then 2 else 4
  }

  function NextOfWriter(s: Sys, now: string, io: Io): Step {
    match s.writer
    case Running(_) => if s.queue == [] then WriterExit else WriterTake
    case Flushing(_, _) => WriterFlush(now, io)
    case _ => WriterFinally
  }

  lemma WriterAdvances(c: Codec, s: Sys, now: string, io: Io)
    requires s.boot.Up? && !s.writer.NoWriter?
    ensures Enabled(c, s, NextOfWriter(s, now, io))
    ensures WriterWork(Do(c, s, NextOfWriter(s, now, io))) < WriterWork(s)
    ensures Do(c, s, NextOfWriter(s, now, io)).submitted == s.submitted
  {
    hide Do;
    match s.writer
    case Flushing(_, _) => FlushAdvances(c, s, now, io);
    case _ => LoopAdvances(c, s);
  }

  lemma FlushAdvances(c: Codec, s: Sys, now: string, io: Io)
    requires s.boot.Up? && s.writer.Flushing?
    ensures var s' := Do(c, s, WriterFlush(now, io));
      s'.writer.Running? && s'.queue == s.queue && s'.submitted == s.submitted
  {
    hide Execute, NextLog, Answers, Verdicts;
  }

  lemma LoopAdvances(c: Codec, s: Sys)
    requires s.boot.Up?
    ensures s.writer.Running? && s.queue != [] ==>
      var s' := Do(c, s, WriterTake); s'.writer.Flushing? && s'.queue == [] && s'.submitted == s.submitted
    ensures s.writer.Running? && s.queue == [] ==>
      var s' := Do(c, s, WriterExit); s'.writer.Exited? && s'.queue == s.queue && s'.submitted == s.submitted
    ensures s.writer.Exited? ==>
      var s' := Do(c, s, WriterFinally);
      s'.queue == s.queue && s'.submitted == s.submitted && (if s.queue == [] then s'.writer.NoWriter? else s'.writer.Running?)
  {
  }

  lemma WriterFinishes(c: Codec, s: Sys, now: string, io: Io) returns (steps: seq<Step>)
    requires c.Valid() && Inv(c, s)
    ensures CanRun(c, s, steps)
    ensures RunAll(c, s, steps).submitted == s.submitted == RunAll(c, s, steps).answers.Keys
    decreases WriterWork(s)
  {
    hide Do, Inv;
    if s.writer.NoWriter? {
      steps := [];
      AllAnswered(c, s);
    } else {
      var step := NextOfWriter(s, now, io);
      WriterUp(c, s);
      WriterAdvances(c, s, now, io);
      StepKeeps(c, s, step);
      var rest := WriterFinishes(c, Do(c, s, step), now, io);
      steps := [step] + rest;
      assert steps[0] == step && steps[1..] == rest;
    }
  }

  lemma WriterUp(c: Codec, s: Sys)
    requires Inv(c, s) && !s.writer.NoWriter?
    ensures s.boot.Up?
  {
  }

  lemma AllAnswered(c: Codec, s: Sys)
    requires Inv(c, s) && s.writer.NoWriter?
    ensures s.submitted == s.answers.Keys
  {
    assert Waiting(s.writer, s.queue) == [];
  }

  /** No queued request is left behind by the writer hand-off: in every reachable state a request
      without an answer waits exactly once with a live writer, and the writer's own steps answer
      every submitted request; with no writer left, all have been answered. */
  lemma EveryRequestAnswered(c: Codec, run: seq<Step>, now: string, io: Io) returns (steps: seq<Step>)
    requires c.Valid() && CanRun(c, START, run)
    ensures var s := RunAll(c, START, run);
      && (s.writer.NoWriter? ==> s.submitted == s.answers.Keys)
      && CanRun(c, s, steps)
      && RunAll(c, s, steps).submitted == s.submitted == RunAll(c, s, steps).answers.Keys
  {
    hide Do, Inv;
    Reachable(c, run);
    var s := RunAll(c, START, run);
    if s.writer.NoWriter? {
      AllAnswered(c, s);
    }
    steps := WriterFinishes(c, s, now, io);
  }

  // ---------------------------------------------------------------- nothing acknowledged is lost

  /** A put leaves the replayed map only through a done or a forget line of its id. */
  lemma {:induction false} PutSurvives(c: Codec, ix: Index, es: seq<Entry>, offset: nat, id: string)
    requires id !in ix.forgotten
    requires id in ix.pending.at || exists e :: e in es && e.Put? && e.turn.id == id
    ensures id in Replay(c, ix, es, offset).pending.at || Done(id) in es || Forget(id) in es
    decreases |es|
  {
    if es != [] {
      assert es == [es[0]] + es[1..];
      var next := Apply(ix, es[0], offset, |c.Line(es[0])|);
      if es[0] != Done(id) && es[0] != Forget(id) {
        assert id !in next.forgotten;
        assert es[0].Put? && es[0].turn.id == id ==> id in next.pending.at;
        assert id in ix.pending.at ==> id in next.pending.at;
        PutSurvives(c, next, es[1..], offset + |c.Line(es[0])|, id);
      }
    }
  }

  /** In every reachable state, also after crashes and failed rollbacks, each acknowledged turn
      is still pending, or some write of its id has succeeded, or its forget was asked for. */
  lemma NothingLost(c: Codec, run: seq<Step>, t: Turn, q: Option<string>)
    requires c.Valid() && CanRun(c, START, run)
    requires Put(t, q) in RunAll(c, START, run).log.acked
    ensures var s := RunAll(c, START, run);
      || t.id in Maps(c, s).pending.at
      || t.id in s.asked
      || exists w :: w in s.written && w.id == t.id
  {
    Reachable(c, run);
    var s := RunAll(c, START, run);
    LoggedSurvives(c, s, t, q);
  }

  lemma LoggedSurvives(c: Codec, s: Sys, t: Turn, q: Option<string>)
    requires Inv(c, s) && Put(t, q) in s.log.acked
    ensures t.id in Maps(c, s).pending.at || t.id in s.asked || exists w :: w in s.written && w.id == t.id
  {
    hide Replay, InvDrain, InvForget, InvOffsets, InvWriter, WholeLines, Half, Filed;
    var es := if s.boot.Up? then s.log.acked else OnDisk(c, s.log);
    assert Put(t, q) in es;
    PutSurvives(c, Fresh(s.seeds), es, 0, t.id);
    if Done(t.id) in es {
      assert Justified(Done(t.id), s.written, s.asked);
    }
    if Forget(t.id) in es {
      assert Justified(Forget(t.id), s.written, s.asked);
    }
  }

  /** Acknowledged lines stay acknowledged, over every step and every crash. */
  lemma {:induction false} LogGrows(c: Codec, s: Sys, steps: seq<Step>)
    requires c.Valid() && Inv(c, s) && CanRun(c, s, steps)
    ensures s.log.acked <= RunAll(c, s, steps).log.acked
    decreases |steps|
  {
    hide Do, Inv, Enabled;
    if steps != [] {
      LogStep(c, s, steps[0]);
      StepKeeps(c, s, steps[0]);
      LogGrows(c, Do(c, s, steps[0]), steps[1..]);
    }
  }

  lemma LogStep(c: Codec, s: Sys, step: Step)
    requires c.Valid() && Inv(c, s) && Enabled(c, s, step)
    ensures s.log.acked <= Do(c, s, step).log.acked
  {
    hide Inv, Do;
    if step.Crash? {
      CrashKeeps(c, s, step.op, step.cut);
    } else if step.Attempted? {
      TryKeeps(c, s, step.attempt);
    } else if step.StartDies? {
      DownIs(c, s, step);
    } else if step.Capture? || step.WriterFlush? || step.ForgetErase? || step.DrainFinish? {
      SerialIs(c, s, step);
      PerformGrows(c, s, OpOf(s, step), IoOf(step));
    } else {
      LogStays(c, s, step);
    }
  }

  lemma PerformGrows(c: Codec, s: Sys, op: Op, io: Io)
    ensures s.log.acked <= Perform(c, s, op, io).0.log.acked
  {
    hide Plan, Effect;
  }
}
