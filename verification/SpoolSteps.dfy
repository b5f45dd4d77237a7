/** What each kind of step changes and what it leaves alone. */
module SpoolSteps {
  import opened OrderedMap
  import opened SpoolJournal
  import opened SpoolOps
  import opened SpoolStartup
  import opened SpoolProtocol
  import opened SpoolSafety

  /** The operation of a step that appends. */
  function OpOf(s: Sys, step: Step): Op
    requires step.Capture? || (step.WriterFlush? && s.writer.Flushing?) || (step.ForgetErase? && step.fid in s.forgets)
          || (step.DrainFinish? && s.drain.Finishing?)
  {
    match step
    case Capture(op, _) => op
    case WriterFlush(now, _) => Flush(TurnsOf(s.writer.batch), now)
    case ForgetErase(fid, _) => Erase(s.forgets[fid].ids)
    case _ => Complete(Ids(s.drain.pass.done))
  }

  function IoOf(step: Step): Io {
    match step
    case Capture(_, io) => io
    case WriterFlush(_, io) => io
    case ForgetErase(_, io) => io
    case DrainFinish(io) => io
    case _ => OpenFails
  }

  lemma SerialIs(c: Codec, s: Sys, step: Step)
    requires Enabled(c, s, step) && (step.Capture? || step.WriterFlush? || step.ForgetErase? || step.DrainFinish?)
    ensures s.boot.Up? && (OpOf(s, step).Complete? ==> step.DrainFinish?)
    ensures var s' := Do(c, s, step);
      s'.log == Perform(c, s, OpOf(s, step), IoOf(step)).0.log && s'.written == s.written && s'.asked == s.asked
  {
    hide Execute, NextLog, Crashed, Try, Answers, Verdicts;
  }

  lemma SerialDrain(c: Codec, s: Sys, step: Step)
    requires Enabled(c, s, step) && (step.Capture? || step.WriterFlush? || step.ForgetErase?)
    ensures Do(c, s, step).drain == s.drain
  {
    hide Execute, NextLog, Verdicts, Answers;
  }

  lemma DownIs(c: Codec, s: Sys, step: Step)
    requires Enabled(c, s, step) && (step.Crash? || step.Attempted? || step.StartDies?)
    ensures step.Crash? ==> Do(c, s, step) == Crashed(c, s, step.op, step.cut)
    ensures step.Attempted? ==> s.boot.Down? && Do(c, s, step) == Try(c, s, step.attempt)
    ensures step.StartDies? ==> Do(c, s, step) == s.(spool := Spool(s.spool.file, Fresh({}), false), boot := Down(0))
  {
    hide Crashed, Try;
  }

  /** A crash and a start change none of the recorded history. */
  lemma DownFrame(c: Codec, s: Sys, step: Step)
    requires Enabled(c, s, step) && (step.Crash? || step.Attempted? || step.StartDies?)
    ensures var s' := Do(c, s, step);
      s'.final == s.final && s'.written == s.written && s'.asked == s.asked && s'.answers == s.answers
  {
    DownIs(c, s, step);
    hide Do, StartUp, Plan, OnDisk, InOrder, LinesRead;
  }

  lemma StartStep(c: Codec, s0: Sys, maxTurns: int)
    requires s0.boot.Up? && s0.drain.Idle?
    ensures var s1 := Do(c, s0, DrainStart(maxTurns)); var ix := s0.spool.ix;
      s1.spool == s0.spool && s1.boot == s0.boot && s1.drain == Loop(Pass(Window(ix.pending.keys, ix.pending.at), 0, 0, maxTurns, [], []))
  {
    hide Window;
  }

  lemma StartRest(c: Codec, s: Sys, maxTurns: int)
    requires s.boot.Up? && s.drain.Idle?
    ensures var s' := Do(c, s, DrainStart(maxTurns));
      s'.log == s.log && s'.written == s.written && s'.asked == s.asked
  {
  }

  lemma WroteStep(c: Codec, s: Sys, ok: bool)
    requires s.boot.Up? && s.drain.Writing?
    ensures var d, s' := s.drain, Do(c, s, DrainWrote(ok)); var w := Wrote(d.item.id, d.turn.hmac);
      && s'.spool == s.spool && s'.boot == s.boot
      && s'.drain == Loop(Hold(d.pass, d.item.id, d.token).(done := if ok then d.pass.done + [w] else d.pass.done))
  {
  }

  lemma WroteRest(c: Codec, s: Sys, ok: bool)
    requires s.boot.Up? && s.drain.Writing?
    ensures var s' := Do(c, s, DrainWrote(ok)); var w := Wrote(s.drain.item.id, s.drain.turn.hmac);
      && s'.log == s.log && s'.asked == s.asked && s'.written == (if ok then s.written + {w} else s.written)
  {
    hide Hold;
  }

  lemma ReadRest(c: Codec, s: Sys, opens: bool)
    requires Enabled(c, s, DrainRead(opens))
    ensures var s' := Do(c, s, DrainRead(opens)); s'.log == s.log && s'.written == s.written && s'.asked == s.asked
  {
    hide ReadTurn, Hold;
  }

  lemma ReleaseRest(c: Codec, s: Sys)
    requires Enabled(c, s, DrainRelease)
    ensures var s' := Do(c, s, DrainRelease); s'.log == s.log && s'.written == s.written && s'.asked == s.asked
  {
    hide HeldTokens, HeldIds;
  }

  // Which fields the steps of each part can change.

  lemma PassFrame(c: Codec, s: Sys, step: Step)
    requires Enabled(c, s, step) && OfPass(step)
    ensures var s' := Do(c, s, step);
      s' == s.(spool := s'.spool, log := s'.log, drain := s'.drain, inFlight := s'.inFlight, nextToken := s'.nextToken,
               released := s'.released, written := s'.written)
  {
    hide Do;
    if step.DrainNext? {
      hide PassEnds;
      NextPass(c, s);
    } else if step.DrainFinish? {
      FinishFrame(c, s, step);
    } else {
      BodyFrame(c, s, step);
    }
  }

  lemma FinishFrame(c: Codec, s: Sys, step: Step)
    requires Enabled(c, s, step) && step.DrainFinish?
    ensures var s' := Do(c, s, step); s' == s.(spool := s'.spool, log := s'.log, drain := s'.drain)
  {
    hide DoWriter, DoForget, Crashed, Try, Execute, NextLog;
  }

  lemma BodyFrame(c: Codec, s: Sys, step: Step)
    requires Enabled(c, s, step) && OfPass(step) && !step.DrainNext? && !step.DrainFinish?
    ensures var s' := Do(c, s, step);
      s' == s.(drain := s'.drain, inFlight := s'.inFlight, released := s'.released, written := s'.written)
  {
    hide DoWriter, DoForget, Crashed, Try, Perform, ReadTurn, Hold, PassEnds, Window, HeldTokens, HeldIds;
  }

  lemma WriterFrame(c: Codec, s: Sys, step: Step)
    requires Enabled(c, s, step) && OfWriter(step)
    ensures var s' := Do(c, s, step);
      s' == s.(spool := s'.spool, log := s'.log, queue := s'.queue, writer := s'.writer, nextGen := s'.nextGen,
               answers := s'.answers, submitted := s'.submitted)
    ensures !step.WriterFlush? ==> Do(c, s, step).answers == s.answers
  {
    hide DoPass, DoForget, Crashed, Try, Execute, NextLog, Answers, Verdicts, TurnsOf;
  }

  lemma ForgetFrame(c: Codec, s: Sys, step: Step)
    requires Enabled(c, s, step) && OfForget(step)
    ensures var s' := Do(c, s, step);
      s' == s.(spool := s'.spool, log := s'.log, forgets := s'.forgets, asked := s'.asked, final := s'.final)
  {
    hide DoPass, DoWriter, Crashed, Try, Execute, NextLog, TokensOf;
  }

  lemma OtherFrame(c: Codec, s: Sys, step: Step)
    requires Enabled(c, s, step) && (step.Capture? || step.Seed?)
    ensures var s' := Do(c, s, step);
      s' == s.(spool := s'.spool, log := s'.log, seeded := s'.seeded, seeds := s'.seeds)
  {
    hide DoPass, DoWriter, DoForget, Crashed, Try, Execute, NextLog;
  }

  lemma PassLog(c: Codec, s: Sys, step: Step)
    requires Enabled(c, s, step) && OfPass(step) && !step.DrainFinish?
    ensures var s' := Do(c, s, step); s'.log == s.log && s.written <= s'.written && s'.asked == s.asked
  {
    hide Do, PassEnds;
    match step
    case DrainStart(n) => StartRest(c, s, n);
    case DrainNext => NextPass(c, s);
    case DrainRead(opens) => ReadRest(c, s, opens);
    case DrainWrote(ok) => WroteRest(c, s, ok);
    case DrainRelease => ReleaseRest(c, s);
  }

  lemma WriterLog(c: Codec, s: Sys, step: Step)
    requires Enabled(c, s, step) && OfWriter(step) && !step.WriterFlush?
    ensures var s' := Do(c, s, step); s'.log == s.log && s'.written == s.written && s'.asked == s.asked
  {
    hide DoPass, DoForget, Crashed, Try, Perform, Answers, Verdicts, TurnsOf;
  }

  lemma ForgetLog(c: Codec, s: Sys, step: Step)
    requires Enabled(c, s, step) && OfForget(step) && !step.ForgetErase?
    ensures var s' := Do(c, s, step); s'.log == s.log && s'.written == s.written && s.asked <= s'.asked
  {
    hide DoPass, DoWriter, Crashed, Try, Perform;
  }

  lemma SeedLog(c: Codec, s: Sys, rows: set<string>)
    requires Enabled(c, s, Seed(rows))
    ensures var s' := Do(c, s, Seed(rows)); s'.log == s.log && s'.written == s.written && s'.asked == s.asked
  {
    hide DoPass, DoWriter, DoForget, Crashed, Try, Perform;
  }

  lemma LogStays(c: Codec, s: Sys, step: Step)
    requires Enabled(c, s, step) && s.boot.Up? && !step.Crash?
    requires !step.Capture? && !step.WriterFlush? && !step.ForgetErase? && !step.DrainFinish?
    ensures var s' := Do(c, s, step); s'.log == s.log && s.written <= s'.written && s.asked <= s'.asked
  {
    hide Do;
    if OfPass(step) {
      PassLog(c, s, step);
    } else if OfWriter(step) {
      WriterLog(c, s, step);
    } else if OfForget(step) {
      ForgetLog(c, s, step);
    } else {
      SeedLog(c, s, step.rows);
    }
  }
}
