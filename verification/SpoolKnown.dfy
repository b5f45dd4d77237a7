/** What a capture candidate is told about its id (src/capture/source-turn-spool.ts:55-91). */
module SpoolKnown {
  import opened OrderedMap
  import opened SpoolJournal
  import opened SpoolOps
  import opened SpoolStartup
  import opened SpoolProtocol
  import opened SpoolSteps
  import opened SpoolSafety
  import opened SpoolTheorems

  /** The id a journal line is about. */
  function IdOf(e: Entry): string {
    match e case Put(turn, _) => turn.id case Done(id) => id case Forget(id) => id case Extracted(id, _) => id
  }

  ghost predicate Named(es: seq<Entry>, id: string) {
    exists e :: e in es && IdOf(e) == id
  }

  lemma {:induction false} ReplayKnown(c: Codec, ix: Index, es: seq<Entry>, offset: nat, id: string)
    requires Coherent(ix)
    ensures id in Replay(c, ix, es, offset).known <==> id in ix.known || Named(es, id)
    decreases |es|
  {
    hide Apply, Coherent, Named, IdOf;
    if es == [] {
      NoneNamed(id);
    } else {
      var length := |c.Line(es[0])|;
      ApplyCoherent(ix, es[0], offset, length);
      ApplyKnown(ix, es[0], offset, length, id);
      ReplayKnown(c, Apply(ix, es[0], offset, length), es[1..], offset + length, id);
      NamedFirst(es, id);
    }
  }

  lemma NoneNamed(id: string)
    ensures !Named([], id)
  {
  }

  lemma NamedFirst(es: seq<Entry>, id: string)
    requires es != []
    ensures Named(es, id) <==> IdOf(es[0]) == id || Named(es[1..], id)
  {
    assert es == [es[0]] + es[1..];
    if IdOf(es[0]) == id {
      assert es[0] in es;
    }
    if Named(es[1..], id) {
      var e :| e in es[1..] && IdOf(e) == id;
      assert e in es;
    }
  }

  /** A line makes its id known, and no other; a put of a tombstoned id is known by its tombstone. */
  lemma ApplyKnown(ix: Index, e: Entry, offset: nat, length: nat, id: string)
    requires Coherent(ix)
    ensures id in Apply(ix, e, offset, length).known <==> id in ix.known || IdOf(e) == id
    ensures id in Apply(ix, e, offset, length).forgotten <==> id in ix.forgotten || e == Forget(id)
  {
  }

  // ---------------------------------------------------------------- the seeded snapshot

  /** The snapshot taken first since the process started, if one was taken. */
  function Snapshot(taken: Option<set<string>>, steps: seq<Step>): Option<set<string>>
    decreases |steps|
  {
    if steps == [] then taken else Snapshot(Next(taken, steps[0]), steps[1..])
  }

  function Next(taken: Option<set<string>>, step: Step): Option<set<string>> {
    match step
    case Seed(rows) => if taken.Some? then taken else Some(rows)
    case Crash(_, _) => None
    case _ => taken
  }

  /** The process remembers exactly that snapshot. */
  predicate Remembers(s: Sys, taken: Option<set<string>>) {
    s.seeded == taken.Some? && s.seeds == if taken.Some? then taken.value else {}
  }

  lemma SeedStep(c: Codec, s: Sys, step: Step, taken: Option<set<string>>)
    requires Inv(c, s) && Enabled(c, s, step) && Remembers(s, taken)
    ensures Remembers(Do(c, s, step), Next(taken, step))
  {
    hide Do;
    if OfPass(step) {
      PassFrame(c, s, step);
    } else if OfWriter(step) {
      WriterFrame(c, s, step);
    } else if OfForget(step) {
      ForgetFrame(c, s, step);
    } else if step.Crash? || step.Attempted? || step.StartDies? {
      DownSeeds(c, s, step);
    } else {
      OtherSeeds(c, s, step, taken);
    }
  }

  lemma DownSeeds(c: Codec, s: Sys, step: Step)
    requires Inv(c, s) && Enabled(c, s, step) && (step.Crash? || step.Attempted? || step.StartDies?)
    ensures var s' := Do(c, s, step);
      if step.Crash? then !s'.seeded && s'.seeds == {} else s'.seeded == s.seeded && s'.seeds == s.seeds
  {
    DownIs(c, s, step);
    hide Do, StartUp, Plan, CrashLog, OnDisk, LinesRead, InvDrain, InvForget, InvOffsets, InvHistory, InvWriter, Agrees, Starting;
  }

  lemma OtherSeeds(c: Codec, s: Sys, step: Step, taken: Option<set<string>>)
    requires Enabled(c, s, step) && (step.Capture? || step.Seed?) && Remembers(s, taken)
    ensures Remembers(Do(c, s, step), Next(taken, step))
  {
    hide DoPass, DoWriter, DoForget, Crashed, Try, Execute, NextLog;
  }

  lemma {:induction false} RunSeeds(c: Codec, s: Sys, steps: seq<Step>, taken: Option<set<string>>)
    requires c.Valid() && Inv(c, s) && CanRun(c, s, steps) && Remembers(s, taken)
    ensures Remembers(RunAll(c, s, steps), Snapshot(taken, steps))
    decreases |steps|
  {
    hide Do, Inv, Enabled, Remembers;
    if steps != [] {
      SeedStep(c, s, steps[0], taken);
      StepKeeps(c, s, steps[0]);
      RunSeeds(c, Do(c, s, steps[0]), steps[1..], Next(taken, steps[0]));
    }
  }

  // ---------------------------------------------------------------- seenCandidates

  datatype Seen = Seen(known: bool, extracted: bool, forgotten: bool)

  /** What seenCandidates says of one turn. */
  function SeenTurn(s: Sys, t: Turn): Seen {
    var ix := s.spool.ix;
    Seen(!s.seeded || t.id in ix.known,
         t.id !in ix.forgotten && t.id in ix.extracted && ix.extracted[t.id].userId == t.userId
         && ix.extracted[t.id].hmac == t.hmac && ix.extracted[t.id].keyFingerprint == t.keyFingerprint,
         t.id in ix.forgotten)
  }

  predicate MarkedFor(m: Option<Marker>, t: Turn) {
    m.Some? && m.value.userId == t.userId && m.value.hmac == t.hmac && m.value.keyFingerprint == t.keyFingerprint
  }

  /** Over every run of a started process: an id is called unknown exactly when the snapshot was taken, does
      not have it, and no acknowledged journal line is about it; it is called forgotten exactly when it has a
      tombstone there; and the turn is called extracted exactly without one and when the last line that marks
      the id has the turn's user, hmac and key. */
  lemma UnknownIsNew(c: Codec, run: seq<Step>, t: Turn)
    requires c.Valid() && CanRun(c, START, run) && RunAll(c, START, run).boot.Up?
    ensures var s, taken := RunAll(c, START, run), Snapshot(None, run);
      && (!SeenTurn(s, t).known <==> taken.Some? && t.id !in taken.value && !Named(s.log.acked, t.id))
      && (SeenTurn(s, t).forgotten <==> Forget(t.id) in s.log.acked)
      && (SeenTurn(s, t).extracted <==> Forget(t.id) !in s.log.acked && MarkedFor(LastMarker(s.log.acked, t.id), t))
  {
    hide Do, CanRun, Inv, Named, LastMarker;
    StartInv(c);
    Reachable(c, run);
    RunSeeds(c, START, run, None);
    var s := RunAll(c, START, run);
    KnownIs(c, s, t.id);
  }

  /** The marker in the last line that marks the id. */
  function LastMarker(es: seq<Entry>, id: string): Option<Marker> {
    if es == [] then None
    else
      var later := LastMarker(es[1..], id);
      if later.Some? then later
      else match es[0] case Extracted(x, m) => (if x == id then Some(m) else None) case _ => None
  }

  lemma {:induction false} ReplayMarker(c: Codec, ix: Index, es: seq<Entry>, offset: nat, id: string)
    requires Coherent(ix) && id !in Replay(c, ix, es, offset).forgotten
    ensures var r := Replay(c, ix, es, offset);
      if LastMarker(es, id).Some? then id in r.extracted && r.extracted[id] == LastMarker(es, id).value
      else SameMarker(r, ix, id)
    decreases |es|
  {
    hide Apply, Coherent;
    if es != [] {
      var length := |c.Line(es[0])|;
      var next := Apply(ix, es[0], offset, length);
      ApplyCoherent(ix, es[0], offset, length);
      ReplayForgotten(c, next, es[1..], offset + length, id);
      ApplyMarker(ix, es[0], offset, length, id);
      ReplayMarker(c, next, es[1..], offset + length, id);
    }
  }

  predicate SameMarker(a: Index, b: Index, id: string) {
    (id in a.extracted <==> id in b.extracted) && (id in a.extracted ==> a.extracted[id] == b.extracted[id])
  }

  lemma ApplyMarker(ix: Index, e: Entry, offset: nat, length: nat, id: string)
    requires id !in Apply(ix, e, offset, length).forgotten
    ensures var r := Apply(ix, e, offset, length);
      if e.Extracted? && e.id == id then id in r.extracted && r.extracted[id] == e.marker else SameMarker(r, ix, id)
  {
  }

  lemma KnownIs(c: Codec, s: Sys, id: string)
    requires Inv(c, s) && s.boot.Up?
    ensures id in s.spool.ix.known <==> id in s.seeds || Named(s.log.acked, id)
    ensures id in s.spool.ix.forgotten <==> Forget(id) in s.log.acked
    ensures id !in s.spool.ix.forgotten ==>
      (id in s.spool.ix.extracted <==> LastMarker(s.log.acked, id).Some?)
      && (id in s.spool.ix.extracted ==> LastMarker(s.log.acked, id) == Some(s.spool.ix.extracted[id]))
  {
    hide InvDrain, InvForget, InvOffsets, InvHistory, InvWriter, Replay, Named, Filed, LastMarker;
    ReplayKnown(c, Fresh(s.seeds), s.log.acked, 0, id);
    ReplayForgotten(c, Fresh(s.seeds), s.log.acked, 0, id);
    if id !in s.spool.ix.forgotten {
      ReplayMarker(c, Fresh(s.seeds), s.log.acked, 0, id);
    }
  }

  lemma {:induction false} ReplayForgotten(c: Codec, ix: Index, es: seq<Entry>, offset: nat, id: string)
    requires Coherent(ix)
    ensures id in Replay(c, ix, es, offset).forgotten <==> id in ix.forgotten || Forget(id) in es
    decreases |es|
  {
    hide Apply, Coherent;
    if es != [] {
      var length := |c.Line(es[0])|;
      ApplyCoherent(ix, es[0], offset, length);
      ApplyKnown(ix, es[0], offset, length, id);
      ReplayForgotten(c, Apply(ix, es[0], offset, length), es[1..], offset + length, id);
      assert es == [es[0]] + es[1..];
    }
  }
}
