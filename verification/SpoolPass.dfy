/** How much of its window a drain pass attempts, whatever interleaves with it
    (src/capture/source-turn-spool.ts:348-358). */
module SpoolPass {
  import opened OrderedMap
  import opened SpoolJournal
  import opened SpoolOps
  import opened SpoolProtocol
  import opened SpoolSafety
  import opened SpoolSteps
  import opened SpoolRace

  /** What prepareSourceTurn lets a body have at most. */
  const MAX_BODY: int := 256 * 1024

  ghost predicate Bounded(window: seq<Item>) {
    forall x :: x in window ==> x.entry.bytes <= MAX_BODY
  }

  /** The bytes of the first `n` entries. */
  function BytesOf(window: seq<Item>, n: nat): nat
    requires n <= |window|
  {
    if n == 0 then 0 else BytesOf(window, n - 1) + window[n - 1].entry.bytes
  }

  lemma {:induction false} BytesAtMost(window: seq<Item>, n: nat)
    requires n <= |window| && Bounded(window)
    ensures BytesOf(window, n) <= n * MAX_BODY
  {
    if n > 0 {
      assert window[n - 1] in window;
      BytesAtMost(window, n - 1);
    }
  }

  /** A pass has taken the first `processed` entries off its window, and their bytes. */
  ghost predicate Taken(window: seq<Item>, maxTurns: int, p: Pass) {
    && p.processed <= |window| && p.rest == window[p.processed..] && p.maxTurns == maxTurns
    && p.bytes == BytesOf(window, p.processed)
    && (p.processed == 0 || (p.processed <= maxTurns && p.processed <= 1000 && p.bytes <= 64 * 1024 * 1024))
  }

  ghost predicate Counts(window: seq<Item>, maxTurns: int, d: Drain) {
    && !d.Idle? && !d.Releasing? && Taken(window, maxTurns, d.pass)
    && (d.Finishing? ==> PassEnds(d.pass))
  }

  lemma TakenNext(window: seq<Item>, maxTurns: int, p: Pass)
    requires Taken(window, maxTurns, p) && !PassEnds(p)
    ensures Taken(window, maxTurns, p.(rest := p.rest[1..], processed := p.processed + 1, bytes := p.bytes + p.rest[0].entry.bytes))
  {
    assert window[p.processed] == p.rest[0] && p.rest[0] in window;
    assert p.rest[1..] == window[p.processed + 1..];
  }

  lemma ReadLeaves(c: Codec, s: Sys, opens: bool)
    requires s.boot.Up? && s.drain.Reading?
    ensures var d, d' := s.drain, Do(c, s, DrainRead(opens)).drain;
      d' == Loop(Hold(d.pass, d.item.id, d.token)) || (d'.Writing? && d' == Writing(d.pass, d.item, d.token, d'.turn))
  {
    hide ReadTurn, Hold;
  }

  lemma BodyCounts(c: Codec, s: Sys, step: Step, window: seq<Item>, maxTurns: int)
    requires Enabled(c, s, step) && (step.DrainRead? || step.DrainWrote?) && Counts(window, maxTurns, s.drain)
    ensures Counts(window, maxTurns, Do(c, s, step).drain)
  {
    hide Do, Taken;
    var d := s.drain;
    var p := Hold(d.pass, d.item.id, d.token);
    TakenSame(window, maxTurns, d.pass, p);
    if step.DrainRead? {
      ReadLeaves(c, s, step.opens);
    } else {
      WroteStep(c, s, step.ok);
      TakenSame(window, maxTurns, d.pass, p.(done := d.pass.done + [Wrote(d.item.id, d.turn.hmac)]));
      TakenSame(window, maxTurns, d.pass, p.(done := d.pass.done));
    }
  }

  lemma TakenSame(window: seq<Item>, maxTurns: int, p: Pass, p': Pass)
    requires Taken(window, maxTurns, p) && p'.rest == p.rest && p'.processed == p.processed
    requires p'.bytes == p.bytes && p'.maxTurns == p.maxTurns
    ensures Taken(window, maxTurns, p')
  {
  }

  lemma CountsStep(c: Codec, s: Sys, step: Step, window: seq<Item>, maxTurns: int)
    requires Enabled(c, s, step) && InsidePass([step]) && Counts(window, maxTurns, s.drain)
    ensures Counts(window, maxTurns, Do(c, s, step).drain)
  {
    hide Do, Taken, PassEnds;
    if step.Capture? || step.WriterFlush? || step.ForgetErase? {
      SerialDrain(c, s, step);
    } else if step.DrainNext? {
      NextPass(c, s);
      if !PassEnds(s.drain.pass) {
        TakenNext(window, maxTurns, s.drain.pass);
      }
    } else if step.DrainRead? || step.DrainWrote? {
      BodyCounts(c, s, step, window, maxTurns);
    } else {
      OtherStep(c, s, step);
    }
  }

  lemma {:induction false} CountsRun(c: Codec, s: Sys, steps: seq<Step>, window: seq<Item>, maxTurns: int)
    requires CanRun(c, s, steps) && InsidePass(steps) && Counts(window, maxTurns, s.drain)
    ensures Counts(window, maxTurns, RunAll(c, s, steps).drain)
    decreases |steps|
  {
    hide Do, Counts, Enabled;
    if steps != [] {
      assert steps[0] in steps && InsidePass([steps[0]]) && InsidePass(steps[1..]);
      CountsStep(c, s, steps[0], window, maxTurns);
      CountsRun(c, Do(c, s, steps[0]), steps[1..], window, maxTurns);
    }
  }

  function Least(a: int, b: int): int {
    if a < b then a else b
  }

  /** A window lists the pending entries in the order of the map. */
  lemma {:induction false} WindowIs(keys: seq<string>, at: map<string, Pending>)
    requires forall k :: k in keys ==> k in at
    ensures |Window(keys, at)| == |keys|
    ensures forall i :: 0 <= i < |keys| ==> Window(keys, at)[i] == Item(keys[i], at[keys[i]])
    decreases |keys|
  {
    if keys != [] {
      assert keys == [keys[0]] + keys[1..];
      WindowIs(keys[1..], at);
    }
  }

  /** Whatever captures, appends, forgets, failing reads and failing writes interleave with it: a
      pass that comes to its end has attempted the first entries of the map at its start, in
      order, never beyond its turn limit, 1000 entries or 64 MiB, and it stopped because there are
      no more or because the next one would go beyond. */
  lemma PassAttempts(c: Codec, before: seq<Step>, maxTurns: int, inside: seq<Step>)
    requires c.Valid() && CanRun(c, START, before)
    requires var s0 := RunAll(c, START, before);
      && s0.boot.Up? && s0.drain.Idle?
      && CanRun(c, Do(c, s0, DrainStart(maxTurns)), inside) && InsidePass(inside)
      && RunAll(c, Do(c, s0, DrainStart(maxTurns)), inside).drain.Finishing?
    ensures var s0 := RunAll(c, START, before); var pending := s0.spool.ix.pending;
      var p := RunAll(c, Do(c, s0, DrainStart(maxTurns)), inside).drain.pass;
      && pending.Valid() && p.processed + |p.rest| == |pending.keys|
      && (forall i :: 0 <= i < |p.rest| ==>
            p.rest[i] == Item(pending.keys[p.processed + i], pending.at[pending.keys[p.processed + i]]))
      && (p.processed > 0 ==> p.processed <= maxTurns && p.processed <= 1000 && SizeOf(pending, p.processed) <= 64 * 1024 * 1024)
      && (p.rest == [] || p.processed >= maxTurns || p.processed >= 1000 || SizeOf(pending, p.processed + 1) > 64 * 1024 * 1024)
      && ((forall id :: id in pending.at ==> pending.at[id].bytes <= MAX_BODY) ==>
            p.processed >= Least(Least(|pending.keys|, maxTurns), 256))
  {
    hide Do, Window, Inv, Taken, PassEnds, SizeOf, Agrees;
    var s0 := RunAll(c, START, before);
    Reachable(c, before);
    InvAgrees(c, s0);
    AgreesCoherent(c, s0.spool, s0.log, s0.seeds);
    var pending := s0.spool.ix.pending;
    WindowIs(pending.keys, pending.at);
    PassCounts(c, s0, maxTurns, inside);
    EndOfPass(pending, Window(pending.keys, pending.at), maxTurns, RunAll(c, Do(c, s0, DrainStart(maxTurns)), inside).drain.pass);
  }

  lemma PassCounts(c: Codec, s0: Sys, maxTurns: int, inside: seq<Step>)
    requires s0.boot.Up? && s0.drain.Idle?
    requires CanRun(c, Do(c, s0, DrainStart(maxTurns)), inside) && InsidePass(inside)
    requires RunAll(c, Do(c, s0, DrainStart(maxTurns)), inside).drain.Finishing?
    ensures var window := Window(s0.spool.ix.pending.keys, s0.spool.ix.pending.at);
      var p := RunAll(c, Do(c, s0, DrainStart(maxTurns)), inside).drain.pass;
      Taken(window, maxTurns, p) && PassEnds(p)
  {
    hide Do, Window, PassEnds;
    var window := Window(s0.spool.ix.pending.keys, s0.spool.ix.pending.at);
    StartStep(c, s0, maxTurns);
    assert window[0..] == window;
    CountsRun(c, Do(c, s0, DrainStart(maxTurns)), inside, window, maxTurns);
  }

  /** The bytes of the first `n` pending entries. */
  function SizeOf(pending: OMap<string, Pending>, n: nat): nat {
    if n == 0 || n > |pending.keys| then 0
    else SizeOf(pending, n - 1) + if pending.keys[n - 1] in pending.at then pending.at[pending.keys[n - 1]].bytes else 0
  }

  lemma {:induction false} SizeIs(pending: OMap<string, Pending>, window: seq<Item>, n: nat)
    requires n <= |window| == |pending.keys| && pending.Valid()
    requires forall i :: 0 <= i < |window| ==> window[i] == Item(pending.keys[i], pending.at[pending.keys[i]])
    ensures SizeOf(pending, n) == BytesOf(window, n)
  {
    if n > 0 {
      assert pending.keys[n - 1] in pending.keys;
      SizeIs(pending, window, n - 1);
    }
  }

  lemma EndOfPass(pending: OMap<string, Pending>, window: seq<Item>, maxTurns: int, p: Pass)
    requires |window| == |pending.keys| && pending.Valid()
    requires forall i :: 0 <= i < |window| ==> window[i] == Item(pending.keys[i], pending.at[pending.keys[i]])
    requires Taken(window, maxTurns, p) && PassEnds(p)
    ensures p.processed + |p.rest| == |pending.keys|
    ensures forall i :: 0 <= i < |p.rest| ==>
      p.rest[i] == Item(pending.keys[p.processed + i], pending.at[pending.keys[p.processed + i]])
    ensures p.processed > 0 ==> p.processed <= maxTurns && p.processed <= 1000 && SizeOf(pending, p.processed) <= 64 * 1024 * 1024
    ensures p.rest == [] || p.processed >= maxTurns || p.processed >= 1000 || SizeOf(pending, p.processed + 1) > 64 * 1024 * 1024
    ensures (forall id :: id in pending.at ==> pending.at[id].bytes <= MAX_BODY) ==>
      p.processed >= Least(Least(|pending.keys|, maxTurns), 256)
  {
    hide SizeOf, BytesOf, Bounded, Least;
    SizeIs(pending, window, p.processed);
    if p.rest != [] {
      assert p.rest[0] == window[p.processed];
      SizeIs(pending, window, p.processed + 1);
      BytesNext(window, p.processed);
    }
    if forall id :: id in pending.at ==> pending.at[id].bytes <= MAX_BODY {
      WindowBounded(pending, window);
      EndBounded(window, maxTurns, p);
    }
  }

  lemma EndBounded(window: seq<Item>, maxTurns: int, p: Pass)
    requires Taken(window, maxTurns, p) && PassEnds(p) && Bounded(window)
    ensures p.processed >= Least(Least(|window|, maxTurns), 256)
  {
    if p.rest != [] {
      assert p.rest[0] == window[p.processed];
      BytesNext(window, p.processed);
      BytesAtMost(window, p.processed + 1);
    }
  }

  lemma BytesNext(window: seq<Item>, n: nat)
    requires n < |window|
    ensures BytesOf(window, n + 1) == BytesOf(window, n) + window[n].entry.bytes
  {
  }

  lemma WindowBounded(pending: OMap<string, Pending>, window: seq<Item>)
    requires |window| == |pending.keys| && pending.Valid()
    requires forall i :: 0 <= i < |window| ==> window[i] == Item(pending.keys[i], pending.at[pending.keys[i]])
    requires forall id :: id in pending.at ==> pending.at[id].bytes <= MAX_BODY
    ensures Bounded(window)
  {
    forall x | x in window
      ensures x.entry.bytes <= MAX_BODY
    {
      var i :| 0 <= i < |window| && window[i] == x;
      assert pending.keys[i] in pending.keys;
    }
  }
}
