/** The serialised operations of the source-turn spool: what each appends to the journal, how it
    then updates the resident maps, and that this update is what a replay of the appended lines
    would have made (src/capture/source-turn-spool.ts). */
module SpoolOps {
  import opened OrderedMap
  import opened SpoolJournal
  import opened SpoolStartup

  // ---------------------------------------------------------------- staging

  /** The hmac a pending or already staged turn of this id has; pending wins. */
  function PriorHmac(ix: Index, staged: OMap<string, Turn>, id: string): Option<Hmac> {
    if id in ix.pending.at then Some(ix.pending.at[id].hmac)
    else if id in staged.at then Some(staged.at[id].hmac)
    else None
  }

  /** commitCapture: a changed hmac replaces, a forgotten id is skipped. */
  function StageCapture(ix: Index, turns: seq<Turn>, staged: OMap<string, Turn>): OMap<string, Turn> {
    if turns == [] then staged
    else
      var t := turns[0];
      var keep := t.id in ix.forgotten || PriorHmac(ix, staged, t.id) == Some(t.hmac);
      StageCapture(ix, turns[1..], if keep then staged else staged.Set(t.id, t))
  }

  /** What the append writer decides about one turn. */
  datatype Verdict = Verdict(accepted: bool, first: bool, conflict: bool)

  function Judge(ix: Index, staged: OMap<string, Turn>, t: Turn): Verdict {
    if t.id in ix.forgotten then Verdict(false, false, false)
    else
      match PriorHmac(ix, staged, t.id)
      case None => Verdict(true, true, false)
      case Some(h) => Verdict(h == t.hmac, false, h != t.hmac)
  }

  function StageOne(ix: Index, staged: OMap<string, Turn>, t: Turn): OMap<string, Turn> {
    if Judge(ix, staged, t).first then staged.Set(t.id, t) else staged
  }

  /** The append writer: a changed hmac is a conflict, never a replacement. */
  function StageAppends(ix: Index, turns: seq<Turn>, staged: OMap<string, Turn>): OMap<string, Turn> {
    if turns == [] then staged
    else StageAppends(ix, turns[1..], StageOne(ix, staged, turns[0]))
  }

  function Verdicts(ix: Index, turns: seq<Turn>, staged: OMap<string, Turn>): (vs: seq<Verdict>)
    ensures |vs| == |turns|
  {
    if turns == [] then []
    else [Judge(ix, staged, turns[0])] + Verdicts(ix, turns[1..], StageOne(ix, staged, turns[0]))
  }

  function Flatten(batch: seq<seq<Turn>>): seq<Turn> {
    if batch == [] then [] else batch[0] + Flatten(batch[1..])
  }

  // ---------------------------------------------------------------- operations

  datatype Op =
    | Commit(turns: seq<Turn>, completed: seq<Turn>, now: string)
    | Mark(turns: seq<Turn>)
    | Flush(batch: seq<seq<Turn>>, now: string)
    | Complete(done: seq<string>)
    | Erase(ids: seq<string>)

  const NOTHING: OMap<string, Turn> := OMap([], map[])

  function MarkerOf(t: Turn): Marker {
    Marker(t.userId, t.sessionId, t.hmac, t.keyFingerprint)
  }

  /** A marker that must be written: absent, or another hmac, user or key. */
  predicate Unmarked(ix: Index, t: Turn) {
    && t.id !in ix.forgotten
    && !(t.id in ix.extracted && ix.extracted[t.id].hmac == t.hmac
         && ix.extracted[t.id].userId == t.userId
         && ix.extracted[t.id].keyFingerprint == t.keyFingerprint)
  }

  function Select(turns: seq<Turn>, p: Turn -> bool): (r: seq<Turn>)
    ensures forall t :: t in r <==> t in turns && p(t)
  {
    if turns == [] then []
    else (if p(turns[0]) then [turns[0]] else []) + Select(turns[1..], p)
  }

  /** The turns an operation puts, and the turns it marks extracted. */
  function Puts(ix: Index, op: Op): seq<Turn> {
    match op
    case Commit(turns, _, _) => Listed(StageCapture(ix, turns, NOTHING))
    case Flush(batch, _) => Listed(StageAppends(ix, Flatten(batch), NOTHING))
    case _ => []
  }

  function Marks(ix: Index, op: Op): seq<Turn> {
    match op
    case Commit(_, completed, _) => Select(completed, (t: Turn) => t.id !in ix.forgotten)
    case Mark(turns) => Select(turns, (t: Turn) => Unmarked(ix, t))
    case _ => []
  }

  function Eligible(ix: Index, done: seq<string>): seq<string> {
    if done == [] then []
    else (if done[0] in ix.pending.at && done[0] !in ix.forgotten then [done[0]] else [])
         + Eligible(ix, done[1..])
  }

  function Listed(m: OMap<string, Turn>): (r: seq<Turn>) {
    ListedFrom(m.keys, m.at)
  }

  function ListedFrom(keys: seq<string>, at: map<string, Turn>): (r: seq<Turn>) {
    if keys == [] then []
    else (if keys[0] in at then [at[keys[0]]] else []) + ListedFrom(keys[1..], at)
  }

  function Now(op: Op): string {
    match op
    case Commit(_, _, now) => now
    case Flush(_, now) => now
    case _ => ""
  }

  function PutEntries(turns: seq<Turn>, now: string): (es: seq<Entry>)
    ensures |es| == |turns|
  {
    if turns == [] then [] else [Put(turns[0], Some(now))] + PutEntries(turns[1..], now)
  }

  function MarkEntries(turns: seq<Turn>): (es: seq<Entry>)
    ensures |es| == |turns|
  {
    if turns == [] then [] else [Extracted(turns[0].id, MarkerOf(turns[0]))] + MarkEntries(turns[1..])
  }

  function DoneEntries(ids: seq<string>): (es: seq<Entry>) {
    if ids == [] then [] else [Done(ids[0])] + DoneEntries(ids[1..])
  }

  function ForgetEntries(ids: seq<string>): (es: seq<Entry>) {
    if ids == [] then [] else [Forget(ids[0])] + ForgetEntries(ids[1..])
  }

  /** The lines an operation appends, in order; an operation without lines does not append. */
  function Plan(ix: Index, op: Op): seq<Entry> {
    match op
    case Complete(done) => DoneEntries(Eligible(ix, done))
    case Erase(ids) => ForgetEntries(ids)
    case _ => PutEntries(Puts(ix, op), Now(op)) + MarkEntries(Marks(ix, op))
  }

  // ---------------------------------------------------------------- memory updates

  function RecordPuts(c: Codec, ix: Index, turns: seq<Turn>, now: string, offset: nat): Index
    decreases |turns|
  {
    if turns == [] then ix
    else
      var t, length := turns[0], |c.Line(Put(turns[0], Some(now)))|;
      RecordPuts(c, ix.(known := ix.known + {t.id},
                        pending := ix.pending.Set(t.id, PendingOf(t, Some(now), offset, length))),
                 turns[1..], now, offset + length)
  }

  function RecordMarks(ix: Index, turns: seq<Turn>): Index
    decreases |turns|
  {
    if turns == [] then ix
    else RecordMarks(ix.(known := ix.known + {turns[0].id},
                         extracted := ix.extracted[turns[0].id := MarkerOf(turns[0])]), turns[1..])
  }

  function RecordDone(ix: Index, ids: seq<string>): Index
    decreases |ids|
  {
    if ids == [] then ix else RecordDone(ix.(pending := ix.pending.Delete(ids[0])), ids[1..])
  }

  function RecordForget(ix: Index, ids: seq<string>): Index
    decreases |ids|
  {
    if ids == [] then ix
    else RecordForget(Index(ix.pending.Delete(ids[0]), ix.known + {ids[0]},
                            ix.forgotten + {ids[0]}, ix.extracted - {ids[0]}), ids[1..])
  }

  /** The maps after the lines of `op` were appended at `offset`. */
  function Effect(c: Codec, ix: Index, op: Op, offset: nat): Index {
    match op
    case Complete(done) => RecordDone(ix, Eligible(ix, done))
    case Erase(ids) => RecordForget(ix, ids)
    case _ => RecordMarks(RecordPuts(c, ix, Puts(ix, op), Now(op), offset), Marks(ix, op))
  }

  // ---------------------------------------------------------------- memory equals replay

  lemma {:induction false} PutsAgree(c: Codec, ix: Index, turns: seq<Turn>, now: string, offset: nat)
    requires forall t :: t in turns ==> t.id !in ix.forgotten
    ensures RecordPuts(c, ix, turns, now, offset) == Replay(c, ix, PutEntries(turns, now), offset)
    ensures RecordPuts(c, ix, turns, now, offset).forgotten == ix.forgotten
    decreases |turns|
  {
    if turns != [] {
      var e := Put(turns[0], Some(now));
      var next := Apply(ix, e, offset, |c.Line(e)|);
      assert PutEntries(turns, now)[0] == e && PutEntries(turns, now)[1..] == PutEntries(turns[1..], now);
      PutsAgree(c, next, turns[1..], now, offset + |c.Line(e)|);
    }
  }

  lemma {:induction false} MarksAgree(c: Codec, ix: Index, turns: seq<Turn>, offset: nat)
    requires forall t :: t in turns ==> t.id !in ix.forgotten
    ensures RecordMarks(ix, turns) == Replay(c, ix, MarkEntries(turns), offset)
    decreases |turns|
  {
    if turns != [] {
      var e := Extracted(turns[0].id, MarkerOf(turns[0]));
      var next := Apply(ix, e, offset, |c.Line(e)|);
      assert MarkEntries(turns)[0] == e && MarkEntries(turns)[1..] == MarkEntries(turns[1..]);
      MarksAgree(c, next, turns[1..], offset + |c.Line(e)|);
    }
  }

  lemma {:induction false} DoneAgree(c: Codec, ix: Index, ids: seq<string>, offset: nat)
    requires forall id :: id in ids ==> id in ix.known
    ensures RecordDone(ix, ids) == Replay(c, ix, DoneEntries(ids), offset)
    decreases |ids|
  {
    if ids != [] {
      var e := Done(ids[0]);
      var next := Apply(ix, e, offset, |c.Line(e)|);
      assert ix.known + {ids[0]} == ix.known;
      assert DoneEntries(ids)[0] == e && DoneEntries(ids)[1..] == DoneEntries(ids[1..]);
      DoneAgree(c, next, ids[1..], offset + |c.Line(e)|);
    }
  }

  lemma {:induction false} ForgetAgree(c: Codec, ix: Index, ids: seq<string>, offset: nat)
    ensures RecordForget(ix, ids) == Replay(c, ix, ForgetEntries(ids), offset)
    decreases |ids|
  {
    if ids != [] {
      var e := Forget(ids[0]);
      var next := Apply(ix, e, offset, |c.Line(e)|);
      assert RecordForget(ix, ids) == RecordForget(next, ids[1..]);
      hide Apply;
      assert ForgetEntries(ids) == [e] + ForgetEntries(ids[1..]);
      ForgetAgree(c, next, ids[1..], offset + |c.Line(e)|);
    }
  }

  lemma {:induction false} ForgetsThem(ix: Index, ids: seq<string>)
    ensures forall id :: id in RecordForget(ix, ids).forgotten <==> id in ix.forgotten || id in ids
    decreases |ids|
  {
    if ids != [] {
      ForgetsThem(Index(ix.pending.Delete(ids[0]), ix.known + {ids[0]},
                        ix.forgotten + {ids[0]}, ix.extracted - {ids[0]}), ids[1..]);
      assert ids == [ids[0]] + ids[1..];
    }
  }

  lemma {:induction false} RecordMarksKeeps(ix: Index, turns: seq<Turn>)
    ensures RecordMarks(ix, turns).forgotten == ix.forgotten
    ensures RecordMarks(ix, turns).pending == ix.pending
    decreases |turns|
  {
    if turns != [] {
      RecordMarksKeeps(ix.(known := ix.known + {turns[0].id},
                           extracted := ix.extracted[turns[0].id := MarkerOf(turns[0])]), turns[1..]);
    }
  }

  /** Staged turns carry their own id and are not forgotten. */
  ghost predicate Stageable(ix: Index, staged: OMap<string, Turn>) {
    && staged.Valid()
    && forall id :: id in staged.at ==> staged.at[id].id == id && id !in ix.forgotten
  }

  lemma {:induction false} StageCaptureStageable(ix: Index, turns: seq<Turn>, staged: OMap<string, Turn>)
    requires Stageable(ix, staged)
    ensures Stageable(ix, StageCapture(ix, turns, staged))
    decreases |turns|
  {
    if turns != [] {
      var t := turns[0];
      staged.SetValid(t.id, t);
      var keep := t.id in ix.forgotten || PriorHmac(ix, staged, t.id) == Some(t.hmac);
      StageCaptureStageable(ix, turns[1..], if keep then staged else staged.Set(t.id, t));
    }
  }

  lemma {:induction false} StageAppendsStageable(ix: Index, turns: seq<Turn>, staged: OMap<string, Turn>)
    requires Stageable(ix, staged)
    ensures Stageable(ix, StageAppends(ix, turns, staged))
    decreases |turns|
  {
    if turns != [] {
      staged.SetValid(turns[0].id, turns[0]);
      StageAppendsStageable(ix, turns[1..], StageOne(ix, staged, turns[0]));
    }
  }

  lemma {:induction false} ListedFromIn(keys: seq<string>, at: map<string, Turn>)
    ensures forall t :: t in ListedFrom(keys, at) ==> exists k :: k in keys && k in at && at[k] == t
    ensures (forall k :: k in keys ==> k in at) ==>
              |ListedFrom(keys, at)| == |keys| && forall i :: 0 <= i < |keys| ==> ListedFrom(keys, at)[i] == at[keys[i]]
    decreases |keys|
  {
    if keys != [] {
      ListedFromIn(keys[1..], at);
      assert keys == [keys[0]] + keys[1..];
      forall t | t in ListedFrom(keys, at)
        ensures exists k :: k in keys && k in at && at[k] == t
      {
        if t in ListedFrom(keys[1..], at) {
          var k :| k in keys[1..] && k in at && at[k] == t;
          assert k in keys;
        } else {
          assert keys[0] in keys;
        }
      }
    }
  }

  lemma PutsNotForgotten(ix: Index, op: Op)
    ensures forall t :: t in Puts(ix, op) ==> t.id !in ix.forgotten
  {
    match op
    case Commit(turns, _, _) =>
      var staged := StageCapture(ix, turns, NOTHING);
      StageCaptureStageable(ix, turns, NOTHING);
      ListedFromIn(staged.keys, staged.at);
    case Flush(batch, _) =>
      var staged := StageAppends(ix, Flatten(batch), NOTHING);
      StageAppendsStageable(ix, Flatten(batch), NOTHING);
      ListedFromIn(staged.keys, staged.at);
    case _ =>
  }

  lemma MarksNotForgotten(ix: Index, op: Op)
    ensures forall t :: t in Marks(ix, op) ==> t.id !in ix.forgotten
  {
  }

  lemma {:induction false} EligiblePending(ix: Index, done: seq<string>)
    ensures forall id :: id in Eligible(ix, done) <==> id in done && id in ix.pending.at && id !in ix.forgotten
    decreases |done|
  {
    if done != [] {
      EligiblePending(ix, done[1..]);
      assert done == [done[0]] + done[1..];
    }
  }

  /** Log and memory agree after every operation: the in-memory update of an operation is
      exactly the replay of the lines it appended. */
  lemma EffectIsReplay(c: Codec, ix: Index, op: Op, offset: nat)
    requires Coherent(ix)
    ensures Effect(c, ix, op, offset) == Replay(c, ix, Plan(ix, op), offset)
  {
    match op
    case Complete(done) =>
      EligiblePending(ix, done);
      DoneAgree(c, ix, Eligible(ix, done), offset);
    case Erase(ids) =>
      ForgetAgree(c, ix, ids, offset);
    case _ =>
      CaptureIsReplay(c, ix, op, offset);
  }

  lemma CaptureIsReplay(c: Codec, ix: Index, op: Op, offset: nat)
    requires !op.Complete? && !op.Erase?
    ensures Effect(c, ix, op, offset) == Replay(c, ix, Plan(ix, op), offset)
  {
      hide Puts, Marks, PutEntries, MarkEntries, RecordPuts, RecordMarks, Replay;
      var puts, marks := Puts(ix, op), Marks(ix, op);
      PutsNotForgotten(ix, op);
      MarksNotForgotten(ix, op);
      PutsAgree(c, ix, puts, Now(op), offset);
      var middle := offset + |c.Bytes(PutEntries(puts, Now(op)))|;
      MarksAgree(c, RecordPuts(c, ix, puts, Now(op), offset), marks, middle);
      ReplayAppend(c, ix, PutEntries(puts, Now(op)), MarkEntries(marks), offset);
  }

  // ---------------------------------------------------------------- appending

  /** What the file system does to one append. */
  datatype Io =
    | OpenFails                                  // nothing reached the file
    | WriteFails(written: nat, truncates: bool)  // write or sync failed; was the rollback good?
    | Synced

  /** The journal file, the resident maps, and whether a rollback ever failed. */
  datatype Spool = Spool(file: seq<byte>, ix: Index, latched: bool)

  function Min(a: nat, b: nat): nat {
    if a < b then a else b
  }

  function AppendBytes(s: Spool, bytes: seq<byte>, io: Io): (r: (Spool, bool)) {
    if s.latched then (s, false)
    else
      match io
      case OpenFails => (s, false)
      case WriteFails(k, true) => (s, false)
      case WriteFails(k, false) => (s.(file := s.file + bytes[..Min(k, |bytes|)], latched := true), false)
      case Synced => (s.(file := s.file + bytes), true)
  }

  /** One operation inside the serial queue; the flag says whether it succeeded. */
  function Execute(c: Codec, s: Spool, op: Op, io: Io): (Spool, bool) {
    var plan := Plan(s.ix, op);
    if plan == [] then (s, true)
    else
      var (s', ok) := AppendBytes(s, c.Bytes(plan), io);
      if ok then (s'.(ix := Effect(c, s.ix, op, |s.file|)), true) else (s', false)
  }

  /** The journal of a run: what is acknowledged, and the one batch of which only a first part
      reached the file. `inOrder` says that start-up listed the pending entries as a replay does. */
  datatype Log = Log(acked: seq<Entry>, failed: seq<Entry>, cut: nat, inOrder: bool)

  ghost predicate Filed(c: Codec, file: seq<byte>, log: Log) {
    log.cut <= |c.Bytes(log.failed)| && file == c.Bytes(log.acked) + c.Bytes(log.failed)[..log.cut]
  }

  /** Log/state agreement: the maps are those of a replay, and so is their order unless a
      retried start-up changed it. */
  ghost predicate Agrees(c: Codec, s: Spool, log: Log, seeds: set<string>) {
    && Filed(c, s.file, log)
    && (!s.latched ==> log.failed == [])
    && SameMaps(s.ix, Replay(c, Fresh(seeds), log.acked, 0))
    && (log.inOrder ==> s.ix == Replay(c, Fresh(seeds), log.acked, 0))
  }

  /** The journal after an operation. */
  function NextLog(c: Codec, s: Spool, log: Log, op: Op, io: Io): Log {
    var plan := Plan(s.ix, op);
    if plan == [] || s.latched then log
    else
      match io
      case Synced => log.(acked := log.acked + plan)
      case WriteFails(k, false) => log.(failed := plan, cut := Min(k, |c.Bytes(plan)|))
      case _ => log
  }

  lemma AgreesCoherent(c: Codec, s: Spool, log: Log, seeds: set<string>)
    requires Agrees(c, s, log, seeds)
    ensures Coherent(s.ix)
  {
    ReplayCoherent(c, Fresh(seeds), log.acked, 0);
  }

  lemma SyncedAgrees(c: Codec, s: Spool, log: Log, seeds: set<string>, op: Op)
    requires Agrees(c, s, log, seeds) && !s.latched
    ensures log.failed == [] && s.file == c.Bytes(log.acked)
    ensures var plan := Plan(s.ix, op);
      Agrees(c, Spool(s.file + c.Bytes(plan), Effect(c, s.ix, op, |s.file|), false), log.(acked := log.acked + plan), seeds)
  {
    AgreesCoherent(c, s, log, seeds);
    var plan := Plan(s.ix, op);
    EffectIsReplay(c, s.ix, op, |s.file|);
    hide Plan, Effect, Replay, SameMaps, Coherent;
    NothingFailed(c, s.file, log);
    FiledMore(c, s.file, log, plan);
    AckedMore(c, s.ix, log.acked, plan, seeds, |s.file|);
  }

  lemma NothingFailed(c: Codec, file: seq<byte>, log: Log)
    requires Filed(c, file, log) && log.failed == []
    ensures file == c.Bytes(log.acked)
  {
    assert c.Bytes([])[..log.cut] == [];
  }

  lemma FiledMore(c: Codec, file: seq<byte>, log: Log, plan: seq<Entry>)
    requires Filed(c, file, log) && log.failed == []
    ensures Filed(c, file + c.Bytes(plan), log.(acked := log.acked + plan))
  {
    NothingFailed(c, file, log);
    BytesAppend(c, log.acked, plan);
    assert c.Bytes([])[..log.cut] == [];
  }

  lemma AckedMore(c: Codec, ix: Index, acked: seq<Entry>, plan: seq<Entry>, seeds: set<string>, offset: nat)
    requires SameMaps(ix, Replay(c, Fresh(seeds), acked, 0)) && offset == |c.Bytes(acked)|
    ensures SameMaps(Replay(c, ix, plan, offset), Replay(c, Fresh(seeds), acked + plan, 0))
    ensures ix == Replay(c, Fresh(seeds), acked, 0) ==> Replay(c, ix, plan, offset) == Replay(c, Fresh(seeds), acked + plan, 0)
  {
    hide Replay, SameMaps;
    ReplayAppend(c, Fresh(seeds), acked, plan, 0);
    ReplaySameMaps(c, ix, Replay(c, Fresh(seeds), acked, 0), plan, offset);
  }

  /** Every operation, whatever the file system does, keeps log and state in agreement; a failed
      operation leaves the maps alone; a latched spool accepts nothing more. */
  lemma ExecuteAgrees(c: Codec, s: Spool, log: Log, seeds: set<string>, op: Op, io: Io)
    requires Agrees(c, s, log, seeds)
    ensures var (s', ok) := Execute(c, s, op, io);
      && Agrees(c, s', NextLog(c, s, log, op, io), seeds)
      && (ok && Plan(s.ix, op) != [] ==> !s.latched)
      && (ok ==> NextLog(c, s, log, op, io).acked == log.acked + Plan(s.ix, op))
      && (!ok ==> s'.ix == s.ix && NextLog(c, s, log, op, io).acked == log.acked)
      && (s.latched ==> s' == s && (ok <==> Plan(s.ix, op) == []))
  {
    hide Plan, Effect, Replay;
    if !s.latched {
      SyncedAgrees(c, s, log, seeds, op);
    }
  }

  /** Every pending entry addresses its own line in the live file. */
  lemma PendingAddressed(c: Codec, s: Spool, log: Log, seeds: set<string>)
    requires Agrees(c, s, log, seeds)
    ensures AllAddress(c, s.file, s.ix)
  {
    hide Replay, Addresses;
    ReplayAddresses(c, Fresh(seeds), [], log.acked);
    assert [] + c.Bytes(log.acked) == c.Bytes(log.acked);
    forall id | id in s.ix.pending.at
      ensures Addresses(c, s.file, id, s.ix.pending.at[id])
    {
      AddressesGrow(c, c.Bytes(log.acked), c.Bytes(log.failed)[..log.cut], id, s.ix.pending.at[id]);
    }
  }

  // ---------------------------------------------------------------- starting up

  /** The lines a start-up finds whole. */
  function OnDisk(c: Codec, log: Log): seq<Entry> {
    log.acked + log.failed[..WholeLines(c, log.failed, log.cut)]
  }

  /** A process that is not started: the farthest failed attempt has replayed `read` lines. */
  ghost predicate Starting(c: Codec, s: Spool, log: Log, read: nat) {
    Filed(c, s.file, log) && !s.latched && Half(c, OnDisk(c, log), read, s.ix)
  }

  /** What an attempt to start meets: a read that breaks off, a truncation that fails, or nothing. */
  datatype Attempt = ReadFails(bytes: nat) | TruncateFails | Runs

  /** One attempt: the lines read are replayed over the maps as they are, then a torn rest is
      cut off; what failed stays replayed. */
  function StartUp(c: Codec, s: Spool, a: Attempt): (Spool, bool) {
    var got := if a.ReadFails? then s.file[..Min(a.bytes, |s.file|)] else s.file;
    match Recover(c, s.ix, got, 0)
    case Unparsable(ix, _) => (s.(ix := ix), false)
    case Recovered(ix, offset, torn) =>
      if a.ReadFails? || (a.TruncateFails? && torn != []) then (s.(ix := ix), false)
      else (Spool(s.file[..Min(offset, |s.file|)], ix, false), true)
  }

  function LinesRead(c: Codec, s: Spool, log: Log, a: Attempt): nat {
    WholeLines(c, OnDisk(c, log), if a.ReadFails? then Min(a.bytes, |s.file|) else |s.file|)
  }

  lemma Torn(c: Codec, s: Spool, log: Log) returns (torn: seq<byte>)
    requires c.Valid() && Filed(c, s.file, log)
    ensures NEWLINE !in torn && s.file == c.Bytes(OnDisk(c, log)) + torn
  {
    torn := CutBatch(c, log.failed, log.cut);
    BytesAppend(c, log.acked, log.failed[..WholeLines(c, log.failed, log.cut)]);
  }

  /** Every attempt to start, over whatever earlier ones left: a failed one can be tried again, one
      that ends has the acknowledged entries and the whole lines of one batch, with the order of
      a replay if and only if InOrder says so. */
  lemma StartAgrees(c: Codec, s: Spool, log: Log, read: nat, a: Attempt)
    requires c.Valid() && Starting(c, s, log, read)
    ensures var (s', ok) := StartUp(c, s, a); var es := OnDisk(c, log); var m := LinesRead(c, s, log, a);
      && (a.Runs? ==> ok)
      && (!ok ==> Starting(c, s', log, if read <= m then m else read))
      && (ok ==> Agrees(c, s', Log(es, [], 0, InOrder(c, es, read)), {}))
      && (ok ==> (s'.ix == Replay(c, Fresh({}), es, 0) <==> InOrder(c, es, read)))
  {
    hide Recover, Replay, WholeLines, Half, InOrder, SameMaps, OnDisk;
    var es, m := OnDisk(c, log), LinesRead(c, s, log, a);
    var torn := Torn(c, s, log);
    var k := if a.ReadFails? then Min(a.bytes, |s.file|) else |s.file|;
    ReadPart(c, s.ix, es, torn, k);
    assert s.file[..|s.file|] == s.file;
    HalfBounds(c, es, read, s.ix);
    RetryHalf(c, es, read, s.ix, m);
    if !a.ReadFails? {
      assert m == |es| by { WholeFile(c, es, |s.file|); }
      assert es[..m] == es;
      StartEnds(c, es, read, s.ix);
      OrderAgrees(c, es, read, s.ix);
      assert c.Bytes(es) + c.Bytes([])[..0] == c.Bytes(es);
      assert s.file[..|c.Bytes(es)|] == c.Bytes(es);
    }
  }

  lemma HalfBounds(c: Codec, es: seq<Entry>, n: nat, h: Index)
    requires Half(c, es, n, h)
    ensures n <= |es|
  {
  }

  lemma WholeFile(c: Codec, es: seq<Entry>, size: nat)
    requires size >= |c.Bytes(es)|
    ensures WholeLines(c, es, size) == |es|
  {
  }

  /** What a crash leaves of the journal, with the first `cut` bytes of an operation's lines written. */
  function CrashLog(s: Spool, log: Log, op: Op, cut: nat): Log {
    if s.latched then log else Log(log.acked, Plan(s.ix, op), cut, false)
  }

  /** A crash at any byte leaves a disk from which a process can start. */
  lemma CrashStarts(c: Codec, s: Spool, log: Log, seeds: set<string>, op: Op, cut: nat)
    requires Agrees(c, s, log, seeds) && cut <= |c.Bytes(Plan(s.ix, op))| && (s.latched ==> cut == 0)
    ensures Starting(c, Spool(s.file + c.Bytes(Plan(s.ix, op))[..cut], Fresh({}), false), CrashLog(s, log, op, cut), 0)
  {
    hide Plan, WholeLines, Replay, SameMaps;
    var plan := c.Bytes(Plan(s.ix, op));
    assert plan[..0] == [];
    assert c.Bytes([])[..0] == [];
    HalfFresh(c, OnDisk(c, CrashLog(s, log, op, cut)));
  }
}
