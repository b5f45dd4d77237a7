/** The spool object itself: its fields, its methods with their loops, and that each method is
    the operation specified in SpoolOps (src/capture/source-turn-spool.ts). */
module SourceTurnSpools {
  import opened OrderedMap
  import opened Sequences
  import opened SpoolJournal
  import opened SpoolOps
  import opened SpoolStartup
  import opened SpoolProtocol
  import opened SpoolTurns
  import opened ExtractedMarks
  import opened GroupCommit

  datatype Place = Place(offset: nat, length: nat)

  /** The offset at which line `i` of a batch starts. */
  function StartOf(c: Codec, es: seq<Entry>, i: nat, base: nat): nat
    requires i <= |es|
  {
    base + |c.Bytes(es[..i])|
  }

  lemma StartIs(c: Codec, es: seq<Entry>, base: nat)
    ensures StartOf(c, es, 0, base) == base
  {
    assert es[..0] == [];
  }

  lemma LineStart(c: Codec, es: seq<Entry>, i: nat, base: nat)
    requires i < |es|
    ensures StartOf(c, es, i + 1, base) == StartOf(c, es, i, base) + |c.Line(es[i])|
    ensures c.Bytes(es[..i + 1]) == c.Bytes(es[..i]) + c.Line(es[i])
  {
    assert es[..i + 1] == es[..i] + [es[i]];
    BytesAppend(c, es[..i], [es[i]]);
    assert c.Bytes([es[i]]) == c.Line(es[i]) + c.Bytes([]);
  }

  lemma {:induction false} PutEntryAt(turns: seq<Turn>, now: string, i: nat)
    requires i < |turns|
    ensures PutEntries(turns, now)[i] == Put(turns[i], Some(now))
    decreases |turns|
  {
    if i > 0 {
      PutEntryAt(turns[1..], now, i - 1);
    }
  }

  lemma PutLines(puts: seq<Turn>, now: string, markers: seq<Turn>)
    ensures var lines := PutEntries(puts, now) + MarkEntries(markers);
      |lines| >= |puts| && forall i :: 0 <= i < |puts| ==> lines[i] == Put(puts[i], Some(now))
  {
    forall i | 0 <= i < |puts|
      ensures PutEntries(puts, now)[i] == Put(puts[i], Some(now))
    {
      PutEntryAt(puts, now, i);
    }
  }

  lemma CommitMarksIfOk(c: Codec, s: Spool, turns: seq<Turn>, done: seq<Turn>, now: string, io: Io)
    ensures var (s', ok) := Execute(c, s, Commit(turns, done, now), io);
      ok ==> MarkedLast(s.ix.extracted, s.ix.forgotten, done, s'.ix.extracted)
  {
    hide Execute, MarkedLast;
    if Execute(c, s, Commit(turns, done, now), io).1 {
      CommitMarks(c, s, turns, done, now, io);
    }
  }

  lemma MarkMarksIfOk(c: Codec, s: Spool, turns: seq<Turn>, io: Io)
    ensures var (s', ok) := Execute(c, s, Mark(turns), io);
      ok ==> MarkedNew(s.ix.extracted, s.ix.forgotten, turns, s'.ix.extracted)
  {
    hide Execute, MarkedNew;
    if Execute(c, s, Mark(turns), io).1 {
      MarkMarks(c, s, turns, io);
    }
  }

  lemma EntriesSome(puts: seq<Turn>, now: string, markers: seq<Turn>)
    ensures PutEntries(puts, now) + MarkEntries(markers) == [] <==> puts == [] && markers == []
  {
    assert |PutEntries(puts, now)| == |puts|;
  }

  /** Putting and marking turns: one append, and with it the maps. */
  function Published(c: Codec, s: Spool, puts: seq<Turn>, markers: seq<Turn>, now: string, io: Io): (Spool, bool) {
    var (s', ok) := AppendBytes(s, c.Bytes(PutEntries(puts, now) + MarkEntries(markers)), io);
    (if ok then s'.(ix := RecordMarks(RecordPuts(c, s.ix, puts, now, |s.file|), markers)) else s', ok)
  }

  // ---------------------------------------------------------------- facts the loops use

  function Conflicts(vs: seq<Verdict>): nat {
    if vs == [] then 0 else Conflicts(vs[..|vs| - 1]) + if vs[|vs| - 1].conflict then 1 else 0
  }

  lemma ConflictsSnoc(vs: seq<Verdict>, v: Verdict)
    ensures Conflicts(vs + [v]) == Conflicts(vs) + if v.conflict then 1 else 0
  {
    assert (vs + [v])[..|vs|] == vs;
  }

  function FlattenVerdicts(vss: seq<seq<Verdict>>): seq<Verdict> {
    if vss == [] then [] else FlattenVerdicts(vss[..|vss| - 1]) + vss[|vss| - 1]
  }

  lemma FlattenSnoc(vss: seq<seq<Verdict>>, vs: seq<Verdict>)
    ensures FlattenVerdicts(vss + [vs]) == FlattenVerdicts(vss) + vs
  {
    assert (vss + [vs])[..|vss|] == vss;
  }

  lemma Reassociate<T>(a: seq<T>, b: seq<T>, d: seq<T>)
    ensures a + (b + d) == a + b + d
  {
  }

  lemma EmptyFlush(ix: Index, staged: OMap<string, Turn>)
    ensures Flatten([]) == [] && StageAppends(ix, [], staged) == staged && Verdicts(ix, [], staged) == []
  {
  }

  /** How the body of one window entry fares. */
  datatype Delivery = Unread | Refused | Delivered

  /** The ids of a window whose bodies were handed to the writer, in order. */
  function Handed(ids: seq<string>, outcomes: seq<Delivery>): seq<string>
    requires |ids| == |outcomes|
  {
    if ids == [] then []
    else
      var n := |ids| - 1;
      Handed(ids[..n], outcomes[..n]) + if outcomes[n].Unread? then [] else [ids[n]]
  }

  /** The ids of a window whose writes succeeded, in order. */
  function Written(ids: seq<string>, outcomes: seq<Delivery>): seq<string>
    requires |ids| == |outcomes|
  {
    if ids == [] then []
    else
      var n := |ids| - 1;
      Written(ids[..n], outcomes[..n]) + if outcomes[n].Delivered? then [ids[n]] else []
  }

  lemma NoneWritten()
    ensures Written([], []) == [] && Handed([], []) == []
  {
  }

  lemma WrittenSnoc(ids: seq<string>, outcomes: seq<Delivery>, n: nat)
    requires n < |ids| && n < |outcomes|
    ensures Written(ids[..n + 1], outcomes[..n + 1])
      == Written(ids[..n], outcomes[..n]) + if outcomes[n].Delivered? then [ids[n]] else []
    ensures Handed(ids[..n + 1], outcomes[..n + 1])
      == Handed(ids[..n], outcomes[..n]) + if outcomes[n].Unread? then [] else [ids[n]]
  {
    assert ids[..n + 1][..n] == ids[..n] && outcomes[..n + 1][..n] == outcomes[..n];
  }

  /** The bodies are, whole, the turns of the journal lines at the places of these ids. */
  ghost predicate Bodies(c: Codec, es: seq<Entry>, sent: seq<Turn>, ids: seq<string>, at: map<string, Pending>) {
    && |sent| == |ids|
    && forall k :: 0 <= k < |ids| ==> ids[k] in at && sent[k].id == ids[k] && Whole(c, es, at[ids[k]], sent[k])
  }

  /** A pending entry of an agreeing spool reads back as the whole turn of its line. */
  lemma StillReads(c: Codec, s: Spool, log: Log, seeds: set<string>, id: string)
    requires c.Valid() && Agrees(c, s, log, seeds) && id in s.ix.pending.at
    ensures var r := ReadTurn(c, s.file, s.ix.pending.at[id]);
      r.Some? && r.value.id == id && Whole(c, log.acked, s.ix.pending.at[id], r.value)
  {
    hide Replay, ReadTurn, Whole;
    AgreesLines(c, s, log, seeds);
    var p := s.ix.pending.at[id];
    var t: Turn :| t.id == id && Whole(c, log.acked, p, t);
    ReadWhole(c, s.file, log, p, t);
  }

  lemma ForgetShape(ix: Index, ids: seq<string>)
    ensures ForgetEntries(ids) == [] <==> ids == []
    ensures RecordForget(ix, []) == ix
  {
  }

  /** A synced forget leaves its ids in the tombstones. */
  lemma ForgottenLeaves(c: Codec, s: Spool, ids: seq<string>, io: Io)
    ensures var (s', ok) := Execute(c, s, Erase(ids), io);
      ok ==> forall id :: id in ids ==> id in s'.ix.forgotten
  {
    hide RecordForget, ForgetEntries, AppendBytes;
    ForgetShape(s.ix, ids);
    ForgetsThem(s.ix, ids);
  }

  /** A forgotten id holds nothing. */
  lemma AgreesGone(c: Codec, s: Spool, log: Log, seeds: set<string>)
    requires Agrees(c, s, log, seeds)
    ensures forall id :: id in s.ix.forgotten ==> id !in s.ix.pending.at && id !in s.ix.extracted
  {
    hide Agrees;
    AgreesCoherent(c, s, log, seeds);
  }

  lemma DoneShape(ids: seq<string>)
    ensures DoneEntries(ids) == [] <==> ids == []
  {
  }

  lemma NewlineStays(data: seq<byte>, more: seq<byte>)
    requires FirstNewline(data) < |data|
    ensures var i := FirstNewline(data);
      FirstNewline(data + more) == i && (data + more)[..i] == data[..i] && (data + more)[i + 1..] == data[i + 1..] + more
  {
    var i := FirstNewline(data);
    assert (data + more)[..i] == data[..i];
    FirstNewlineIs(data + more, i);
  }

  lemma RecoverLine(c: Codec, ix: Index, bytes: seq<byte>, offset: nat)
    requires FirstNewline(bytes) < |bytes|
    ensures var i := FirstNewline(bytes);
      Recover(c, ix, bytes, offset)
      == match c.decode(bytes[..i])
         case None => Unparsable(ix, offset)
         case Some(e) => Recover(c, Apply(ix, e, offset, i + 1), bytes[i + 1..], offset + i + 1)
  {
    hide Apply;
  }

  /** A line found in `data` is also the next line of `data` followed by more. */
  lemma RecoverNext(c: Codec, ix: Index, data: seq<byte>, more: seq<byte>, offset: nat)
    requires FirstNewline(data) < |data|
    ensures var i := FirstNewline(data);
      Recover(c, ix, data + more, offset)
      == match c.decode(data[..i])
         case None => Unparsable(ix, offset)
         case Some(e) => Recover(c, Apply(ix, e, offset, i + 1), data[i + 1..] + more, offset + i + 1)
  {
    hide Apply, FirstNewline, Recover;
    NewlineStays(data, more);
    RecoverLine(c, ix, data + more, offset);
  }

  /** Bytes without a newline are no line yet. */
  lemma NoLine(c: Codec, ix: Index, bytes: seq<byte>, offset: nat)
    ensures FirstNewline([]) == 0
    ensures FirstNewline(bytes) == |bytes| ==> Recover(c, ix, bytes, offset) == Recovered(ix, offset, bytes)
  {
  }

  /** What the outcome of an attempt to start depends on. */
  function AttemptOf(chunks: seq<seq<byte>>, breaks: bool, truncates: bool): Attempt {
    if breaks then ReadFails(|Concat(chunks)|) else if truncates then Runs else TruncateFails
  }

  lemma ForgetNext(ix: Index, ids: seq<string>, i: nat)
    requires i < |ids|
    ensures RecordForget(ix, ids[i..]) == RecordForget(Index(ix.pending.Delete(ids[i]), ix.known + {ids[i]},
                                                             ix.forgotten + {ids[i]}, ix.extracted - {ids[i]}), ids[i + 1..])
  {
    assert ids[i..][0] == ids[i] && ids[i..][1..] == ids[i + 1..];
  }

  lemma NothingToForget(ix: Index)
    ensures RecordForget(ix, []) == ix
  {
  }

  class SourceTurnSpool {
    const codec: Codec
    var file: seq<byte>
    var pending: OMap<string, Pending>
    var knownIds: set<string>
    var knownIdsSeeded: bool
    var forgotten: set<string>
    var extracted: map<string, Marker>
    var rollbackFailed: bool
    var initialized: bool
    var appended: nat
    var replayed: nat
    var appendFailures: nat
    var persistFailures: nat
    var conflicts: nat
    ghost var log: Log
    ghost var seeds: set<string>
    /** How often an entry left the map: replaced, completed, or erased while pending. */
    ghost var replaced: nat
    ghost var completed: nat
    ghost var erased: nat

    function Resident(): Index
      reads this
    {
      Index(pending, knownIds, forgotten, extracted)
    }

    function State(): Spool
      reads this
    {
      Spool(file, Resident(), rollbackFailed)
    }

    ghost predicate Balanced()
      reads this
    {
      |pending.keys| + replaced + completed + erased == replayed + appended
    }

    /** Log and memory agree, and every pending entry is accounted for. */
    ghost predicate Valid()
      reads this
    {
      codec.Valid() && initialized && Agrees(codec, State(), log, seeds) && Balanced()
    }

    /** A new process over the journal an earlier one left behind. */
    constructor (c: Codec, disk: seq<byte>)
      ensures codec == c && file == disk && Resident() == Fresh({}) && !rollbackFailed && !initialized && !knownIdsSeeded
      ensures appended == replayed == appendFailures == persistFailures == conflicts == 0
      ensures replaced == completed == erased == 0
    {
      codec, file := c, disk;
      pending, knownIds, forgotten, extracted := OMap([], map[]), {}, {}, map[];
      rollbackFailed, initialized, knownIdsSeeded := false, false, false;
      appended, replayed, appendFailures, persistFailures, conflicts := 0, 0, 0, 0, 0;
      log, seeds := Log([], [], 0, true), {};
      replaced, completed, erased := 0, 0, 0;
    }

    /** Appends all lines with one write and one sync; a failed append is rolled back, and a
        failed rollback closes the journal for good. */
    method AppendLines(lines: seq<Entry>, io: Io) returns (ok: bool, places: seq<Place>)
      modifies this`file, this`rollbackFailed
      ensures var (s, accepted) := AppendBytes(old(State()), codec.Bytes(lines), io);
        State() == s && (lines != [] ==> ok == accepted)
      ensures ok ==> |places| == |lines| && forall i :: 0 <= i < |lines| ==>
        places[i] == Place(StartOf(codec, lines, i, old(|file|)), |codec.Line(lines[i])|)
    {
      places := [];
      if rollbackFailed {
        return false, places;
      }
      if io.OpenFails? {
        return false, places;
      }
      var initialOffset := |file|;
      var offset := initialOffset;
      var chunks: seq<byte> := [];
      var i := 0;
      while i < |lines|
        invariant 0 <= i <= |lines| && |places| == i
        invariant file == old(file) && !rollbackFailed
        invariant chunks == codec.Bytes(lines[..i]) && offset == StartOf(codec, lines, i, initialOffset)
        invariant forall j :: 0 <= j < i ==>
          places[j] == Place(StartOf(codec, lines, j, initialOffset), |codec.Line(lines[j])|)
      {
        var line := codec.Line(lines[i]);
        LineStart(codec, lines, i, initialOffset);
        places := places + [Place(offset, |line|)];
        offset := offset + |line|;
        chunks := chunks + line;
        i := i + 1;
      }
      assert lines[..|lines|] == lines;
      match io {
        case Synced =>
          file := file + chunks;
          ok := true;
        case WriteFails(written, truncates) =>
          file := file + chunks[..Min(written, |chunks|)];
          if truncates {
            file := file[..initialOffset];
          } else {
            rollbackFailed := true;
          }
          ok := false;
      }
    }

    /** One attempt to start, over whatever earlier ones left in the maps: replays the lines of the
        file, read in any chunks, then cuts off a torn rest. The stream may break off, and the
        truncation may fail. */
    method Initialize(chunks: seq<seq<byte>>, breaks: bool, truncates: bool) returns (ok: bool)
      requires !initialized && !rollbackFailed
      requires Concat(chunks) <= file && (!breaks ==> Concat(chunks) == file)
      modifies this`file, this`pending, this`knownIds, this`forgotten, this`extracted, this`replayed, this`initialized
      ensures (State(), ok) == StartUp(codec, old(State()), AttemptOf(chunks, breaks, truncates))
      ensures initialized == ok && replayed == old(replayed) + if ok then |pending.keys| else 0
    {
      hide Recover, Apply, FirstNewline;
      var offset: nat, remainder: seq<byte>, k := 0, [], 0;
      NoLine(codec, Resident(), [], 0);
      ghost var whole := Recover(codec, Resident(), Concat(chunks), 0);
      assert Concat(chunks) == [] + Concat(chunks[0..]);
      assert file[..|Concat(chunks)|] == Concat(chunks);
      while k < |chunks|
        invariant 0 <= k <= |chunks| && file == old(file) && !initialized && !rollbackFailed && replayed == old(replayed)
        invariant Recover(codec, Resident(), remainder + Concat(chunks[k..]), offset) == whole
        invariant FirstNewline(remainder) == |remainder|
        invariant offset + |remainder| + |Concat(chunks[k..])| == |Concat(chunks)|
      {
        assert Concat(chunks[k..]) == chunks[k] + Concat(chunks[k + 1..]) by {
          assert chunks[k..][1..] == chunks[k + 1..];
        }
        var data := remainder + chunks[k];
        assert data + Concat(chunks[k + 1..]) == remainder + Concat(chunks[k..]);
        var parsed;
        parsed, offset, remainder := ReplayChunk(data, offset, Concat(chunks[k + 1..]));
        if !parsed {
          return false;
        }
        k := k + 1;
      }
      assert remainder + Concat(chunks[k..]) == remainder;
      NoLine(codec, Resident(), remainder, offset);
      assert whole == Recovered(Resident(), offset, remainder);
      if breaks || (remainder != [] && !truncates) {
        return false;
      }
      file := file[..offset];
      replayed := replayed + |pending.keys|;
      initialized := true;
      ok := true;
    }

    /** The lines of one chunk, after what the previous chunk left over; `more` is still to come. */
    method ReplayChunk(data: seq<byte>, from: nat, ghost more: seq<byte>)
      returns (parsed: bool, offset: nat, remainder: seq<byte>)
      modifies this`pending, this`knownIds, this`forgotten, this`extracted
      ensures parsed ==>
        && Recover(codec, Resident(), remainder + more, offset) == Recover(codec, old(Resident()), data + more, from)
        && FirstNewline(remainder) == |remainder| && offset + |remainder| == from + |data|
      ensures !parsed ==> Recover(codec, old(Resident()), data + more, from) == Unparsable(Resident(), offset)
    {
      hide Recover, Apply, FirstNewline;
      offset, remainder := from, data;
      var start := 0;
      assert data[0..] == data;
      var end := FirstNewline(data);
      while end < |data|
        invariant 0 <= start <= end <= |data| && end == start + FirstNewline(data[start..])
        invariant Recover(codec, Resident(), data[start..] + more, offset) == Recover(codec, old(Resident()), data + more, from)
        invariant offset + |data[start..]| == from + |data|
        decreases |data| - start
      {
        var length := end - start + 1;
        assert data[start..][..end - start] == data[start..end];
        assert data[start..][end - start + 1..] == data[end + 1..];
        RecoverNext(codec, Resident(), data[start..], more, offset);
        match codec.decode(data[start..end]) {
          case None =>
            parsed := false;
            return;
          case Some(entry) =>
            ApplyEntry(entry, offset, length);
        }
        offset := offset + length;
        start := end + 1;
        end := start + FirstNewline(data[start..]);
      }
      remainder := data[start..];
      parsed := true;
    }

    /** One line of start-up, branch by branch. */
    method ApplyEntry(entry: Entry, offset: nat, length: nat)
      modifies this`pending, this`knownIds, this`forgotten, this`extracted
      ensures Resident() == Apply(old(Resident()), entry, offset, length)
    {
      match entry {
        case Put(turn, queuedAt) =>
          if turn.id !in forgotten {
            knownIds := knownIds + {turn.id};
            pending := pending.Set(turn.id, PendingOf(turn, queuedAt, offset, length));
          }
        case Extracted(id, marker) =>
          knownIds := knownIds + {id};
          if id !in forgotten {
            extracted := extracted[id := marker];
          }
        case Done(id) =>
          knownIds := knownIds + {id};
          pending := pending.Delete(id);
        case Forget(id) =>
          knownIds := knownIds + {id};
          forgotten := forgotten + {id};
          pending := pending.Delete(id);
          extracted := extracted - {id};
      }
    }

    /** Start-up after a crash or a clean stop, also after earlier attempts failed: the file is an
        acknowledged journal followed by any part of one batch. A failed attempt can be tried
        again; one that ends keeps every acknowledged entry, and the spool is valid again, its
        pending order being that of a replay if and only if InOrder says so. */
    method Reopen(chunks: seq<seq<byte>>, breaks: bool, truncates: bool, ghost journal: Log, ghost read: nat)
      returns (ok: bool, ghost farther: nat)
      requires codec.Valid() && !initialized && !rollbackFailed && Starting(codec, State(), journal, read)
      requires appended == replayed == 0 && replaced == completed == erased == 0
      requires Concat(chunks) <= file && (!breaks ==> Concat(chunks) == file)
      modifies this
      ensures (State(), ok) == StartUp(codec, old(State()), AttemptOf(chunks, breaks, truncates))
      ensures !breaks && truncates ==> ok
      ensures ok ==>
        && Valid() && seeds == {}
        && log == Log(OnDisk(codec, journal), [], 0, InOrder(codec, OnDisk(codec, journal), read))
        && SameMaps(Resident(), Replay(codec, Fresh({}), OnDisk(codec, journal), 0))
        && (Resident() == Replay(codec, Fresh({}), OnDisk(codec, journal), 0) <==> InOrder(codec, OnDisk(codec, journal), read))
      ensures !ok ==>
        && !initialized && !rollbackFailed && Starting(codec, State(), journal, farther)
        && appended == replayed == 0 && replaced == completed == erased == 0
    {
      hide StartUp, Replay, OnDisk, InOrder, Starting, Agrees;
      ghost var m := LinesRead(codec, State(), journal, AttemptOf(chunks, breaks, truncates));
      farther := if read <= m then m else read;
      StartAgrees(codec, State(), journal, read, AttemptOf(chunks, breaks, truncates));
      ok := Initialize(chunks, breaks, truncates);
      if ok {
        log, seeds := Log(OnDisk(codec, journal), [], 0, InOrder(codec, OnDisk(codec, journal), read)), {};
        AgreesMaps(codec, State(), log, seeds);
      } else {
        StaysUnlatched(codec, State(), journal, farther);
      }
    }

    // ------------------------------------------------------------ serialised operations

    /** The rows of the first call become known; later calls add nothing. */
    method SeedKnownIds(rows: set<string>)
      requires Valid()
      modifies this`knownIds, this`knownIdsSeeded, this`seeds
      ensures Valid() && knownIdsSeeded
      ensures knownIds == old(knownIds) + if old(knownIdsSeeded) then {} else rows
      ensures seeds == old(seeds) + if old(knownIdsSeeded) then {} else rows
    {
      if knownIdsSeeded {
        assert knownIds + {} == knownIds && seeds + {} == seeds;
        return;
      }
      ReplaySeeds(codec, Fresh(seeds), log.acked, 0, rows);
      assert Fresh(seeds).(known := seeds + rows) == Fresh(seeds + rows);
      knownIds, seeds := knownIds + rows, seeds + rows;
      knownIdsSeeded := true;
    }

    /** Makes appended put lines pending, each at the place its line was written. */
    method RecordPending(puts: seq<Turn>, places: seq<Place>, now: string, ghost lines: seq<Entry>, ghost base: nat)
      requires |puts| <= |places| <= |lines| && pending.Valid()
      requires forall i :: 0 <= i < |puts| ==> lines[i] == Put(puts[i], Some(now))
      requires forall i :: 0 <= i < |puts| ==> places[i] == Place(StartOf(codec, lines, i, base), |codec.Line(lines[i])|)
      modifies this`pending, this`knownIds, this`appended, this`replaced
      ensures Resident() == RecordPuts(codec, old(Resident()), puts, now, base)
      ensures appended == old(appended) + |puts|
      ensures |pending.keys| + replaced == |old(pending).keys| + old(replaced) + |puts|
    {
      hide RecordPuts, PendingOf, StartOf;
      StartIs(codec, lines, base);
      ghost var goal := RecordPuts(codec, Resident(), puts, now, base);
      var i := 0;
      assert puts[0..] == puts;
      while i < |puts|
        invariant 0 <= i <= |puts| && appended == old(appended) + i && pending.Valid()
        invariant |pending.keys| + replaced == |old(pending).keys| + old(replaced) + i
        invariant RecordPuts(codec, Resident(), puts[i..], now, StartOf(codec, lines, i, base)) == goal
      {
        var turn := puts[i];
        LineStart(codec, lines, i, base);
        RecordNextPut(codec, Resident(), puts, i, now, StartOf(codec, lines, i, base));
        var entry := PendingOf(turn, Some(now), places[i].offset, places[i].length);
        pending.SetValid(turn.id, entry);
        replaced := replaced + if turn.id in pending.at then 1 else 0;
        pending := pending.Set(turn.id, entry);
        knownIds := knownIds + {turn.id};
        appended := appended + 1;
        i := i + 1;
      }
      assert puts[i..] == [];
      NoPuts(codec, Resident(), now, StartOf(codec, lines, i, base));
    }

    method RecordExtracted(markers: seq<Turn>)
      modifies this`extracted, this`knownIds
      ensures Resident() == RecordMarks(old(Resident()), markers)
    {
      var i := 0;
      assert markers[0..] == markers;
      while i < |markers|
        invariant 0 <= i <= |markers|
        invariant pending == old(pending) && forgotten == old(forgotten)
        invariant RecordMarks(Resident(), markers[i..]) == RecordMarks(old(Resident()), markers)
      {
        var turn := markers[i];
        assert markers[i..][0] == turn && markers[i..][1..] == markers[i + 1..];
        knownIds := knownIds + {turn.id};
        extracted := extracted[turn.id := MarkerOf(turn)];
        i := i + 1;
      }
    }

    /** commitCapture: one fsynced append of the changed turns and the completion markers. */
    method CommitCapture(turns: seq<Turn>, done: seq<Turn>, now: string, io: Io) returns (ok: bool)
      requires Valid()
      modifies this
      ensures Valid() && seeds == old(seeds)
      ensures (State(), ok) == Execute(codec, old(State()), Commit(turns, done, now), io)
      ensures log == NextLog(codec, old(State()), old(log), Commit(turns, done, now), io)
      ensures ok ==> MarkedLast(old(extracted), old(forgotten), done, extracted)
      ensures appended == old(appended) + if ok then |Puts(old(Resident()), Commit(turns, done, now))| else 0
      ensures appendFailures == old(appendFailures) + if ok then 0 else |turns|
    {
      hide Agrees, Execute, NextLog, Plan, Listed, Select, MarkedLast;
      ghost var op := Commit(turns, done, now);
      CaptureIdle(codec, State(), op, io);
      CommitMarksIfOk(codec, State(), turns, done, now, io);
      var staged, i := NOTHING, 0;
      assert turns[0..] == turns;
      while i < |turns|
        invariant 0 <= i <= |turns|
        invariant StageCapture(Resident(), turns[i..], staged) == StageCapture(Resident(), turns, NOTHING)
      {
        var turn := turns[i];
        assert turns[i..][0] == turn && turns[i..][1..] == turns[i + 1..];
        i := i + 1;
        if turn.id in forgotten {
          continue;
        }
        var prior := PriorHmac(Resident(), staged, turn.id);
        if prior != Some(turn.hmac) {
          staged := staged.Set(turn.id, turn);
        }
      }
      var puts := Listed(staged);
      var markers := Marks(Resident(), Commit(turns, done, now));
      assert puts == Puts(Resident(), op);
      if puts == [] && markers == [] {
        return true;
      }
      ok := Publish(puts, markers, now, io, op);
      if !ok {
        appendFailures := appendFailures + |turns|;
      }
    }

    /** Appends put and marker lines together and, when that succeeds, records them. */
    method Publish(puts: seq<Turn>, markers: seq<Turn>, now: string, io: Io, ghost op: Op) returns (ok: bool)
      requires Valid() && !op.Complete? && !op.Erase?
      requires puts == Puts(Resident(), op) && markers == Marks(Resident(), op) && now == Now(op)
      requires puts != [] || markers != []
      modifies this`file, this`rollbackFailed, this`pending, this`knownIds, this`extracted, this`appended, this`replaced, this`log
      ensures Valid()
      ensures (State(), ok) == Execute(codec, old(State()), op, io)
      ensures log == NextLog(codec, old(State()), old(log), op, io)
      ensures appended == old(appended) + if ok then |puts| else 0
    {
      hide Agrees, Puts, Marks, Published, NextLog, Execute;
      ghost var before := State();
      AgreesPending(codec, before, log, seeds);
      ExecuteKeeps(codec, before, log, seeds, op, io);
      ExecuteCapture(codec, before, op, io);
      ok := WriteEntries(puts, markers, now, io);
      log := NextLog(codec, before, log, op, io);
    }

    method WriteEntries(puts: seq<Turn>, markers: seq<Turn>, now: string, io: Io) returns (ok: bool)
      requires pending.Valid() && (puts != [] || markers != [])
      modifies this`file, this`rollbackFailed, this`pending, this`knownIds, this`extracted, this`appended, this`replaced
      ensures (State(), ok) == Published(codec, old(State()), puts, markers, now, io)
      ensures appended == old(appended) + if ok then |puts| else 0
      ensures |pending.keys| + replaced == |old(pending).keys| + old(replaced) + if ok then |puts| else 0
    {
      hide RecordPuts, RecordMarks, StartOf, PutEntries, MarkEntries, AppendBytes;
      ghost var base := |file|;
      EntriesSome(puts, now, markers);
      var lines := PutEntries(puts, now) + MarkEntries(markers);
      var places;
      ok, places := AppendLines(lines, io);
      if ok {
        PutLines(puts, now, markers);
        RecordPending(puts, places, now, lines, base);
        RecordExtracted(markers);
      }
    }

    method MarkExtracted(turns: seq<Turn>, io: Io) returns (ok: bool)
      requires Valid()
      modifies this
      ensures Valid() && seeds == old(seeds)
      ensures (State(), ok) == Execute(codec, old(State()), Mark(turns), io)
      ensures log == NextLog(codec, old(State()), old(log), Mark(turns), io)
      ensures ok ==> MarkedNew(old(extracted), old(forgotten), turns, extracted)
    {
      hide Execute, NextLog, MarkedNew;
      CaptureIdle(codec, State(), Mark(turns), io);
      MarkMarksIfOk(codec, State(), turns, io);
      var markers := Marks(Resident(), Mark(turns));
      if markers == [] {
        return true;
      }
      ok := Publish([], markers, "", io, Mark(turns));
    }

    /** The verdicts of one request, staging its fresh turns and counting its conflicts. */
    method JudgeRequest(turns: seq<Turn>, before: OMap<string, Turn>) returns (judged: seq<Verdict>, staged: OMap<string, Turn>)
      modifies this`conflicts
      ensures judged == Verdicts(Resident(), turns, before)
      ensures staged == StageAppends(Resident(), turns, before)
      ensures conflicts == old(conflicts) + Conflicts(judged)
    {
      hide PriorHmac;
      staged, judged := before, [];
      var i := 0;
      assert turns[0..] == turns;
      while i < |turns|
        invariant 0 <= i <= |turns|
        invariant StageAppends(Resident(), turns[i..], staged) == StageAppends(Resident(), turns, before)
        invariant judged + Verdicts(Resident(), turns[i..], staged) == Verdicts(Resident(), turns, before)
        invariant conflicts == old(conflicts) + Conflicts(judged)
      {
        var turn := turns[i];
        assert turns[i..][0] == turn && turns[i..][1..] == turns[i + 1..];
        var prior := PriorHmac(Resident(), staged, turn.id);
        var verdict;
        if turn.id in forgotten {
          verdict := Verdict(false, false, false);
        } else if prior.Some? && prior.value != turn.hmac {
          conflicts := conflicts + 1;
          verdict := Verdict(false, false, true);
        } else {
          verdict := Verdict(true, prior.None?, false);
        }
        assert verdict == Judge(Resident(), staged, turn);
        Regroup(judged, verdict, Verdicts(Resident(), turns[i + 1..], StageOne(Resident(), staged, turn)));
        ConflictsSnoc(judged, verdict);
        judged := judged + [verdict];
        if verdict.first {
          staged := staged.Set(turn.id, turn);
        }
        i := i + 1;
      }
      assert turns[i..] == [];
      assert judged + [] == judged;
    }

    /** The append writer's body: judges every turn of every request against what is pending or
        staged so far, appends the staged ones once, and answers all requests together. */
    method FlushAppends(batch: seq<seq<Turn>>, now: string, io: Io) returns (ok: bool, answers: seq<seq<Verdict>>)
      requires Valid()
      modifies this
      ensures Valid() && seeds == old(seeds)
      ensures (State(), ok) == Execute(codec, old(State()), Flush(batch, now), io)
      ensures log == NextLog(codec, old(State()), old(log), Flush(batch, now), io)
      ensures |answers| == |batch| && forall r :: 0 <= r < |batch| ==> |answers[r]| == |batch[r]|
      ensures ok ==> FlattenVerdicts(answers) == Verdicts(old(Resident()), Flatten(batch), NOTHING)
      ensures !ok ==> forall r, j :: 0 <= r < |answers| && 0 <= j < |answers[r]| ==>
        !answers[r][j].accepted && !answers[r][j].first
      ensures appendFailures == old(appendFailures) + if ok then 0 else |Flatten(batch)|
    {
      hide Agrees, Execute, NextLog, Plan, Listed, Judge, StageOne, StageAppends, Verdicts, Flatten, FlattenVerdicts;
      ghost var op := Flush(batch, now);
      CaptureIdle(codec, State(), op, io);
      var staged;
      answers, staged := JudgeBatch(batch);
      var puts := Listed(staged);
      assert puts == Puts(Resident(), op) && Marks(Resident(), op) == [];
      ok := true;
      if puts != [] {
        ok := Publish(puts, [], now, io, op);
      }
      if !ok {
        answers := RefuseAll(batch);
      }
    }

    /** The verdicts of all requests of one flush, in queue order, over one staging map. */
    method JudgeBatch(batch: seq<seq<Turn>>) returns (answers: seq<seq<Verdict>>, staged: OMap<string, Turn>)
      modifies this`conflicts
      ensures |answers| == |batch| && forall r :: 0 <= r < |batch| ==> |answers[r]| == |batch[r]|
      ensures FlattenVerdicts(answers) == Verdicts(Resident(), Flatten(batch), NOTHING)
      ensures staged == StageAppends(Resident(), Flatten(batch), NOTHING)
    {
      hide Judge, StageOne, StageAppends, Verdicts;
      ghost var ix := Resident();
      ghost var goal := Verdicts(ix, Flatten(batch), NOTHING);
      staged, answers := NOTHING, [];
      var r := 0;
      assert batch[0..] == batch && [] + goal == goal;
      while r < |batch|
        invariant 0 <= r <= |batch| && |answers| == r
        invariant forall k :: 0 <= k < r ==> |answers[k]| == |batch[k]|
        invariant StageAppends(ix, Flatten(batch[r..]), staged) == StageAppends(ix, Flatten(batch), NOTHING)
        invariant FlattenVerdicts(answers) + Verdicts(ix, Flatten(batch[r..]), staged) == goal
      {
        assert batch[r..][0] == batch[r] && batch[r..][1..] == batch[r + 1..];
        VerdictsAppend(ix, batch[r], Flatten(batch[r + 1..]), staged);
        var judged;
        judged, staged := JudgeRequest(batch[r], staged);
        FlattenSnoc(answers, judged);
        Reassociate(FlattenVerdicts(answers), judged, Verdicts(ix, Flatten(batch[r + 1..]), staged));
        answers := answers + [judged];
        r := r + 1;
      }
      assert batch[r..] == [];
      EmptyFlush(ix, staged);
      assert FlattenVerdicts(answers) + [] == FlattenVerdicts(answers);
    }

    method RefuseAll(batch: seq<seq<Turn>>) returns (answers: seq<seq<Verdict>>)
      modifies this`appendFailures
      ensures |answers| == |batch| && forall r :: 0 <= r < |batch| ==> |answers[r]| == |batch[r]|
      ensures forall r, j :: 0 <= r < |answers| && 0 <= j < |answers[r]| ==> answers[r][j] == Verdict(false, false, false)
      ensures appendFailures == old(appendFailures) + |Flatten(batch)|
    {
      answers := [];
      var r := 0;
      assert batch[0..] == batch;
      while r < |batch|
        invariant 0 <= r <= |batch| && |answers| == r
        invariant forall k :: 0 <= k < r ==> |answers[k]| == |batch[k]|
        invariant forall k, j :: 0 <= k < r && 0 <= j < |answers[k]| ==> answers[k][j] == Verdict(false, false, false)
        invariant appendFailures + |Flatten(batch[r..])| == old(appendFailures) + |Flatten(batch)|
      {
        assert batch[r..][0] == batch[r] && batch[r..][1..] == batch[r + 1..];
        appendFailures := appendFailures + |batch[r]|;
        answers := answers + [seq(|batch[r]|, _ => Verdict(false, false, false))];
        r := r + 1;
      }
    }

    /** forget: the tombstones are synced before any map changes. */
    method Forget(ids: seq<string>, io: Io) returns (ok: bool)
      requires Valid()
      modifies this
      ensures Valid() && seeds == old(seeds)
      ensures (State(), ok) == Execute(codec, old(State()), Erase(ids), io)
      ensures log == NextLog(codec, old(State()), old(log), Erase(ids), io)
      ensures ok ==> forall id :: id in ids ==> id in forgotten && id !in pending.at && id !in extracted
    {
      hide Agrees, NextLog, Execute;
      ghost var op := Erase(ids);
      ghost var before := State();
      AgreesPending(codec, before, log, seeds);
      ExecuteKeeps(codec, before, log, seeds, op, io);
      ok := WriteTombstones(ids, io);
      log := NextLog(codec, before, log, op, io);
      ForgottenLeaves(codec, before, ids, io);
      AgreesGone(codec, State(), log, seeds);
    }

    method WriteTombstones(ids: seq<string>, io: Io) returns (ok: bool)
      requires pending.Valid()
      modifies this`file, this`rollbackFailed, this`pending, this`knownIds, this`forgotten, this`extracted, this`erased
      ensures (State(), ok) == Execute(codec, old(State()), Erase(ids), io)
      ensures |pending.keys| + erased == |old(pending).keys| + old(erased)
    {
      hide RecordForget, ForgetEntries, AppendBytes;
      ForgetShape(Resident(), ids);
      if ids == [] {
        return true;
      }
      var places;
      ok, places := AppendLines(ForgetEntries(ids), io);
      if ok {
        EraseAll(ids);
      }
    }

    method EraseAll(ids: seq<string>)
      requires pending.Valid()
      modifies this`pending, this`knownIds, this`forgotten, this`extracted, this`erased
      ensures Resident() == RecordForget(old(Resident()), ids)
      ensures |pending.keys| + erased == |old(pending).keys| + old(erased)
    {
      hide RecordForget;
      var i := 0;
      assert ids[0..] == ids;
      while i < |ids|
        invariant 0 <= i <= |ids| && pending.Valid()
        invariant |pending.keys| + erased == |old(pending).keys| + old(erased)
        invariant RecordForget(Resident(), ids[i..]) == RecordForget(old(Resident()), ids)
      {
        var id := ids[i];
        ForgetNext(Resident(), ids, i);
        pending.DeleteValid(id);
        erased := erased + if id in pending.at then 1 else 0;
        knownIds := knownIds + {id};
        forgotten := forgotten + {id};
        pending := pending.Delete(id);
        extracted := extracted - {id};
        i := i + 1;
      }
      assert ids[i..] == [];
      NothingToForget(Resident());
    }

    /** One uninterrupted drain pass: reads and writes the bodies of its window in order, up to
        its turn and byte limits, then completes the written ones with one append. `outcomes`
        says which reads and writes succeed; `sent` are the bodies handed to the writer. */
    method Drain(maxTurns: int, outcomes: seq<Delivery>, io: Io) returns (attempted: nat, sent: seq<Turn>, done: seq<string>)
      requires Valid() && |outcomes| >= |pending.keys|
      modifies this
      ensures Valid() && seeds == old(seeds)
      ensures attempted <= |old(pending).keys|
      ensures Bodies(codec, old(log).acked, sent, Handed(old(pending).keys[..attempted], outcomes[..attempted]), old(pending).at)
      ensures done == Written(old(pending).keys[..attempted], outcomes[..attempted])
      ensures State() == Execute(codec, old(State()), Complete(done), io).0
      ensures log == NextLog(codec, old(State()), old(log), Complete(done), io)
      ensures attempted == |old(pending).keys| || attempted >= maxTurns || attempted >= 256
        || exists id :: id in old(pending).at && old(pending).at[id].bytes > 256 * 1024
    {
      hide Agrees, Execute, NextLog, Replay, Written, Handed, Whole, ReadTurn;
      ghost var before := State();
      AgreesPending(codec, before, log, seeds);
      var window := pending;
      attempted, sent, done := 0, [], [];
      var bytes := 0;
      assert window.keys[..0] == [] && outcomes[..0] == [];
      NoneWritten();
      while attempted < |window.keys|
        invariant 0 <= attempted <= |window.keys|
        invariant Valid() && State() == before && log == old(log) && seeds == old(seeds)
        invariant done == Written(window.keys[..attempted], outcomes[..attempted])
        invariant Bodies(codec, log.acked, sent, Handed(window.keys[..attempted], outcomes[..attempted]), window.at)
        invariant (forall id :: id in window.at ==> window.at[id].bytes <= 256 * 1024) ==> bytes <= attempted * 256 * 1024
      {
        var id := window.keys[attempted];
        assert id in window.keys;
        var entry := window.at[id];
        if attempted >= maxTurns || attempted >= 1_000 || bytes + entry.bytes > 64 * 1024 * 1024 {
          break;
        }
        WrittenSnoc(window.keys, outcomes, attempted);
        StillReads(codec, before, log, seeds, id);
        if !outcomes[attempted].Unread? {
          sent := sent + [ReadTurn(codec, file, entry).value];
        }
        if outcomes[attempted].Delivered? {
          done := done + [id];
        } else {
          persistFailures := persistFailures + 1;
        }
        bytes := bytes + entry.bytes;
        attempted := attempted + 1;
      }
      CompleteDone(done, io);
    }

    /** The end of a pass: one append of the done lines, then the ids leave the map. */
    method CompleteDone(done: seq<string>, io: Io)
      requires Valid()
      modifies this
      ensures Valid() && seeds == old(seeds)
      ensures State() == Execute(codec, old(State()), Complete(done), io).0
      ensures log == NextLog(codec, old(State()), old(log), Complete(done), io)
    {
      hide Agrees, NextLog, Execute;
      ghost var op := Complete(done);
      ghost var before := State();
      AgreesPending(codec, before, log, seeds);
      ExecuteKeeps(codec, before, log, seeds, op, io);
      var ok := WriteDone(done, io);
      if !ok {
        persistFailures := persistFailures + |done|;
      }
      log := NextLog(codec, before, log, op, io);
    }

    method WriteDone(done: seq<string>, io: Io) returns (ok: bool)
      requires pending.Valid()
      modifies this`file, this`rollbackFailed, this`pending, this`completed
      ensures (State(), ok) == Execute(codec, old(State()), Complete(done), io)
      ensures |pending.keys| + completed == |old(pending).keys| + old(completed)
    {
      hide Eligible, DoneEntries, RecordDone, AppendBytes;
      var eligible := Eligible(Resident(), done);
      DoneShape(eligible);
      ok := true;
      if eligible != [] {
        var places;
        ok, places := AppendLines(DoneEntries(eligible), io);
        if ok {
          RemoveDone(eligible);
        }
      }
    }

    method RemoveDone(ids: seq<string>)
      requires pending.Valid()
      modifies this`pending, this`completed
      ensures Resident() == RecordDone(old(Resident()), ids)
      ensures |pending.keys| + completed == |old(pending).keys| + old(completed)
    {
      var i := 0;
      assert ids[0..] == ids;
      while i < |ids|
        invariant 0 <= i <= |ids| && pending.Valid()
        invariant |pending.keys| + completed == |old(pending).keys| + old(completed)
        invariant RecordDone(Resident(), ids[i..]) == RecordDone(old(Resident()), ids)
      {
        assert ids[i..][0] == ids[i] && ids[i..][1..] == ids[i + 1..];
        pending.DeleteValid(ids[i]);
        completed := completed + if ids[i] in pending.at then 1 else 0;
        pending := pending.Delete(ids[i]);
        i := i + 1;
      }
      assert ids[i..] == [];
    }
  }

  lemma AgreesPending(c: Codec, s: Spool, log: Log, seeds: set<string>)
    requires Agrees(c, s, log, seeds)
    ensures s.ix.pending.Valid()
  {
    AgreesCoherent(c, s, log, seeds);
  }

  lemma ExecuteKeeps(c: Codec, s: Spool, log: Log, seeds: set<string>, op: Op, io: Io)
    requires Agrees(c, s, log, seeds)
    ensures Agrees(c, Execute(c, s, op, io).0, NextLog(c, s, log, op, io), seeds)
  {
    ExecuteAgrees(c, s, log, seeds, op, io);
  }

  lemma NoPuts(c: Codec, ix: Index, now: string, offset: nat)
    ensures RecordPuts(c, ix, [], now, offset) == ix
  {
  }

  /** Without anything to put or mark an operation does nothing. */
  lemma CaptureIdle(c: Codec, s: Spool, op: Op, io: Io)
    requires !op.Complete? && !op.Erase?
    ensures Puts(s.ix, op) == [] && Marks(s.ix, op) == [] ==>
      Execute(c, s, op, io) == (s, true) && forall log :: NextLog(c, s, log, op, io) == log
  {
    hide Puts, Marks;
  }

  lemma RecordNextPut(c: Codec, ix: Index, puts: seq<Turn>, i: nat, now: string, offset: nat)
    requires i < |puts|
    ensures var t := puts[i]; var length := |c.Line(Put(t, Some(now)))|;
      RecordPuts(c, ix, puts[i..], now, offset)
      == RecordPuts(c, ix.(known := ix.known + {t.id},
                           pending := ix.pending.Set(t.id, PendingOf(t, Some(now), offset, length))),
                    puts[i + 1..], now, offset + length)
  {
    assert puts[i..][0] == puts[i] && puts[i..][1..] == puts[i + 1..];
  }

  /** An operation that puts and marks: append its lines, then record them. */
  lemma ExecuteCapture(c: Codec, s: Spool, op: Op, io: Io)
    requires !op.Complete? && !op.Erase? && (Puts(s.ix, op) != [] || Marks(s.ix, op) != [])
    ensures Execute(c, s, op, io) == Published(c, s, Puts(s.ix, op), Marks(s.ix, op), Now(op), io)
  {
    hide Puts, Marks, RecordPuts, RecordMarks;
    EntriesSome(Puts(s.ix, op), Now(op), Marks(s.ix, op));
  }

  lemma AgreesMaps(c: Codec, s: Spool, log: Log, seeds: set<string>)
    requires Agrees(c, s, log, seeds)
    ensures SameMaps(s.ix, Replay(c, Fresh(seeds), log.acked, 0))
  {
  }

  lemma StaysUnlatched(c: Codec, s: Spool, log: Log, read: nat)
    requires Starting(c, s, log, read)
    ensures !s.latched
  {
  }
}
