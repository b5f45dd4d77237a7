/** The journal of the source-turn spool: its entries, their bytes, and what a replay of
    those bytes rebuilds (src/capture/source-turn-spool.ts). */
module SpoolJournal {
  import opened OrderedMap

  type byte = b: int | 0 <= b < 256
  const NEWLINE: byte := 10

  /** A hex digest, hence never the empty string. */
  type Hmac = h: string | h != "" witness "0"

  /** The fields of a source turn that the spool reads; `content` is its UTF-8 form. */
  datatype Turn = Turn(id: string, userId: string, sessionId: string, hmac: Hmac,
                       keyFingerprint: string, occurredAt: string, content: seq<byte>)

  datatype Entry =
    | Put(turn: Turn, queuedAt: Option<string>)
    | Extracted(id: string, marker: Marker)
    | Done(id: string)
    | Forget(id: string)

  datatype Marker = Marker(userId: string, sessionId: string, hmac: Hmac, keyFingerprint: string)

  datatype Pending = Pending(offset: nat, length: nat, queuedAt: string, bytes: nat,
                             userId: string, sessionId: string, hmac: Hmac)

  /** The resident maps of the spool. */
  datatype Index = Index(pending: OMap<string, Pending>, known: set<string>,
                         forgotten: set<string>, extracted: map<string, Marker>)

  /** The maps of a new process whose known ids were seeded from the database. */
  function Fresh(seeds: set<string>): Index {
    Index(OMap([], map[]), seeds, {}, map[])
  }

  /** JSON text of one entry. What the spool relies on: no raw newline inside a line, and
      parsing undoes printing, also when the line still ends in its newline. */
  datatype Codec = Codec(encode: Entry -> seq<byte>, decode: seq<byte> -> Option<Entry>) {
    ghost predicate Valid() {
      forall e :: RoundTrips(e)
    }

    ghost predicate RoundTrips(e: Entry) {
      NEWLINE !in encode(e) && decode(encode(e)) == Some(e) && decode(encode(e) + [NEWLINE]) == Some(e)
    }

    function Line(e: Entry): seq<byte> {
      encode(e) + [NEWLINE]
    }

    function Bytes(es: seq<Entry>): seq<byte> {
      if es == [] then [] else Line(es[0]) + Bytes(es[1..])
    }
  }

  // ---------------------------------------------------------------- replay

  /** One journal line, as start-up applies it. */
  function Apply(ix: Index, e: Entry, offset: nat, length: nat): Index {
    match e
    case Put(turn, queuedAt) =>
      if turn.id in ix.forgotten then ix
      else ix.(known := ix.known + {turn.id},
               pending := ix.pending.Set(turn.id, PendingOf(turn, queuedAt, offset, length)))
    case Extracted(id, marker) =>
      ix.(known := ix.known + {id},
          extracted := if id in ix.forgotten then ix.extracted else ix.extracted[id := marker])
    case Done(id) =>
      ix.(known := ix.known + {id}, pending := ix.pending.Delete(id))
    case Forget(id) =>
      Index(ix.pending.Delete(id), ix.known + {id}, ix.forgotten + {id}, ix.extracted - {id})
  }

  function PendingOf(turn: Turn, queuedAt: Option<string>, offset: nat, length: nat): Pending {
    Pending(offset, length, if queuedAt.Some? then queuedAt.value else turn.occurredAt,
            |turn.content|, turn.userId, turn.sessionId, turn.hmac)
  }

  /** Replays `es`, whose first line starts at `offset`. */
  function Replay(c: Codec, ix: Index, es: seq<Entry>, offset: nat): Index
    decreases |es|
  {
    if es == [] then ix
    else
      var length := |c.Line(es[0])|;
      Replay(c, Apply(ix, es[0], offset, length), es[1..], offset + length)
  }

  lemma {:induction false} BytesAppend(c: Codec, xs: seq<Entry>, ys: seq<Entry>)
    ensures c.Bytes(xs + ys) == c.Bytes(xs) + c.Bytes(ys)
  {
    if xs == [] {
      assert xs + ys == ys;
    } else {
      assert (xs + ys)[1..] == xs[1..] + ys;
      BytesAppend(c, xs[1..], ys);
    }
  }

  /** Replaying a journal and then a suffix of it is replaying the whole. */
  lemma {:induction false} ReplayAppend(c: Codec, ix: Index, xs: seq<Entry>, ys: seq<Entry>, offset: nat)
    ensures Replay(c, ix, xs + ys, offset)
         == Replay(c, Replay(c, ix, xs, offset), ys, offset + |c.Bytes(xs)|)
    decreases |xs|
  {
    hide Apply;
    if xs == [] {
      assert xs + ys == ys;
    } else {
      assert (xs + ys)[1..] == xs[1..] + ys;
      var length := |c.Line(xs[0])|;
      ReplayAppend(c, Apply(ix, xs[0], offset, length), xs[1..], ys, offset + length);
    }
  }

  // ---------------------------------------------------------------- what every replay keeps

  /** Forgotten ids hold nothing, everything resident is known, and the map is well formed. */
  ghost predicate Coherent(ix: Index) {
    && ix.pending.Valid()
    && (forall id :: id in ix.forgotten ==> id !in ix.pending.at && id !in ix.extracted)
    && ix.pending.at.Keys <= ix.known
    && ix.forgotten <= ix.known
    && ix.extracted.Keys <= ix.known
  }

  lemma ApplyCoherent(ix: Index, e: Entry, offset: nat, length: nat)
    requires Coherent(ix)
    ensures Coherent(Apply(ix, e, offset, length))
  {
    match e
    case Put(turn, q) => ix.pending.SetValid(turn.id, PendingOf(turn, q, offset, length));
    case Extracted(id, m) =>
    case Done(id) => ix.pending.DeleteValid(id);
    case Forget(id) => ix.pending.DeleteValid(id);
  }

  lemma {:induction false} ReplayCoherent(c: Codec, ix: Index, es: seq<Entry>, offset: nat)
    requires Coherent(ix)
    ensures Coherent(Replay(c, ix, es, offset))
    decreases |es|
  {
    if es != [] {
      var length := |c.Line(es[0])|;
      ApplyCoherent(ix, es[0], offset, length);
      ReplayCoherent(c, Apply(ix, es[0], offset, length), es[1..], offset + length);
    }
  }

  /** Tombstones only accumulate, whatever follows them in the journal. */
  lemma {:induction false} ReplayForgetsForever(c: Codec, ix: Index, es: seq<Entry>, offset: nat)
    ensures ix.forgotten <= Replay(c, ix, es, offset).forgotten
    decreases |es|
  {
    if es != [] {
      var length := |c.Line(es[0])|;
      ReplayForgetsForever(c, Apply(ix, es[0], offset, length), es[1..], offset + length);
    }
  }

  /** Seeding known ids late is the same as starting with them. */
  lemma {:induction false} ReplaySeeds(c: Codec, ix: Index, es: seq<Entry>, offset: nat, seeds: set<string>)
    ensures Replay(c, ix.(known := ix.known + seeds), es, offset)
         == var r := Replay(c, ix, es, offset); r.(known := r.known + seeds)
    decreases |es|
  {
    if es != [] {
      var length := |c.Line(es[0])|;
      var seeded := ix.(known := ix.known + seeds);
      var next := Apply(ix, es[0], offset, length);
      ReplaySeeds(c, next, es[1..], offset + length, seeds);
      assert Apply(seeded, es[0], offset, length) == next.(known := next.known + seeds) by {
        forall id: string ensures ix.known + seeds + {id} == ix.known + {id} + seeds {}
      }
    }
  }

  // ---------------------------------------------------------------- offsets

  /** `file` holds the put line of `id` at the recorded offset. */
  ghost predicate Addresses(c: Codec, file: seq<byte>, id: string, p: Pending) {
    exists e :: IsPutOf(e, id, p) && p.length == |c.Line(e)|
      && p.offset + p.length <= |file| && file[p.offset..p.offset + p.length] == c.Line(e)
  }

  ghost predicate IsPutOf(e: Entry, id: string, p: Pending) {
    e.Put? && e.turn.id == id && p == PendingOf(e.turn, e.queuedAt, p.offset, p.length)
  }

  ghost predicate AllAddress(c: Codec, file: seq<byte>, ix: Index) {
    forall id :: id in ix.pending.at ==> Addresses(c, file, id, ix.pending.at[id])
  }

  lemma AddressesGrow(c: Codec, file: seq<byte>, more: seq<byte>, id: string, p: Pending)
    requires Addresses(c, file, id, p)
    ensures Addresses(c, file + more, id, p)
  {
    var e :| IsPutOf(e, id, p) && p.length == |c.Line(e)|
          && p.offset + p.length <= |file| && file[p.offset..p.offset + p.length] == c.Line(e);
    assert (file + more)[p.offset..p.offset + p.length] == file[p.offset..p.offset + p.length];
  }

  lemma ApplyAddresses(c: Codec, ix: Index, file: seq<byte>, e: Entry)
    requires AllAddress(c, file, ix)
    ensures AllAddress(c, file + c.Line(e), Apply(ix, e, |file|, |c.Line(e)|))
  {
    hide Addresses;
    var line := c.Line(e);
    var next := Apply(ix, e, |file|, |line|);
    forall id | id in next.pending.at
      ensures Addresses(c, file + line, id, next.pending.at[id])
    {
      if e.Put? && id == e.turn.id && id !in ix.forgotten {
        AddressesNew(c, file, e);
      } else {
        AddressesGrow(c, file, line, id, ix.pending.at[id]);
      }
    }
  }

  lemma AddressesNew(c: Codec, file: seq<byte>, e: Entry)
    requires e.Put?
    ensures Addresses(c, file + c.Line(e), e.turn.id, PendingOf(e.turn, e.queuedAt, |file|, |c.Line(e)|))
  {
    var line := c.Line(e);
    assert (file + line)[|file|..|file| + |line|] == line;
    assert IsPutOf(e, e.turn.id, PendingOf(e.turn, e.queuedAt, |file|, |line|));
  }

  /** Every offset a replay records addresses the put line of its own id. */
  lemma {:induction false} ReplayAddresses(c: Codec, ix: Index, file: seq<byte>, es: seq<Entry>)
    requires AllAddress(c, file, ix)
    ensures AllAddress(c, file + c.Bytes(es), Replay(c, ix, es, |file|))
    decreases |es|
  {
    if es == [] {
      assert file + [] == file;
    } else {
      assert file + c.Line(es[0]) + c.Bytes(es[1..]) == file + c.Bytes(es);
      hide Apply, AllAddress;
      var line := c.Line(es[0]);
      ApplyAddresses(c, ix, file, es[0]);
      ReplayAddresses(c, Apply(ix, es[0], |file|, |line|), file + line, es[1..]);
    }
  }

  /** Reading the line back at a recorded offset gives a put of that very id and hmac. */
  lemma ReadBack(c: Codec, file: seq<byte>, id: string, p: Pending)
    requires c.Valid() && Addresses(c, file, id, p)
    ensures p.offset + p.length <= |file|
    ensures var e := c.decode(file[p.offset..p.offset + p.length]);
            e.Some? && e.value.Put? && e.value.turn.id == id && e.value.turn.hmac == p.hmac
  {
    var e :| IsPutOf(e, id, p) && p.length == |c.Line(e)|
          && p.offset + p.length <= |file| && file[p.offset..p.offset + p.length] == c.Line(e);
    assert c.RoundTrips(e);
  }

  // ---------------------------------------------------------------- recovery of a torn file

  /** What start-up makes of a file: everything parsed, or the first line that does not parse. */
  datatype Recovery =
    | Recovered(ix: Index, offset: nat, torn: seq<byte>)
    | Unparsable(ix: Index, offset: nat)

  function FirstNewline(bytes: seq<byte>): (i: nat)
    ensures i <= |bytes|
    ensures NEWLINE !in bytes[..i]
    ensures i < |bytes| ==> bytes[i] == NEWLINE
  {
    if bytes == [] || bytes[0] == NEWLINE then 0
    else
      var i := 1 + FirstNewline(bytes[1..]);
      assert bytes[..i] == [bytes[0]] + bytes[1..][..i - 1];
      i
  }

  function Recover(c: Codec, ix: Index, bytes: seq<byte>, offset: nat): Recovery
    decreases |bytes|
  {
    var i := FirstNewline(bytes);
    if i == |bytes| then Recovered(ix, offset, bytes)
    else
      match c.decode(bytes[..i])
      case None => Unparsable(ix, offset)
      case Some(e) => Recover(c, Apply(ix, e, offset, i + 1), bytes[i + 1..], offset + i + 1)
  }

  lemma FirstNewlineIs(bytes: seq<byte>, i: nat)
    requires i <= |bytes| && NEWLINE !in bytes[..i] && (i < |bytes| ==> bytes[i] == NEWLINE)
    ensures FirstNewline(bytes) == i
  {
    var j := FirstNewline(bytes);
    assert forall k :: 0 <= k < i ==> bytes[k] == bytes[..i][k];
    assert forall k :: 0 <= k < j ==> bytes[k] == bytes[..j][k];
  }

  lemma RecoverOne(c: Codec, ix: Index, e: Entry, bytes: seq<byte>, rest: seq<byte>, offset: nat)
    requires c.Valid() && bytes == c.Line(e) + rest
    ensures Recover(c, ix, bytes, offset)
         == Recover(c, Apply(ix, e, offset, |c.Line(e)|), rest, offset + |c.Line(e)|)
  {
    hide Apply;
    assert c.RoundTrips(e);
    var text := c.encode(e);
    assert bytes[..|text|] == text;
    FirstNewlineIs(bytes, |text|);
    assert bytes[|text| + 1..] == rest;
  }

  /** Whole lines followed by a torn one: the whole lines are replayed, the rest is reported. */
  lemma {:induction false} RecoverLines(c: Codec, ix: Index, es: seq<Entry>, torn: seq<byte>,
                                        bytes: seq<byte>, offset: nat)
    requires c.Valid() && NEWLINE !in torn && bytes == c.Bytes(es) + torn
    ensures Recover(c, ix, bytes, offset)
         == Recovered(Replay(c, ix, es, offset), offset + |c.Bytes(es)|, torn)
    decreases |es|
  {
    hide Apply;
    if es == [] {
      assert bytes == torn;
      FirstNewlineIs(torn, |torn|);
    } else {
      var length := |c.Line(es[0])|;
      var rest := c.Bytes(es[1..]) + torn;
      assert bytes == c.Line(es[0]) + rest;
      RecoverOne(c, ix, es[0], bytes, rest, offset);
      var next := Apply(ix, es[0], offset, length);
      RecoverLines(c, next, es[1..], torn, rest, offset + length);
    }
  }

  /** How many whole lines of `es` lie in its first `cut` bytes. */
  function WholeLines(c: Codec, es: seq<Entry>, cut: nat): (n: nat)
    ensures n <= |es|
    ensures cut >= |c.Bytes(es)| ==> n == |es|
  {
    if es == [] || cut < |c.Line(es[0])| then 0
    else 1 + WholeLines(c, es[1..], cut - |c.Line(es[0])|)
  }

  /** The first `cut` bytes of a batch are its whole lines and a rest without a newline. */
  lemma {:induction false} CutBatch(c: Codec, es: seq<Entry>, cut: nat) returns (torn: seq<byte>)
    requires c.Valid() && cut <= |c.Bytes(es)|
    ensures c.Bytes(es)[..cut] == c.Bytes(es[..WholeLines(c, es, cut)]) + torn
    ensures NEWLINE !in torn
    ensures torn == [] || WholeLines(c, es, cut) < |es|
    decreases |es|
  {
    if es == [] {
      torn := [];
    } else {
      var line := c.Line(es[0]);
      if cut < |line| {
        torn := line[..cut];
        assert c.RoundTrips(es[0]);
        assert torn == c.encode(es[0])[..cut];
        assert c.Bytes(es)[..cut] == torn;
        assert es[..0] == [];
      } else {
        torn := CutBatch(c, es[1..], cut - |line|);
        var n := WholeLines(c, es[1..], cut - |line|);
        assert es[..n + 1][1..] == es[1..][..n];
        assert c.Bytes(es)[..cut] == line + c.Bytes(es[1..])[..cut - |line|];
      }
    }
  }

  /** A crash that leaves any prefix of a batch after an acknowledged journal: start-up never
      fails, keeps every acknowledged entry, adds the batch's whole lines and nothing else, and
      the offset it truncates to is a line boundary. */
  lemma CrashRecovery(c: Codec, ix: Index, log: seq<Entry>, batch: seq<Entry>, cut: nat)
    requires c.Valid() && cut <= |c.Bytes(batch)|
    ensures var kept := log + batch[..WholeLines(c, batch, cut)];
            var file := c.Bytes(log) + c.Bytes(batch)[..cut];
            var r := Recover(c, ix, file, 0);
            && r.Recovered?
            && r.ix == Replay(c, ix, kept, 0)
            && r.offset <= |file|
            && file[..r.offset] == c.Bytes(kept)
            && (r.torn == [] <==> r.offset == |file|)
  {
    hide Apply, WholeLines, Replay, Recover;
    var kept := log + batch[..WholeLines(c, batch, cut)];
    var torn := CutBatch(c, batch, cut);
    BytesAppend(c, log, batch[..WholeLines(c, batch, cut)]);
    var file := c.Bytes(log) + c.Bytes(batch)[..cut];
    assert file == c.Bytes(kept) + torn;
    RecoverLines(c, ix, kept, torn, file, 0);
  }
}
