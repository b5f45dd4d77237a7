/** The group-commit writer against its simple form: one request at a time
    (src/capture/source-turn-spool.ts, flushAppends). */
module GroupCommit {
  import opened OrderedMap
  import opened SpoolJournal
  import opened SpoolOps

  /** The simple form: every request is a batch of its own, in queue order, each synced. */
  function OneByOne(c: Codec, s: Spool, batch: seq<seq<Turn>>, nows: seq<string>): (r: (Spool, seq<Verdict>))
    requires |nows| == |batch|
    decreases |batch|
  {
    if batch == [] then (s, [])
    else
      var (s', ok) := Execute(c, s, Flush([batch[0]], nows[0]), Synced);
      var (s'', vs) := OneByOne(c, s', batch[1..], nows[1..]);
      (s'', Verdicts(s.ix, batch[0], NOTHING) + vs)
  }

  /** Two writers in the middle of their work that every further turn meets alike. */
  ghost predicate Alike(ix: Index, staged: OMap<string, Turn>, ix': Index, staged': OMap<string, Turn>) {
    && ix.forgotten == ix'.forgotten
    && ix.extracted == ix'.extracted
    && (forall id :: PriorHmac(ix, staged, id) == PriorHmac(ix', staged', id))
    && ix.pending.keys + staged.keys == ix'.pending.keys + staged'.keys
  }

  ghost predicate Staging(ix: Index, staged: OMap<string, Turn>) {
    && ix.pending.Valid() && Stageable(ix, staged)
    && (forall id :: id in staged.at ==> id !in ix.pending.at)
  }

  lemma StageOneStaging(ix: Index, staged: OMap<string, Turn>, t: Turn)
    requires Staging(ix, staged)
    ensures Staging(ix, StageOne(ix, staged, t))
  {
    staged.SetValid(t.id, t);
  }

  lemma StageOneAlike(ix: Index, staged: OMap<string, Turn>, ix': Index, staged': OMap<string, Turn>, t: Turn)
    requires Alike(ix, staged, ix', staged')
    ensures Judge(ix, staged, t) == Judge(ix', staged', t)
    ensures Alike(ix, StageOne(ix, staged, t), ix', StageOne(ix', staged', t))
  {
    assert PriorHmac(ix, staged, t.id) == PriorHmac(ix', staged', t.id);
    var next, next' := StageOne(ix, staged, t), StageOne(ix', staged', t);
    if Judge(ix, staged, t).first {
      assert ix.pending.keys + (staged.keys + [t.id]) == (ix.pending.keys + staged.keys) + [t.id];
      assert ix'.pending.keys + (staged'.keys + [t.id]) == (ix'.pending.keys + staged'.keys) + [t.id];
      forall id
        ensures PriorHmac(ix, next, id) == PriorHmac(ix', next', id)
      {
        assert PriorHmac(ix, staged, id) == PriorHmac(ix', staged', id);
      }
    }
  }

  lemma {:induction false} TurnsAlike(ix: Index, staged: OMap<string, Turn>, ix': Index, staged': OMap<string, Turn>,
                                      turns: seq<Turn>)
    requires Alike(ix, staged, ix', staged') && Staging(ix, staged) && Staging(ix', staged')
    ensures Verdicts(ix, turns, staged) == Verdicts(ix', turns, staged')
    ensures Alike(ix, StageAppends(ix, turns, staged), ix', StageAppends(ix', turns, staged'))
    ensures Staging(ix, StageAppends(ix, turns, staged)) && Staging(ix', StageAppends(ix', turns, staged'))
    decreases |turns|
  {
    if turns != [] {
      hide Alike, Staging;
      StageOneAlike(ix, staged, ix', staged', turns[0]);
      StageOneStaging(ix, staged, turns[0]);
      StageOneStaging(ix', staged', turns[0]);
      TurnsAlike(ix, StageOne(ix, staged, turns[0]), ix', StageOne(ix', staged', turns[0]), turns[1..]);
    }
  }

  lemma {:induction false} VerdictsAppend(ix: Index, xs: seq<Turn>, ys: seq<Turn>, staged: OMap<string, Turn>)
    ensures Verdicts(ix, xs + ys, staged) == Verdicts(ix, xs, staged) + Verdicts(ix, ys, StageAppends(ix, xs, staged))
    ensures StageAppends(ix, xs + ys, staged) == StageAppends(ix, ys, StageAppends(ix, xs, staged))
    decreases |xs|
  {
    if xs == [] {
      assert xs + ys == ys;
    } else {
      assert (xs + ys)[1..] == xs[1..] + ys;
      VerdictsAppend(ix, xs[1..], ys, StageOne(ix, staged, xs[0]));
    }
  }

  // ---------------------------------------------------------------- recording what was staged

  ghost predicate NewIds(ix: Index, turns: seq<Turn>) {
    && (forall i :: 0 <= i < |turns| ==> turns[i].id !in ix.pending.at)
    && (forall i, j :: 0 <= i < j < |turns| ==> turns[i].id != turns[j].id)
  }

  function IdsOf(turns: seq<Turn>): (r: seq<string>)
    ensures |r| == |turns| && forall i :: 0 <= i < |turns| ==> r[i] == turns[i].id
  {
    if turns == [] then [] else [turns[0].id] + IdsOf(turns[1..])
  }

  function PutOne(c: Codec, ix: Index, t: Turn, now: string, offset: nat): Index {
    var length := |c.Line(Put(t, Some(now)))|;
    ix.(known := ix.known + {t.id}, pending := ix.pending.Set(t.id, PendingOf(t, Some(now), offset, length)))
  }

  lemma PutOneNew(c: Codec, ix: Index, turns: seq<Turn>, now: string, offset: nat)
    requires turns != [] && ix.pending.Valid() && NewIds(ix, turns)
    ensures var next := PutOne(c, ix, turns[0], now, offset);
      && next.pending.Valid() && NewIds(next, turns[1..])
      && next.pending.keys == ix.pending.keys + [turns[0].id]
      && turns[0].id in next.pending.at && next.pending.at[turns[0].id].hmac == turns[0].hmac
      && (forall id :: id in ix.pending.at ==> id in next.pending.at && next.pending.at[id] == ix.pending.at[id])
      && next.forgotten == ix.forgotten && next.extracted == ix.extracted
  {
    var t := turns[0];
    ix.pending.SetValid(t.id, PendingOf(t, Some(now), offset, |c.Line(Put(t, Some(now)))|));
  }

  lemma RecordStep(c: Codec, ix: Index, turns: seq<Turn>, now: string, offset: nat) returns (next: Index, after: nat)
    requires turns != [] && ix.pending.Valid() && NewIds(ix, turns)
    ensures next == PutOne(c, ix, turns[0], now, offset)
    ensures RecordPuts(c, ix, turns, now, offset) == RecordPuts(c, next, turns[1..], now, after)
    ensures next.pending.Valid() && NewIds(next, turns[1..])
  {
    next, after := PutOne(c, ix, turns[0], now, offset), offset + |c.Line(Put(turns[0], Some(now)))|;
    PutOneNew(c, ix, turns, now, offset);
  }

  lemma Regroup<T>(a: seq<T>, x: T, b: seq<T>)
    ensures (a + [x]) + b == a + ([x] + b)
  {
  }

  /** Recording new turns appends their ids, in order. */
  lemma {:induction false} RecordNewKeys(c: Codec, ix: Index, turns: seq<Turn>, now: string, offset: nat)
    requires ix.pending.Valid() && NewIds(ix, turns)
    ensures var r := RecordPuts(c, ix, turns, now, offset);
      && r.pending.Valid() && r.pending.keys == ix.pending.keys + IdsOf(turns)
      && r.forgotten == ix.forgotten && r.extracted == ix.extracted
    decreases |turns|
  {
    if turns == [] {
      assert ix.pending.keys + [] == ix.pending.keys;
    } else {
      PutOneNew(c, ix, turns, now, offset);
      var next, after := RecordStep(c, ix, turns, now, offset);
      hide PutOne, NewIds, RecordPuts;
      RecordNewKeys(c, next, turns[1..], now, after);
      Regroup(ix.pending.keys, turns[0].id, IdsOf(turns[1..]));
    }
  }

  /** They are pending with their hmacs, and no other entry changes. */
  lemma {:induction false} RecordNewAt(c: Codec, ix: Index, turns: seq<Turn>, now: string, offset: nat)
    requires ix.pending.Valid() && NewIds(ix, turns)
    ensures var r := RecordPuts(c, ix, turns, now, offset);
      && (forall t :: t in turns ==> t.id in r.pending.at && r.pending.at[t.id].hmac == t.hmac)
      && (forall id :: id in ix.pending.at ==> id in r.pending.at && r.pending.at[id] == ix.pending.at[id])
    decreases |turns|
  {
    if turns != [] {
      PutOneNew(c, ix, turns, now, offset);
      var next, after := RecordStep(c, ix, turns, now, offset);
      hide PutOne, NewIds, RecordPuts;
      RecordNewAt(c, next, turns[1..], now, after);
      var r := RecordPuts(c, ix, turns, now, offset);
      forall t | t in turns
        ensures t.id in r.pending.at && r.pending.at[t.id].hmac == t.hmac
      {
        assert t == turns[0] || t in turns[1..];
        assert t == turns[0] ==> t.id in next.pending.at;
      }
    }
  }

  lemma ListedStaged(ix: Index, staged: OMap<string, Turn>)
    requires Staging(ix, staged)
    ensures NewIds(ix, Listed(staged)) && IdsOf(Listed(staged)) == staged.keys
    ensures forall id :: id in staged.at ==> staged.at[id] in Listed(staged)
    ensures |Listed(staged)| == |staged.keys|
  {
    ListedFromIn(staged.keys, staged.at);
    hide ListedFrom;
    var l := Listed(staged);
    forall i | 0 <= i < |l|
      ensures l[i].id == staged.keys[i] && l[i].id in staged.at
    {
      assert staged.keys[i] in staged.keys;
    }
    forall id | id in staged.at
      ensures staged.at[id] in l
    {
      assert id in staged.keys;
      var i :| 0 <= i < |staged.keys| && staged.keys[i] == id;
      assert l[i] == staged.at[id];
    }
  }

  lemma FlushResult(c: Codec, s: Spool, batch: seq<seq<Turn>>, now: string)
    requires !s.latched
    ensures var (s', ok) := Execute(c, s, Flush(batch, now), Synced);
      var puts := Listed(StageAppends(s.ix, Flatten(batch), NOTHING));
      ok && !s'.latched && s'.ix == RecordPuts(c, s.ix, puts, now, |s.file|)
  {
    hide StageAppends, Listed, Flatten;
    var op, ix := Flush(batch, now), s.ix;
    var puts := Listed(StageAppends(ix, Flatten(batch), NOTHING));
    assert Puts(ix, op) == puts && Marks(ix, op) == [] && MarkEntries([]) == [];
    assert forall r: Index :: RecordMarks(r, []) == r;
    assert Plan(ix, op) == PutEntries(puts, now) + [];
  }

  /** A synced flush makes the staged turns pending: later turns meet them there. */
  lemma FlushAbsorbs(c: Codec, s: Spool, batch: seq<seq<Turn>>, now: string)
    requires s.ix.pending.Valid() && !s.latched
    ensures var (s', ok) := Execute(c, s, Flush(batch, now), Synced);
      var staged := StageAppends(s.ix, Flatten(batch), NOTHING);
      && ok && !s'.latched && s'.ix.pending.Valid()
      && Staging(s.ix, staged)
      && Alike(s.ix, staged, s'.ix, NOTHING)
  {
    var ix, turns := s.ix, Flatten(batch);
    var staged := StageAppends(ix, turns, NOTHING);
    assert Staging(ix, NOTHING) && Alike(ix, NOTHING, ix, NOTHING);
    TurnsAlike(ix, NOTHING, ix, NOTHING, turns);
    hide Execute, StageAppends, Staging, Alike, Listed, RecordPuts, NewIds;
    FlushResult(c, s, batch, now);
    ListedStaged(ix, staged);
    RecordNewKeys(c, ix, Listed(staged), now, |s.file|);
    RecordNewAt(c, ix, Listed(staged), now, |s.file|);
    var r := RecordPuts(c, ix, Listed(staged), now, |s.file|);
    forall id | id in staged.at
      ensures id in r.pending.at && r.pending.at[id].hmac == staged.at[id].hmac
    {
      StagedIds(ix, staged, id);
      assert staged.at[id] in Listed(staged);
    }
    RecordedAlike(ix, staged, r);
  }

  lemma StagedIds(ix: Index, staged: OMap<string, Turn>, id: string)
    requires Staging(ix, staged) && id in staged.at
    ensures staged.at[id].id == id
  {
  }

  lemma RecordedAlike(ix: Index, staged: OMap<string, Turn>, r: Index)
    requires Staging(ix, staged) && r.pending.Valid()
    requires r.pending.keys == ix.pending.keys + staged.keys
    requires r.forgotten == ix.forgotten && r.extracted == ix.extracted
    requires forall id :: id in staged.at ==> id in r.pending.at && r.pending.at[id].hmac == staged.at[id].hmac
    requires forall id :: id in ix.pending.at ==> id in r.pending.at && r.pending.at[id] == ix.pending.at[id]
    ensures Alike(ix, staged, r, NOTHING)
  {
    forall id
      ensures PriorHmac(ix, staged, id) == PriorHmac(r, NOTHING, id)
    {
      assert id in r.pending.at <==> id in r.pending.keys;
      assert id in r.pending.keys <==> id in ix.pending.keys || id in staged.keys;
    }
    assert r.pending.keys + [] == r.pending.keys;
  }

  // ---------------------------------------------------------------- the refinement

  lemma {:induction false} RestAlike(c: Codec, ix: Index, staged: OMap<string, Turn>, s: Spool,
                                     batch: seq<seq<Turn>>, nows: seq<string>)
    requires |nows| == |batch| && s.ix.pending.Valid() && !s.latched
    requires Staging(ix, staged) && Alike(ix, staged, s.ix, NOTHING)
    ensures var (s', vs) := OneByOne(c, s, batch, nows);
      && vs == Verdicts(ix, Flatten(batch), staged)
      && Alike(ix, StageAppends(ix, Flatten(batch), staged), s'.ix, NOTHING)
    decreases |batch|
  {
    if batch != [] {
      var r := batch[0];
      assert Flatten([r]) == r + Flatten([]) == r;
      assert Staging(s.ix, NOTHING);
      TurnsAlike(ix, staged, s.ix, NOTHING, r);
      FlushAbsorbs(c, s, [r], nows[0]);
      var s1 := Execute(c, s, Flush([r], nows[0]), Synced).0;
      AlikeTransitive(ix, StageAppends(ix, r, staged), s.ix, StageAppends(s.ix, r, NOTHING), s1.ix, NOTHING);
      hide Alike, Staging, Execute;
      RestAlike(c, ix, StageAppends(ix, r, staged), s1, batch[1..], nows[1..]);
      VerdictsAppend(ix, r, Flatten(batch[1..]), staged);
    }
  }

  lemma AlikeTransitive(a: Index, sa: OMap<string, Turn>, b: Index, sb: OMap<string, Turn>,
                        d: Index, sd: OMap<string, Turn>)
    requires Alike(a, sa, b, sb) && Alike(b, sb, d, sd)
    ensures Alike(a, sa, d, sd)
  {
    forall id
      ensures PriorHmac(a, sa, id) == PriorHmac(d, sd, id)
    {
      assert PriorHmac(a, sa, id) == PriorHmac(b, sb, id);
    }
  }

  /** Group commit refines sequential appends: when the shared write succeeds, every request gets
      the accepted and fresh flags it would get alone, in queue order, and the same ids are pending
      in the same order with the same hmacs. */
  lemma GroupIsSequential(c: Codec, s: Spool, batch: seq<seq<Turn>>, now: string, nows: seq<string>)
    requires |nows| == |batch| && Coherent(s.ix) && !s.latched
    ensures var (g, ok) := Execute(c, s, Flush(batch, now), Synced);
      var (q, vs) := OneByOne(c, s, batch, nows);
      && ok
      && vs == Verdicts(s.ix, Flatten(batch), NOTHING)
      && g.ix.pending.keys == q.ix.pending.keys
      && (forall id :: id in g.ix.pending.at <==> id in q.ix.pending.at)
      && (forall id :: id in g.ix.pending.at ==> g.ix.pending.at[id].hmac == q.ix.pending.at[id].hmac)
      && g.ix.forgotten == q.ix.forgotten && g.ix.extracted == q.ix.extracted
  {
    var g := Execute(c, s, Flush(batch, now), Synced).0;
    var q := OneByOne(c, s, batch, nows).0;
    assert Staging(s.ix, NOTHING) && Alike(s.ix, NOTHING, s.ix, NOTHING);
    FlushAbsorbs(c, s, batch, now);
    RestAlike(c, s.ix, NOTHING, s, batch, nows);
    hide Execute, OneByOne;
    SamePending(s.ix, StageAppends(s.ix, Flatten(batch), NOTHING), g.ix, q.ix);
  }

  lemma SamePending(ix: Index, staged: OMap<string, Turn>, g: Index, q: Index)
    requires Alike(ix, staged, g, NOTHING) && Alike(ix, staged, q, NOTHING)
    ensures g.pending.keys == q.pending.keys && g.forgotten == q.forgotten && g.extracted == q.extracted
    ensures forall id :: id in g.pending.at <==> id in q.pending.at
    ensures forall id :: id in g.pending.at ==> g.pending.at[id].hmac == q.pending.at[id].hmac
  {
    assert g.pending.keys + [] == g.pending.keys && q.pending.keys + [] == q.pending.keys;
    forall id
      ensures (id in g.pending.at <==> id in q.pending.at)
           && (id in g.pending.at ==> g.pending.at[id].hmac == q.pending.at[id].hmac)
    {
      assert PriorHmac(ix, staged, id) == PriorHmac(g, NOTHING, id);
      assert PriorHmac(ix, staged, id) == PriorHmac(q, NOTHING, id);
    }
  }

  function Firsts(vs: seq<Verdict>): nat {
    if vs == [] then 0 else (if vs[0].first then 1 else 0) + Firsts(vs[1..])
  }

  lemma {:induction false} FirstsStaged(ix: Index, turns: seq<Turn>, staged: OMap<string, Turn>)
    requires Staging(ix, staged)
    ensures Firsts(Verdicts(ix, turns, staged)) + |staged.keys| == |StageAppends(ix, turns, staged).keys|
    decreases |turns|
  {
    if turns != [] {
      staged.SetValid(turns[0].id, turns[0]);
      StageOneStaging(ix, staged, turns[0]);
      FirstsStaged(ix, turns[1..], StageOne(ix, staged, turns[0]));
    }
  }

  /** Exactly one fresh flag is given out per put line of a batch. */
  lemma FreshPerPut(ix: Index, batch: seq<seq<Turn>>, now: string)
    requires Coherent(ix)
    ensures Firsts(Verdicts(ix, Flatten(batch), NOTHING)) == |Plan(ix, Flush(batch, now))|
  {
    var turns := Flatten(batch);
    assert Staging(ix, NOTHING);
    FirstsStaged(ix, turns, NOTHING);
    assert Alike(ix, NOTHING, ix, NOTHING);
    TurnsAlike(ix, NOTHING, ix, NOTHING, turns);
    ListedStaged(ix, StageAppends(ix, turns, NOTHING));
  }

  // ---------------------------------------------------------------- what acceptance means

  /** A turn judged acceptable is, once its batch is staged, pending or staged with its hmac. */
  lemma {:induction false} AcceptedIsStaged(ix: Index, turns: seq<Turn>, staged: OMap<string, Turn>, i: nat)
    requires i < |turns| && Verdicts(ix, turns, staged)[i].accepted
    ensures PriorHmac(ix, StageAppends(ix, turns, staged), turns[i].id) == Some(turns[i].hmac)
    decreases |turns|
  {
    var next := StageOne(ix, staged, turns[0]);
    if i == 0 {
      PriorStays(ix, turns[1..], next, turns[0].id);
    } else {
      AcceptedIsStaged(ix, turns[1..], next, i - 1);
    }
  }

  lemma {:induction false} PriorStays(ix: Index, turns: seq<Turn>, staged: OMap<string, Turn>, id: string)
    requires PriorHmac(ix, staged, id).Some?
    ensures PriorHmac(ix, StageAppends(ix, turns, staged), id) == PriorHmac(ix, staged, id)
    decreases |turns|
  {
    if turns != [] {
      PriorStays(ix, turns[1..], StageOne(ix, staged, turns[0]), id);
    }
  }

  /** Accepted means held: after the sync, the spool has that id pending with that hmac; and a
      turn is refused exactly when its id is forgotten or held with another hmac. */
  lemma AcceptedIsHeld(c: Codec, s: Spool, batch: seq<seq<Turn>>, now: string, i: nat)
    requires Coherent(s.ix) && !s.latched && i < |Flatten(batch)|
    ensures var s' := Execute(c, s, Flush(batch, now), Synced).0; var t := Flatten(batch)[i];
      Verdicts(s.ix, Flatten(batch), NOTHING)[i].accepted
      <==> t.id in s'.ix.pending.at && s'.ix.pending.at[t.id].hmac == t.hmac
  {
    var s' := Execute(c, s, Flush(batch, now), Synced).0;
    var turns := Flatten(batch);
    FlushAbsorbs(c, s, batch, now);
    var staged := StageAppends(s.ix, turns, NOTHING);
    assert PriorHmac(s.ix, staged, turns[i].id) == PriorHmac(s'.ix, NOTHING, turns[i].id);
    if Verdicts(s.ix, turns, NOTHING)[i].accepted {
      AcceptedIsStaged(s.ix, turns, NOTHING, i);
    } else {
      RefusedIsOther(s.ix, turns, NOTHING, i);
    }
  }

  lemma {:induction false} RefusedIsOther(ix: Index, turns: seq<Turn>, staged: OMap<string, Turn>, i: nat)
    requires i < |turns| && !Verdicts(ix, turns, staged)[i].accepted && Staging(ix, staged) && Coherent(ix)
    ensures PriorHmac(ix, StageAppends(ix, turns, staged), turns[i].id) != Some(turns[i].hmac)
    decreases |turns|
  {
    var next := StageOne(ix, staged, turns[0]);
    StageOneStaging(ix, staged, turns[0]);
    if i > 0 {
      RefusedIsOther(ix, turns[1..], next, i - 1);
    } else if turns[0].id in ix.forgotten {
      StageAppendsStageable(ix, turns, staged);
    } else {
      PriorStays(ix, turns[1..], next, turns[0].id);
    }
  }
}
