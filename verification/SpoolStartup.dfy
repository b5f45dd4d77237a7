/** Start-up that fails and is tried again over the maps its earlier attempts already filled
    (src/capture/source-turn-spool.ts:200-246). */
module SpoolStartup {
  import opened OrderedMap
  import opened Sequences
  import opened SpoolJournal

  // ---------------------------------------------------------------- maps up to order

  /** The same maps; only the order of the pending entries may differ. */
  ghost predicate SameMaps(a: Index, b: Index) {
    && a.pending.at == b.pending.at && a.known == b.known
    && a.forgotten == b.forgotten && a.extracted == b.extracted
    && a.pending.Valid() && b.pending.Valid()
  }

  lemma ApplySameMaps(a: Index, b: Index, e: Entry, offset: nat, length: nat)
    requires SameMaps(a, b)
    ensures SameMaps(Apply(a, e, offset, length), Apply(b, e, offset, length))
  {
    match e
    case Put(turn, q) =>
      a.pending.SetValid(turn.id, PendingOf(turn, q, offset, length));
      b.pending.SetValid(turn.id, PendingOf(turn, q, offset, length));
    case Extracted(id, m) =>
    case Done(id) =>
      a.pending.DeleteValid(id);
      b.pending.DeleteValid(id);
    case Forget(id) =>
      a.pending.DeleteValid(id);
      b.pending.DeleteValid(id);
  }

  /** What follows in the journal keeps alike maps alike. */
  lemma {:induction false} ReplaySameMaps(c: Codec, a: Index, b: Index, es: seq<Entry>, offset: nat)
    requires SameMaps(a, b)
    ensures SameMaps(Replay(c, a, es, offset), Replay(c, b, es, offset))
    decreases |es|
  {
    hide Apply, SameMaps;
    if es != [] {
      var length := |c.Line(es[0])|;
      ApplySameMaps(a, b, es[0], offset, length);
      ReplaySameMaps(c, Apply(a, es[0], offset, length), Apply(b, es[0], offset, length), es[1..], offset + length);
    }
  }

  // ---------------------------------------------------------------- parts of a list of keys

  function Outside(keys: seq<string>, s: set<string>): (r: seq<string>)
    ensures forall x :: x in r <==> x in keys && x !in s
  {
    if keys == [] then []
    else (if keys[0] in s then [] else [keys[0]]) + Outside(keys[1..], s)
  }

  lemma {:induction false} OutsideJoin(a: seq<string>, b: seq<string>, s: set<string>)
    ensures Outside(a + b, s) == Outside(a, s) + Outside(b, s)
  {
    if a == [] {
      assert a + b == b;
    } else {
      assert (a + b)[1..] == a[1..] + b;
      OutsideJoin(a[1..], b, s);
    }
  }

  lemma {:induction false} OutsideSame(keys: seq<string>, s: set<string>, t: set<string>)
    requires forall k :: k in keys ==> (k in s <==> k in t)
    ensures Outside(keys, s) == Outside(keys, t)
  {
    if keys != [] {
      assert keys == [keys[0]] + keys[1..];
      OutsideSame(keys[1..], s, t);
    }
  }

  lemma {:induction false} OutsideTwice(keys: seq<string>, s: set<string>, t: set<string>)
    ensures Outside(Outside(keys, s), t) == Outside(keys, s + t)
  {
    if keys != [] {
      OutsideTwice(keys[1..], s, t);
      var first: seq<string> := if keys[0] in s then [] else [keys[0]];
      OutsideJoin(first, Outside(keys[1..], s), t);
    }
  }

  lemma {:induction false} OutsideAll(keys: seq<string>, s: set<string>)
    ensures (forall k :: k in keys ==> k in s) ==> Outside(keys, s) == []
    ensures (forall k :: k in keys ==> k !in s) ==> Outside(keys, s) == keys
  {
    if keys != [] {
      assert keys == [keys[0]] + keys[1..];
      OutsideAll(keys[1..], s);
    }
  }

  lemma {:induction false} WithoutIsOutside(keys: seq<string>, k: string)
    ensures Without(keys, k) == Outside(keys, {k})
  {
    if keys != [] {
      WithoutIsOutside(keys[1..], k);
    }
  }

  /** Dropping one more key, when the rest of the set makes no difference to what is left. */
  lemma WithoutOutside(keys: seq<string>, k: string, s: set<string>, t: set<string>)
    requires forall x :: x in keys && x != k ==> (x in s <==> x in t)
    ensures Without(Outside(keys, s), k) == Outside(Without(keys, k), t)
  {
    WithoutIsOutside(Outside(keys, s), k);
    WithoutIsOutside(keys, k);
    OutsideTwice(keys, s, {k});
    OutsideTwice(keys, {k}, t);
    OutsideSame(keys, s + {k}, {k} + t);
  }

  lemma WithoutJoin(a: seq<string>, b: seq<string>, k: string)
    ensures Without(a + b, k) == Without(a, k) + Without(b, k)
  {
    WithoutIsOutside(a + b, k);
    WithoutIsOutside(a, k);
    WithoutIsOutside(b, k);
    OutsideJoin(a, b, {k});
  }

  lemma {:induction false} OutsideDistinct(keys: seq<string>, s: set<string>)
    requires Distinct(keys)
    ensures Distinct(Outside(keys, s))
  {
    if keys != [] {
      assert keys == [keys[0]] + keys[1..];
      assert forall j :: 0 < j < |keys| ==> keys[j] != keys[0];
      OutsideDistinct(keys[1..], s);
    }
  }

  // ---------------------------------------------------------------- a replay over filled maps

  /** The ids an entry takes out of the map. */
  function Removes(e: Entry): set<string> {
    match e case Done(id) => {id} case Forget(id) => {id} case _ => {}
  }

  function Removed(es: seq<Entry>): (r: set<string>)
    ensures forall id :: id in r <==> Done(id) in es || Forget(id) in es
  {
    if es == [] then {}
    else
      assert es == [es[0]] + es[1..];
      Removes(es[0]) + Removed(es[1..])
  }

  /** `a` replays the journal over empty maps, `b` over the maps `h`. */
  ghost predicate OverMaps(h: Index, a: Index, b: Index) {
    && Coherent(a) && Coherent(b) && Coherent(h)
    && b.forgotten == a.forgotten + h.forgotten && b.known == a.known + h.known
    && Extends(a.pending.at, b.pending.at, b.forgotten)
    && Extends(a.extracted, b.extracted, b.forgotten)
    && b.extracted.Keys <= a.extracted.Keys + h.extracted.Keys
  }

  /** Where nothing is forgotten, `b` has what `a` has. */
  ghost predicate Extends<V(!new)>(a: map<string, V>, b: map<string, V>, forgotten: set<string>) {
    forall x :: x in a && x !in forgotten ==> x in b && b[x] == a[x]
  }

  /** The keys of `h` that are still in their place come first, the others are where `a` has them. */
  ghost predicate OverKeys(akeys: seq<string>, bkeys: seq<string>, forgotten: set<string>, left: seq<string>) {
    bkeys == left + Outside(akeys, SetOf(left) + forgotten)
  }

  ghost predicate Over(h: Index, a: Index, b: Index, left: seq<string>) {
    OverMaps(h, a, b) && OverKeys(a.pending.keys, b.pending.keys, b.forgotten, left)
  }

  lemma OverStart(h: Index)
    requires Coherent(h)
    ensures Over(h, Fresh({}), h, h.pending.keys)
  {
    assert h.pending.keys + [] == h.pending.keys;
  }

  lemma MapsNext(h: Index, a: Index, b: Index, e: Entry, offset: nat, length: nat)
    requires OverMaps(h, a, b)
    ensures OverMaps(h, Apply(a, e, offset, length), Apply(b, e, offset, length))
  {
    ApplyCoherent(a, e, offset, length);
    ApplyCoherent(b, e, offset, length);
    NoneResident(h, a, b);
    hide Coherent, Extends;
    match e
    case Put(turn, q) =>
      ExtendsSet(a.pending.at, b.pending.at, b.forgotten, turn.id, PendingOf(turn, q, offset, length));
    case Extracted(id, m) => ExtendsSet(a.extracted, b.extracted, b.forgotten, id, m);
    case Done(id) => ExtendsDelete(a.pending.at, b.pending.at, b.forgotten, id);
    case Forget(id) =>
      ExtendsDelete(a.pending.at, b.pending.at, b.forgotten, id);
      ExtendsDelete(a.extracted, b.extracted, b.forgotten, id);
  }

  lemma ExtendsSet<V(!new)>(a: map<string, V>, b: map<string, V>, forgotten: set<string>, k: string, v: V)
    requires Extends(a, b, forgotten)
    ensures Extends(a[k := v], b[k := v], forgotten)
    ensures k in forgotten ==> Extends(a[k := v], b, forgotten)
  {
  }

  lemma ExtendsDelete<V(!new)>(a: map<string, V>, b: map<string, V>, forgotten: set<string>, k: string)
    requires Extends(a, b, forgotten)
    ensures Extends(a - {k}, b - {k}, forgotten) && Extends(a - {k}, b - {k}, forgotten + {k})
  {
  }

  lemma NoneResident(h: Index, a: Index, b: Index)
    requires Coherent(h) && Coherent(a) && Coherent(b)
    ensures forall x :: x in h.forgotten ==> x in h.known
    ensures forall x :: x in b.forgotten ==> x !in b.pending.at && x !in b.extracted
  {
  }

  /** A put appends its key to both lists or to neither, unless its place is among `left`. */
  lemma KeysPut(akeys: seq<string>, bkeys: seq<string>, forgotten: set<string>, left: seq<string>, id: string)
    requires OverKeys(akeys, bkeys, forgotten, left)
    ensures id in forgotten ==> OverKeys(akeys + [id], bkeys, forgotten, left)
    ensures id !in forgotten ==>
      OverKeys(if id in akeys then akeys else akeys + [id], if id in bkeys then bkeys else bkeys + [id], forgotten, left)
  {
    var s := SetOf(left) + forgotten;
    OutsideJoin(akeys, [id], s);
    assert Outside([id], s) == if id in s then [] else [id];
    assert bkeys + [id] == left + (Outside(akeys, s) + [id]);
  }

  lemma KeysRemove(akeys: seq<string>, bkeys: seq<string>, forgotten: set<string>, left: seq<string>, id: string, more: set<string>)
    requires OverKeys(akeys, bkeys, forgotten, left) && forgotten <= more <= forgotten + {id}
    ensures OverKeys(Without(akeys, id), Without(bkeys, id), more, Without(left, id))
  {
    var s, t := SetOf(left) + forgotten, SetOf(Without(left, id)) + more;
    WithoutJoin(left, Outside(akeys, s), id);
    WithoutOutside(akeys, id, s, t);
  }

  lemma OverNext(h: Index, a: Index, b: Index, left: seq<string>, e: Entry, offset: nat, length: nat)
    requires Over(h, a, b, left)
    ensures Over(h, Apply(a, e, offset, length), Apply(b, e, offset, length), Outside(left, Removes(e)))
  {
    hide OverMaps, OverKeys, Coherent;
    MapsNext(h, a, b, e, offset, length);
    MapsValid(h, a, b);
    OutsideAll(left, {});
    match e
    case Put(turn, _) => KeysPut(a.pending.keys, b.pending.keys, b.forgotten, left, turn.id);
    case Extracted(_, _) =>
    case Done(id) =>
      WithoutIsOutside(left, id);
      KeysRemove(a.pending.keys, b.pending.keys, b.forgotten, left, id, b.forgotten);
    case Forget(id) =>
      WithoutIsOutside(left, id);
      KeysRemove(a.pending.keys, b.pending.keys, b.forgotten, left, id, b.forgotten + {id});
  }

  lemma MapsValid(h: Index, a: Index, b: Index)
    requires OverMaps(h, a, b)
    ensures forall k :: k in a.pending.keys <==> k in a.pending.at
    ensures forall k :: k in b.pending.keys <==> k in b.pending.at
    ensures a.forgotten <= b.forgotten
  {
  }

  lemma {:induction false} OverRun(c: Codec, h: Index, a: Index, b: Index, left: seq<string>, es: seq<Entry>, offset: nat)
    requires Over(h, a, b, left)
    ensures Over(h, Replay(c, a, es, offset), Replay(c, b, es, offset), Outside(left, Removed(es)))
    decreases |es|
  {
    hide Over, Apply;
    if es == [] {
      OutsideAll(left, {});
    } else {
      var length := |c.Line(es[0])|;
      OverNext(h, a, b, left, es[0], offset, length);
      OverRun(c, h, Apply(a, es[0], offset, length), Apply(b, es[0], offset, length), Outside(left, Removes(es[0])),
              es[1..], offset + length);
      OutsideTwice(left, Removes(es[0]), Removed(es[1..]));
    }
  }

  // ---------------------------------------------------------------- what failed attempts leave

  predicate PutIn(es: seq<Entry>, id: string) {
    exists e :: e in es && e.Put? && e.turn.id == id
  }

  /** The entries of the first `n` lines that no line of the journal ever takes out. */
  function Lasting(c: Codec, es: seq<Entry>, n: nat): seq<string>
    requires n <= |es|
  {
    Outside(Replay(c, Fresh({}), es[..n], 0).pending.keys, Removed(es))
  }

  /** Nothing in `a` that `b` does not have, or has forgotten. */
  ghost predicate Below(a: Index, b: Index) {
    a.known <= b.known && a.forgotten <= b.forgotten && a.extracted.Keys <= b.extracted.Keys + b.forgotten
  }

  lemma BelowOver(h: Index, a: Index, r: Index, whole: Index)
    requires OverMaps(h, a, r) && Below(h, whole) && Below(a, whole)
    ensures Below(r, whole)
  {
  }

  /** The maps after start-ups over the journal `es` that failed, the farthest after `n` lines. */
  ghost predicate Half(c: Codec, es: seq<Entry>, n: nat, h: Index) {
    var whole := Replay(c, Fresh({}), es, 0);
    && n <= |es| && Coherent(h)
    && Below(h, whole)
    && Outside(h.pending.keys, Removed(es)) == Lasting(c, es, n)
  }

  lemma HalfFresh(c: Codec, es: seq<Entry>)
    ensures Half(c, es, 0, Fresh({}))
  {
    assert es[..0] == [];
  }

  lemma {:induction false} ReplayGrows(c: Codec, ix: Index, es: seq<Entry>, offset: nat)
    ensures Below(ix, Replay(c, ix, es, offset))
    decreases |es|
  {
    if es != [] {
      hide Apply, Below;
      var length := |c.Line(es[0])|;
      var next := Apply(ix, es[0], offset, length);
      ReplayGrows(c, next, es[1..], offset + length);
      ApplyGrows(ix, es[0], offset, length);
      BelowBelow(ix, next, Replay(c, ix, es, offset));
    }
  }

  lemma {:induction false} ReplayForgets(c: Codec, ix: Index, es: seq<Entry>, offset: nat)
    ensures Replay(c, ix, es, offset).forgotten <= ix.forgotten + Removed(es)
    decreases |es|
  {
    if es != [] {
      var length := |c.Line(es[0])|;
      var next := Apply(ix, es[0], offset, length);
      ApplyGrows(ix, es[0], offset, length);
      hide Apply;
      RemovedHead(es);
      hide Removed;
      ReplayForgets(c, next, es[1..], offset + length);
      assert Replay(c, ix, es, offset) == Replay(c, next, es[1..], offset + length);
    }
  }

  lemma RemovedHead(es: seq<Entry>)
    requires es != []
    ensures Removed(es) == Removes(es[0]) + Removed(es[1..])
  {
  }

  lemma BelowBelow(a: Index, b: Index, d: Index)
    requires Below(a, b) && Below(b, d)
    ensures Below(a, d)
  {
  }

  lemma ApplyGrows(ix: Index, e: Entry, offset: nat, length: nat)
    ensures Below(ix, Apply(ix, e, offset, length))
    ensures Apply(ix, e, offset, length).forgotten <= ix.forgotten + Removes(e)
  {
  }

  lemma OneMore(c: Codec, ix: Index, es: seq<Entry>, k: nat)
    requires k < |es|
    ensures var before := Replay(c, ix, es[..k], 0);
      Replay(c, ix, es[..k + 1], 0) == Apply(before, es[k], |c.Bytes(es[..k])|, |c.Line(es[k])|)
  {
    assert es[..k + 1] == es[..k] + [es[k]];
    ReplayAppend(c, ix, es[..k], [es[k]], 0);
    assert [es[k]][1..] == [];
  }

  /** Reading on only adds to the lasting entries, at the end. */
  lemma {:induction false} LastingGrows(c: Codec, es: seq<Entry>, n: nat, m: nat)
    requires n <= m <= |es|
    ensures Lasting(c, es, n) <= Lasting(c, es, m)
    decreases m
  {
    hide Lasting;
    if n < m {
      LastingGrows(c, es, n, m - 1);
      LastingStep(c, es, m - 1);
    }
  }

  lemma LastingStep(c: Codec, es: seq<Entry>, k: nat)
    requires k < |es|
    ensures Lasting(c, es, k) <= Lasting(c, es, k + 1)
  {
    hide Apply, Replay;
    OneMore(c, Fresh({}), es, k);
    assert es[k] in es;
    LastingNext(Replay(c, Fresh({}), es[..k], 0), es[k], |c.Bytes(es[..k])|, |c.Line(es[k])|, Removed(es));
  }

  lemma LastingNext(ix: Index, e: Entry, offset: nat, length: nat, r: set<string>)
    requires Removes(e) <= r
    ensures Outside(ix.pending.keys, r) <= Outside(Apply(ix, e, offset, length).pending.keys, r)
  {
    match e
    case Put(turn, _) => OutsideJoin(ix.pending.keys, [turn.id], r);
    case Extracted(_, _) =>
    case _ =>
      WithoutIsOutside(ix.pending.keys, e.id);
      OutsideTwice(ix.pending.keys, {e.id}, r);
      OutsideSame(ix.pending.keys, {e.id} + r, r);
  }

  /** Of two lists one of which begins the other, the first and what it lacks make the longer. */
  lemma PrefixMerge(p: seq<string>, q: seq<string>)
    requires Distinct(q)
    ensures p <= q ==> p + Outside(q, SetOf(p)) == q
    ensures q <= p ==> p + Outside(q, SetOf(p)) == p
  {
    hide Outside, Distinct;
    if q <= p {
      assert forall x :: x in q ==> x in p;
      OutsideAll(q, SetOf(p));
      assert p + [] == p;
    }
    if p <= q {
      assert q == p + q[|p|..];
      PrefixLonger(p, q[|p|..]);
    }
  }

  lemma PrefixLonger(p: seq<string>, t: seq<string>)
    requires Distinct(p + t)
    ensures p + Outside(p + t, SetOf(p)) == p + t
  {
    hide Outside, Distinct;
    OutsideJoin(p, t, SetOf(p));
    OutsideAll(p, SetOf(p));
    DistinctRest(p, t);
    OutsideAll(t, SetOf(p));
  }

  lemma DistinctRest(p: seq<string>, t: seq<string>)
    requires Distinct(p + t)
    ensures forall x :: x in t ==> x !in p
  {
    forall i, j | 0 <= i < |p| && 0 <= j < |t|
      ensures p[i] != t[j]
    {
      assert (p + t)[i] == p[i] && (p + t)[|p| + j] == t[j];
    }
  }

  /** What a replay of `m` lines over such maps leaves of the lasting entries. */
  lemma LastingOver(c: Codec, es: seq<Entry>, n: nat, h: Index, m: nat)
    requires Half(c, es, n, h) && m <= |es|
    ensures var r := Replay(c, h, es[..m], 0);
      Outside(r.pending.keys, Removed(es)) == Lasting(c, es, n) + Outside(Lasting(c, es, m), SetOf(Lasting(c, es, n)))
  {
    var a, b := Replay(c, Fresh({}), es[..m], 0), Replay(c, h, es[..m], 0);
    hide Apply, Replay, Coherent;
    var gone := Removed(es);
    OverBoth(c, h, es[..m]);
    var left := Outside(h.pending.keys, Removed(es[..m]));
    var s := SetOf(left) + b.forgotten;
    assert Removed(es[..m]) + gone == gone;
    OutsideJoin(left, Outside(a.pending.keys, s), gone);
    OutsideTwice(h.pending.keys, Removed(es[..m]), gone);
    OutsideTwice(a.pending.keys, s, gone);
    OutsideTwice(a.pending.keys, gone, s);
    assert s + gone == gone + s;
    ReplayForgets(c, Fresh({}), es, 0);
    PartBelow(c, es, m);
    OutsideSame(Lasting(c, es, m), s, SetOf(Lasting(c, es, n)));
  }

  /** Another attempt that fails, this time after `m` lines. */
  lemma RetryHalf(c: Codec, es: seq<Entry>, n: nat, h: Index, m: nat)
    requires Half(c, es, n, h) && m <= |es|
    ensures Half(c, es, if n <= m then m else n, Replay(c, h, es[..m], 0))
  {
    hide Apply, Replay, Lasting, Over;
    RetryMaps(c, es, n, h, m);
    LastingOver(c, es, n, h, m);
    LastingDistinct(c, es, m);
    if n <= m {
      LastingGrows(c, es, n, m);
    } else {
      LastingGrows(c, es, m, n);
    }
    PrefixMerge(Lasting(c, es, n), Lasting(c, es, m));
  }

  lemma LastingDistinct(c: Codec, es: seq<Entry>, n: nat)
    requires n <= |es|
    ensures Distinct(Lasting(c, es, n))
  {
    ReplayCoherent(c, Fresh({}), es[..n], 0);
    OutsideDistinct(Replay(c, Fresh({}), es[..n], 0).pending.keys, Removed(es));
  }

  lemma RetryMaps(c: Codec, es: seq<Entry>, n: nat, h: Index, m: nat)
    requires Half(c, es, n, h) && m <= |es|
    ensures var r := Replay(c, h, es[..m], 0);
      Coherent(r) && Below(r, Replay(c, Fresh({}), es, 0))
  {
    ReplayCoherent(c, h, es[..m], 0);
    OverBoth(c, h, es[..m]);
    PartBelow(c, es, m);
    hide Coherent, OverMaps, OverKeys, Below, Replay;
    BelowOver(h, Replay(c, Fresh({}), es[..m], 0), Replay(c, h, es[..m], 0), Replay(c, Fresh({}), es, 0));
  }

  lemma OverBoth(c: Codec, h: Index, es: seq<Entry>)
    requires Coherent(h)
    ensures var a, b := Replay(c, Fresh({}), es, 0), Replay(c, h, es, 0);
      OverMaps(h, a, b) && OverKeys(a.pending.keys, b.pending.keys, b.forgotten, Outside(h.pending.keys, Removed(es)))
  {
    hide Replay, Coherent, OverMaps, OverKeys;
    OverStart(h);
    OverRun(c, h, Fresh({}), h, h.pending.keys, es, 0);
  }

  lemma PartBelow(c: Codec, es: seq<Entry>, m: nat)
    requires m <= |es|
    ensures Below(Replay(c, Fresh({}), es[..m], 0), Replay(c, Fresh({}), es, 0))
  {
    hide Replay, Below;
    assert es[..m] + es[m..] == es;
    ReplayAppend(c, Fresh({}), es[..m], es[m..], 0);
    ReplayGrows(c, Replay(c, Fresh({}), es[..m], 0), es[m..], 0 + |c.Bytes(es[..m])|);
  }

  /** The attempt that succeeds ends with the maps of a first attempt, offsets included. Pending
      entries that lasted through the failed ones come first, the others follow in order. */
  lemma StartEnds(c: Codec, es: seq<Entry>, n: nat, h: Index)
    requires Half(c, es, n, h)
    ensures var r, whole := Replay(c, h, es, 0), Replay(c, Fresh({}), es, 0);
      && SameMaps(r, whole) && Coherent(r)
      && r.pending.keys == Lasting(c, es, n) + Outside(whole.pending.keys, SetOf(Lasting(c, es, n)))
  {
    var r, whole := Replay(c, h, es, 0), Replay(c, Fresh({}), es, 0);
    ReplayCoherent(c, Fresh({}), es, 0);
    hide Apply, Replay, Lasting, Coherent;
    OverBoth(c, h, es);
    LastingResident(c, es, n);
    EndKeys(r, whole, Lasting(c, es, n));
    EndMaps(h, r, whole);
  }

  lemma LastingResident(c: Codec, es: seq<Entry>, n: nat)
    requires n <= |es|
    ensures Lasting(c, es, n) <= Outside(Replay(c, Fresh({}), es, 0).pending.keys, Removed(es))
    ensures forall x :: x in Lasting(c, es, n) ==> x in Replay(c, Fresh({}), es, 0).pending.keys
  {
    LastingGrows(c, es, n, |es|);
    hide Replay;
    assert es[..|es|] == es;
    assert forall x :: x in Lasting(c, es, n) ==> x in Lasting(c, es, |es|);
  }

  lemma EndKeys(r: Index, whole: Index, p: seq<string>)
    requires Coherent(r) && Coherent(whole) && r.forgotten == whole.forgotten
    requires OverKeys(whole.pending.keys, r.pending.keys, r.forgotten, p) && forall x :: x in p ==> x in whole.pending.keys
    ensures r.pending.keys == p + Outside(whole.pending.keys, SetOf(p))
    ensures r.pending.at.Keys == whole.pending.at.Keys
  {
    OutsideSame(whole.pending.keys, SetOf(p) + r.forgotten, SetOf(p));
    forall x
      ensures x in r.pending.keys <==> x in whole.pending.keys
    {
    }
  }

  lemma EndMaps(h: Index, r: Index, whole: Index)
    requires OverMaps(h, whole, r) && Below(h, whole)
    requires r.pending.at.Keys == whole.pending.at.Keys
    ensures SameMaps(r, whole)
  {
    assert r.pending.at == whole.pending.at;
    assert r.extracted == whole.extracted;
  }

  // ---------------------------------------------------------------- when the order agrees

  lemma {:induction false} PendingIfPut(c: Codec, ix: Index, es: seq<Entry>, offset: nat, id: string)
    requires id !in ix.forgotten && Done(id) !in es && Forget(id) !in es
    ensures id in Replay(c, ix, es, offset).pending.at <==> id in ix.pending.at || PutIn(es, id)
    decreases |es|
  {
    if es != [] {
      assert es == [es[0]] + es[1..];
      var next := Apply(ix, es[0], offset, |c.Line(es[0])|);
      assert PutIn(es, id) <==> (es[0].Put? && es[0].turn.id == id) || PutIn(es[1..], id);
      PendingIfPut(c, next, es[1..], offset + |c.Line(es[0])|, id);
    }
  }

  /** An entry lasts if it was put in those lines and no line completes or forgets it. */
  lemma LastingAre(c: Codec, es: seq<Entry>, n: nat, id: string)
    requires n <= |es|
    ensures id in Lasting(c, es, n) <==> PutIn(es[..n], id) && Done(id) !in es && Forget(id) !in es
  {
    ReplayCoherent(c, Fresh({}), es[..n], 0);
    hide Replay;
    if Done(id) !in es && Forget(id) !in es {
      assert forall x :: x in es[..n] ==> x in es;
      PendingIfPut(c, Fresh({}), es[..n], 0, id);
    }
  }

  /** No id that was completed and put again stands before one that a failed attempt had
      already read and that was never completed. */
  predicate InOrder(c: Codec, es: seq<Entry>, n: nat) {
    var keys, first := Replay(c, Fresh({}), es, 0).pending.keys, if n <= |es| then es[..n] else es;
    forall i, j :: 0 <= i < j < |keys| && Done(keys[i]) in es && Done(keys[j]) !in es ==> !PutIn(first, keys[j])
  }

  predicate NothingBefore(keys: seq<string>, p: seq<string>) {
    forall i, j :: 0 <= i < j < |keys| && keys[j] in p ==> keys[i] in p
  }

  lemma FrontMeans(keys: seq<string>, p: seq<string>)
    requires Distinct(keys) && p + Outside(keys, SetOf(p)) == keys
    ensures NothingBefore(keys, p)
  {
    forall i, j | 0 <= i < j < |keys| && keys[j] in p
      ensures keys[i] in p
    {
      var k :| 0 <= k < |p| && p[k] == keys[j];
      assert keys[k] == p[k];
      assert keys[i] == p[i];
    }
  }

  /** `p`, the first part of what is left of `keys`, stays where it is if nothing else stands
      before something in it. */
  lemma {:induction false} FrontStays(keys: seq<string>, r: set<string>, p: seq<string>)
    requires Distinct(keys) && p <= Outside(keys, r) && NothingBefore(keys, p)
    ensures p + Outside(keys, SetOf(p)) == keys
    decreases |keys|
  {
    if p == [] {
      OutsideAll(keys, {});
      assert SetOf(p) == {} && p + keys == keys;
    } else {
      var k, tail, q := keys[0], keys[1..], p[1..];
      FirstKey(keys, r, p);
      TailKeys(keys, p);
      OutsideHead(keys, r);
      OutsideHead(keys, SetOf(p));
      hide Outside, Distinct, NothingBefore;
      PrefixTail(p, k, Outside(tail, r));
      FrontStays(tail, r, q);
      OutsideSame(tail, SetOf(p), SetOf(q));
      FrontCons(p, k, q, Outside(tail, SetOf(q)), keys, tail);
    }
  }

  lemma OutsideHead(keys: seq<string>, s: set<string>)
    requires keys != []
    ensures Outside(keys, s) == (if keys[0] in s then [] else [keys[0]]) + Outside(keys[1..], s)
  {
  }

  lemma PrefixTail(p: seq<string>, k: string, rest: seq<string>)
    requires p != [] && p <= [k] + rest
    ensures p[1..] <= rest
  {
    assert ([k] + rest)[1..] == rest;
    assert p[1..] == ([k] + rest)[..|p|][1..];
  }

  lemma FrontCons(p: seq<string>, k: string, q: seq<string>, rest: seq<string>, keys: seq<string>, tail: seq<string>)
    requires p != [] && p[0] == k && p[1..] == q && keys != [] && keys[0] == k && keys[1..] == tail && q + rest == tail
    ensures p + rest == keys
  {
    assert p == [k] + q && keys == [k] + tail;
  }

  lemma FirstKey(keys: seq<string>, r: set<string>, p: seq<string>)
    requires p != [] && p <= Outside(keys, r) && NothingBefore(keys, p)
    ensures keys != [] && keys[0] == p[0] && keys[0] !in r
  {
    assert p[0] in Outside(keys, r);
    var j :| 0 <= j < |keys| && keys[j] == p[0];
    assert keys[0] in p;
    var k :| 0 <= k < |p| && p[k] == keys[0];
    assert Outside(keys, r)[k] == keys[0] && keys[0] !in r;
    assert Outside(keys, r)[0] == keys[0];
  }

  lemma TailKeys(keys: seq<string>, p: seq<string>)
    requires Distinct(keys) && NothingBefore(keys, p) && keys != [] && p != [] && keys[0] == p[0]
    ensures Distinct(keys[1..]) && NothingBefore(keys[1..], p[1..])
    ensures forall k :: k in keys[1..] ==> (k in p <==> k in p[1..])
  {
    var tail := keys[1..];
    assert p == [p[0]] + p[1..];
    assert forall j :: 0 <= j < |tail| ==> tail[j] == keys[j + 1] && tail[j] != keys[0];
    forall i, j | 0 <= i < j < |tail| && tail[j] in p[1..]
      ensures tail[i] in p[1..]
    {
      assert keys[j + 1] in p && keys[i + 1] in p;
    }
  }

  lemma DistinctTail(keys: seq<string>)
    requires Distinct(keys) && keys != []
    ensures Distinct(keys[1..]) && forall x :: x in keys[1..] ==> x != keys[0]
  {
  }

  /** What stands before something in `p` is in `p` or was removed and put again. */
  lemma {:induction false} FirstOfLasting(keys: seq<string>, r: set<string>, p: seq<string>, i: nat, j: nat)
    requires Distinct(keys) && p <= Outside(keys, r) && i < j < |keys| && keys[j] in p && keys[i] !in r
    ensures keys[i] in p
    decreases |keys|
  {
    OutsideHead(keys, r);
    DistinctTail(keys);
    hide Outside, Distinct;
    var tail := keys[1..];
    assert tail[j - 1] == keys[j];
    if keys[0] in r {
      FirstOfLasting(tail, r, p, i - 1, j - 1);
    } else {
      assert p[0] == keys[0];
      if i > 0 {
        PrefixTail(p, keys[0], Outside(tail, r));
        assert p == [keys[0]] + p[1..];
        FirstOfLasting(tail, r, p[1..], i - 1, j - 1);
      }
    }
  }

  /** A retried start-up lists the pending entries in the order of a first one if and only if
      no id completed and put again stands before a lasting one that had been read. */
  lemma OrderAgrees(c: Codec, es: seq<Entry>, n: nat, h: Index)
    requires Half(c, es, n, h)
    ensures Replay(c, h, es, 0) == Replay(c, Fresh({}), es, 0) <==> InOrder(c, es, n)
  {
    var r, whole := Replay(c, h, es, 0), Replay(c, Fresh({}), es, 0);
    StartEnds(c, es, n, h);
    ReplayCoherent(c, Fresh({}), es, 0);
    hide Apply, Replay, Half, Lasting, InOrder, NothingBefore, Outside;
    var p, keys := Lasting(c, es, n), whole.pending.keys;
    LastingResident(c, es, n);
    if r == whole {
      FrontMeans(keys, p);
    }
    if NothingBefore(keys, p) {
      FrontStays(keys, Removed(es), p);
    }
    InOrderIs(c, es, n);
  }

  lemma InOrderIs(c: Codec, es: seq<Entry>, n: nat)
    requires n <= |es|
    ensures InOrder(c, es, n) <==> NothingBefore(Replay(c, Fresh({}), es, 0).pending.keys, Lasting(c, es, n))
  {
    hide Replay, Lasting, Outside, Coherent;
    var p, keys := Lasting(c, es, n), Replay(c, Fresh({}), es, 0).pending.keys;
    StaysUnforgotten(c, es);
    LastingResident(c, es, n);
    forall k | k in keys
      ensures k in p <==> PutIn(es[..n], k) && Done(k) !in es
      ensures k in Removed(es) <==> Done(k) in es
    {
      LastingAre(c, es, n, k);
    }
    forall i, j | 0 <= i < j < |keys| && keys[j] in p && keys[i] !in Removed(es)
      ensures keys[i] in p
    {
      FirstOfLasting(keys, Removed(es), p, i, j);
    }
  }

  lemma StaysUnforgotten(c: Codec, es: seq<Entry>)
    ensures var keys := Replay(c, Fresh({}), es, 0).pending.keys;
      Distinct(keys) && forall k :: k in keys ==> Forget(k) !in es
  {
    ReplayCoherent(c, Fresh({}), es, 0);
    hide Replay;
    forall k | Forget(k) in es
      ensures k in Replay(c, Fresh({}), es, 0).forgotten
    {
      ForgottenStays(c, Fresh({}), es, 0, k);
    }
  }

  lemma {:induction false} ForgottenStays(c: Codec, ix: Index, es: seq<Entry>, offset: nat, id: string)
    requires Forget(id) in es
    ensures id in Replay(c, ix, es, offset).forgotten
    decreases |es|
  {
    assert es == [es[0]] + es[1..];
    var next := Apply(ix, es[0], offset, |c.Line(es[0])|);
    if es[0] == Forget(id) {
      assert id in next.forgotten;
      hide Apply;
      ReplayForgetsForever(c, next, es[1..], offset + |c.Line(es[0])|);
    } else {
      ForgottenStays(c, next, es[1..], offset + |c.Line(es[0])|, id);
    }
  }

  /** It can fail: after `a` was completed and put again before `b`, a start-up that read
      everything and then failed to truncate lists `b` first when it is tried again. */
  lemma RetryReorders(c: Codec, a: Turn, b: Turn) returns (es: seq<Entry>)
    requires a.id != b.id
    ensures var h := Replay(c, Fresh({}), es, 0);
      Half(c, es, |es|, h) && h.pending.keys == [a.id, b.id] && Replay(c, h, es, 0).pending.keys == [b.id, a.id]
  {
    es := [Put(a, None), Done(a.id), Put(a, None), Put(b, None)];
    assert es[1..] == [Done(a.id), Put(a, None), Put(b, None)] && es[1..][1..] == [Put(a, None), Put(b, None)];
    assert es[1..][1..][1..] == [Put(b, None)] && es[1..][1..][1..][1..] == [];
    HalfFresh(c, es);
    RetryHalf(c, es, 0, Fresh({}), |es|);
    assert es[..|es|] == es;
    FourLines(c, Fresh({}), es, a, b);
    FourLines(c, Replay(c, Fresh({}), es, 0), es, a, b);
  }

  lemma FourLines(c: Codec, ix: Index, es: seq<Entry>, a: Turn, b: Turn)
    requires es == [Put(a, None), Done(a.id), Put(a, None), Put(b, None)] && a.id != b.id && ix.forgotten == {}
    requires ix.pending == OMap([], map[]) || (ix.pending.keys == [a.id, b.id] && ix.pending.at.Keys == {a.id, b.id})
    ensures var r := Replay(c, ix, es, 0);
      && r.forgotten == {} && r.pending.at.Keys == {a.id, b.id}
      && r.pending.keys == if ix.pending.keys == [] then [a.id, b.id] else [b.id, a.id]
  {
    var i1, i2, i3, i4 := ReplayFour(c, ix, es[0], es[1], es[2], es[3]);
    hide Replay, Codec.Line;
    assert [a.id, b.id][1..] == [b.id] && [a.id][1..] == [] && [b.id][1..] == [];
    assert i2.pending.keys == if ix.pending.keys == [] then [] else [b.id];
  }

  lemma ReplayFour(c: Codec, ix: Index, e1: Entry, e2: Entry, e3: Entry, e4: Entry)
      returns (i1: Index, i2: Index, i3: Index, i4: Index)
    ensures exists o: nat, n: nat :: i1 == Apply(ix, e1, o, n)
    ensures exists o: nat, n: nat :: i2 == Apply(i1, e2, o, n)
    ensures exists o: nat, n: nat :: i3 == Apply(i2, e3, o, n)
    ensures exists o: nat, n: nat :: i4 == Apply(i3, e4, o, n)
    ensures i4 == Replay(c, ix, [e1, e2, e3, e4], 0)
  {
    hide Apply;
    var n1, n2, n3, n4 := |c.Line(e1)|, |c.Line(e2)|, |c.Line(e3)|, |c.Line(e4)|;
    i1 := Apply(ix, e1, 0, n1);
    i2 := Apply(i1, e2, n1, n2);
    i3 := Apply(i2, e3, n1 + n2, n3);
    i4 := Apply(i3, e4, n1 + n2 + n3, n4);
    assert [e1, e2, e3, e4][1..] == [e2, e3, e4] && [e2, e3, e4][1..] == [e3, e4];
    assert [e3, e4][1..] == [e4] && [e4][1..] == [];
    assert Replay(c, i3, [e4], n1 + n2 + n3) == i4;
    assert Replay(c, i2, [e3, e4], n1 + n2) == i4;
    assert Replay(c, i1, [e2, e3, e4], n1) == i4;
  }

  // ---------------------------------------------------------------- the bytes an attempt reads

  /** An attempt whose read breaks off has replayed the whole lines among the bytes it got. */
  lemma ReadPart(c: Codec, h: Index, es: seq<Entry>, torn: seq<byte>, read: nat)
    requires c.Valid() && NEWLINE !in torn && read <= |c.Bytes(es) + torn|
    ensures var m := WholeLines(c, es, read); var r := Recover(c, h, (c.Bytes(es) + torn)[..read], 0);
      r.Recovered? && r.ix == Replay(c, h, es[..m], 0) && r.offset == |c.Bytes(es[..m])|
  {
    hide Recover, Replay;
    var n := |c.Bytes(es)|;
    if read <= n {
      var rest := CutBatch(c, es, read);
      assert (c.Bytes(es) + torn)[..read] == c.Bytes(es)[..read];
      RecoverLines(c, h, es[..WholeLines(c, es, read)], rest, (c.Bytes(es) + torn)[..read], 0);
    } else {
      assert (c.Bytes(es) + torn)[..read] == c.Bytes(es) + torn[..read - n];
      assert es[..|es|] == es;
      RecoverLines(c, h, es, torn[..read - n], (c.Bytes(es) + torn)[..read], 0);
    }
  }
}
