/** The active-Hexis cache: time to live, touch order, one resolver per key
    (src/hexis/active-hexis-cache.ts:53-72, 111-151). */
module ActiveHexisCaches {
  import opened OrderedMap

  const CACHE_TTL_MS := 5_000
  const CACHE_MAX_ENTRIES := 256

  /** A resolved state; None is the resolver's null. */
  type Value = Option<string>

  datatype Entry = Entry(expiresAt: int, value: Value)

  /** The promise in the in-flight map: still running, or settled and not yet removed. */
  datatype Flight = Running | Settled(outcome: Option<Value>)

  datatype Answer =
    | Cached(value: Value)    // answered from the map
    | Joined                  // waits for the running resolver
    | Shared(outcome: Option<Value>)  // a resolver that has just settled
    | Started                 // this call runs the resolver

  /** Which resolver returned what, and when. */
  datatype Produced = Produced(key: string, value: Value, at: int)

  /** The entries that have not expired, in the same order. */
  function Live(keys: seq<string>, at: map<string, Entry>, now: int): (r: seq<string>)
    ensures forall k :: k in r <==> k in keys && k in at && at[k].expiresAt > now
    ensures |r| <= |keys|
  {
    if keys == [] then []
    else
      assert keys == [keys[0]] + keys[1..];
      (if keys[0] in at && at[keys[0]].expiresAt > now then [keys[0]] else []) + Live(keys[1..], at, now)
  }

  function Pruned(m: OMap<string, Entry>, now: int): OMap<string, Entry> {
    OMap(Live(m.keys, m.at, now), map k | k in m.at && m.at[k].expiresAt > now :: m.at[k])
  }

  lemma {:induction false} LiveDistinct(keys: seq<string>, at: map<string, Entry>, now: int)
    requires Distinct(keys)
    ensures Distinct(Live(keys, at, now))
  {
    if keys != [] {
      assert keys == [keys[0]] + keys[1..];
      LiveDistinct(keys[1..], at, now);
      assert keys[0] !in keys[1..];
    }
  }

  lemma {:induction false} LiveSnoc(keys: seq<string>, k: string, at: map<string, Entry>, now: int)
    ensures Live(keys + [k], at, now) == Live(keys, at, now) + if k in at && at[k].expiresAt > now then [k] else []
  {
    if keys == [] {
      assert keys + [k] == [k];
    } else {
      assert (keys + [k])[1..] == keys[1..] + [k];
      LiveSnoc(keys[1..], k, at, now);
    }
  }

  lemma {:induction false} WithoutMiddle(a: seq<string>, k: string, b: seq<string>)
    requires k !in a && k !in b
    ensures Without(a + ([k] + b), k) == a + b
  {
    if a == [] {
      assert a + ([k] + b) == [k] + b && ([k] + b)[1..] == b && a + b == b;
    } else {
      assert (a + ([k] + b))[1..] == a[1..] + ([k] + b);
      assert a + b == [a[0]] + (a[1..] + b);
      WithoutMiddle(a[1..], k, b);
    }
  }

  /** The map after the first `i` entries were looked at. */
  function PrunedUpTo(m: OMap<string, Entry>, now: int, i: nat): OMap<string, Entry>
    requires i <= |m.keys|
  {
    OMap(Live(m.keys[..i], m.at, now) + m.keys[i..], KeptAt(m.at, m.keys[..i], now))
  }

  function KeptAt(at: map<string, Entry>, seen: seq<string>, now: int): map<string, Entry> {
    map k | k in at && (k in seen ==> at[k].expiresAt > now) :: at[k]
  }

  lemma KeptNext(at: map<string, Entry>, seen: seq<string>, k: string, now: int)
    requires k in at && k !in seen
    ensures k in KeptAt(at, seen, now) && KeptAt(at, seen, now)[k] == at[k]
    ensures KeptAt(at, seen + [k], now) == if at[k].expiresAt <= now then KeptAt(at, seen, now) - {k} else KeptAt(at, seen, now)
  {
    var before, after := KeptAt(at, seen, now), KeptAt(at, seen + [k], now);
    if at[k].expiresAt <= now {
      assert after.Keys == (before - {k}).Keys;
    } else {
      assert after.Keys == before.Keys;
    }
  }

  lemma LiveNext(keys: seq<string>, at: map<string, Entry>, now: int, i: nat)
    requires Distinct(keys) && i < |keys| && keys[i] in at
    ensures var k := keys[i];
      var before, after := Live(keys[..i], at, now) + keys[i..], Live(keys[..i + 1], at, now) + keys[i + 1..];
      after == if at[k].expiresAt <= now then Without(before, k) else before
  {
    hide Without, Distinct;
    var k, seen, rest := keys[i], keys[..i], keys[i + 1..];
    Around(keys, i);
    LiveSnoc(seen, k, at, now);
    var kept := Live(seen, at, now);
    Shift(kept, k, rest);
    if at[k].expiresAt <= now {
      WithoutMiddle(kept, k, rest);
    }
  }

  lemma Shift(a: seq<string>, k: string, b: seq<string>)
    ensures a + [k] + b == a + ([k] + b) && a + [] == a
  {
  }

  lemma Around(keys: seq<string>, i: nat)
    requires Distinct(keys) && i < |keys|
    ensures keys[i] !in keys[..i] && keys[i] !in keys[i + 1..]
    ensures keys[..i + 1] == keys[..i] + [keys[i]] && keys[i..] == [keys[i]] + keys[i + 1..]
  {
  }

  lemma PruneNext(m: OMap<string, Entry>, now: int, i: nat)
    requires m.Valid() && i < |m.keys|
    ensures var k := m.keys[i];
      && k in m.at && k in PrunedUpTo(m, now, i).at && PrunedUpTo(m, now, i).at[k] == m.at[k]
      && PrunedUpTo(m, now, i + 1) == if m.at[k].expiresAt <= now then PrunedUpTo(m, now, i).Delete(k) else PrunedUpTo(m, now, i)
  {
    hide Live, KeptAt, Without;
    var k := m.keys[i];
    assert k in m.keys && k !in m.keys[..i];
    assert m.keys[..i + 1] == m.keys[..i] + [k];
    LiveNext(m.keys, m.at, now, i);
    KeptNext(m.at, m.keys[..i], k, now);
  }

  lemma PruneEnds(m: OMap<string, Entry>, now: int)
    requires m.Valid()
    ensures PrunedUpTo(m, now, 0) == m
    ensures PrunedUpTo(m, now, |m.keys|) == Pruned(m, now)
  {
    hide Live, KeptAt;
    var keys := m.keys;
    assert keys[..0] == [] && keys[0..] == keys && keys[..|keys|] == keys && keys[|keys|..] == [];
    NothingSeen(m.at, keys, now);
    EverythingSeen(m, now);
    assert Live(keys, m.at, now) + [] == Live(keys, m.at, now);
  }

  lemma NothingSeen(at: map<string, Entry>, keys: seq<string>, now: int)
    ensures KeptAt(at, [], now) == at && Live([], at, now) + keys == keys
  {
  }

  lemma EverythingSeen(m: OMap<string, Entry>, now: int)
    requires m.Valid()
    ensures KeptAt(m.at, m.keys, now) == Pruned(m, now).at
  {
    hide Live;
    assert KeptAt(m.at, m.keys, now).Keys == Pruned(m, now).at.Keys;
  }

  lemma PrunedIs(m: OMap<string, Entry>, now: int)
    requires m.Valid()
    ensures Pruned(m, now).Valid() && |Pruned(m, now).keys| <= |m.keys|
    ensures forall k :: k in Pruned(m, now).at <==> k in m.at && m.at[k].expiresAt > now
    ensures forall k :: k in Pruned(m, now).at ==> Pruned(m, now).at[k] == m.at[k]
  {
    LiveDistinct(m.keys, m.at, now);
  }

  /** The map after a new value was stored and the map was cut back to its limit. */
  function Stored(m: OMap<string, Entry>, key: string, entry: Entry): OMap<string, Entry> {
    var s := m.Set(key, entry);
    if |s.keys| > CACHE_MAX_ENTRIES then OMap(s.keys[1..], s.at - {s.keys[0]}) else s
  }

  lemma StoredIs(m: OMap<string, Entry>, key: string, entry: Entry)
    requires m.Valid() && |m.keys| <= CACHE_MAX_ENTRIES
    ensures var r := Stored(m, key, entry);
      && key in r.at && r.at[key] == entry
      && (key in m.at ==> r.keys == m.keys)
      && (key !in m.at && |m.keys| < CACHE_MAX_ENTRIES ==> r.keys == m.keys + [key])
      && (key !in m.at && |m.keys| == CACHE_MAX_ENTRIES ==> r.keys == m.keys[1..] + [key])
      && (forall k :: k in r.at && k != key ==> k in m.at && r.at[k] == m.at[k])
  {
    var s := m.Set(key, entry);
    if key !in m.at && |m.keys| == CACHE_MAX_ENTRIES {
      assert (m.keys + [key])[1..] == m.keys[1..] + [key];
      assert s.keys[0] == m.keys[0] && m.keys[0] in m.keys;
    }
  }

  lemma TouchValid(m: OMap<string, Entry>, key: string, entry: Entry)
    requires m.Valid() && key in m.at
    ensures m.Delete(key).Set(key, entry).Valid()
    ensures m.Delete(key).Set(key, entry).keys == Without(m.keys, key) + [key]
    ensures |m.Delete(key).Set(key, entry).keys| == |m.keys|
  {
    m.DeleteValid(key);
    m.Delete(key).SetValid(key, entry);
  }

  /** Each entry is something its key's resolver returned, at the time its expiry says. */
  ghost predicate Backed(at: map<string, Entry>, produced: set<Produced>, clock: int) {
    forall k :: k in at ==> at[k].expiresAt - CACHE_TTL_MS <= clock && Produced(k, at[k].value, at[k].expiresAt - CACHE_TTL_MS) in produced
  }

  /** At most one resolver runs per key, and exactly for the keys whose flight is running. */
  ghost predicate OneEach(inFlight: map<string, Flight>, running: multiset<string>) {
    forall k :: running[k] <= 1 && (running[k] == 1 <==> k in inFlight && inFlight[k].Running?)
  }

  lemma OneStarts(inFlight: map<string, Flight>, running: multiset<string>, key: string)
    requires OneEach(inFlight, running) && key !in inFlight
    ensures OneEach(inFlight[key := Running], running[key := 1]) && running[key] == 0
  {
  }

  lemma OneSettles(inFlight: map<string, Flight>, running: multiset<string>, key: string, outcome: Option<Value>)
    requires OneEach(inFlight, running)
    ensures OneEach(inFlight[key := Settled(outcome)], running[key := 0])
  {
  }

  lemma BackedStores(at: map<string, Entry>, produced: set<Produced>, clock: int, key: string, value: Value, now: int)
    requires Backed(at, produced, clock) && clock <= now
    ensures Backed(at[key := Entry(now + CACHE_TTL_MS, value)], produced + {Produced(key, value, now)}, now)
  {
  }

  lemma BackedFewer(at: map<string, Entry>, fewer: map<string, Entry>, produced: set<Produced>, clock: int, now: int)
    requires Backed(at, produced, clock) && clock <= now && forall k :: k in fewer ==> k in at && fewer[k] == at[k]
    ensures Backed(fewer, produced, now)
  {
  }

  lemma Recent(at: map<string, Entry>, produced: set<Produced>, clock: int, key: string)
    requires Backed(at, produced, clock) && key in at && at[key].expiresAt > clock
    ensures exists t :: Produced(key, at[key].value, t) in produced && clock - 5_000 < t <= clock
  {
    assert Produced(key, at[key].value, at[key].expiresAt - CACHE_TTL_MS) in produced;
  }

  lemma Retouched(m: OMap<string, Entry>, key: string)
    requires key in m.at
    ensures m.Delete(key).Set(key, m.at[key]).at == m.at
  {
  }

  class ActiveHexisCache {
    var cache: OMap<string, Entry>
    var inFlight: map<string, Flight>
    /** The resolvers that are running, one element per activation. */
    ghost var running: multiset<string>
    ghost var clock: int
    ghost var produced: set<Produced>

    constructor ()
      ensures Valid() && cache == OMap([], map[]) && inFlight == map[] && clock == 0
    {
      cache, inFlight := OMap([], map[]), map[];
      running, clock, produced := multiset{}, 0, {};
    }

    ghost predicate Valid()
      reads this
    {
      && cache.Valid() && |cache.keys| <= CACHE_MAX_ENTRIES
      && Backed(cache.at, produced, clock) && OneEach(inFlight, running)
    }

    method PruneExpired(now: int)
      requires Valid()
      modifies this`cache
      ensures Valid() && cache == Pruned(old(cache), now)
    {
      hide PrunedUpTo, Pruned, Live, Backed, OneEach;
      var entries := cache;
      var i := 0;
      PruneEnds(entries, now);
      PrunedIs(entries, now);
      while i < |entries.keys|
        invariant 0 <= i <= |entries.keys| && cache == PrunedUpTo(entries, now, i)
      {
        var key := entries.keys[i];
        PruneNext(entries, now, i);
        if cache.at[key].expiresAt <= now {
          cache := cache.Delete(key);
        }
        i := i + 1;
      }
      BackedFewer(entries.at, cache.at, produced, clock, clock);
    }

    /** A call: an unexpired entry answers it and moves to the end of the touch order; else it
        joins the key's resolver or starts one. An entry answers only with a value its
        key's resolver returned less than five seconds ago. */
    method Call(key: string, bypassRead: bool, now: int) returns (answer: Answer)
      requires Valid() && now >= clock
      modifies this
      ensures Valid() && produced == old(produced) && clock == now
      ensures forall k :: k in cache.at <==> k in Pruned(old(cache), now).at
      ensures forall k :: k in cache.at ==> cache.at[k] == old(cache).at[k]
      ensures answer.Cached? <==> !bypassRead && key in Pruned(old(cache), now).at
      ensures answer.Cached? ==>
        && cache.keys == Without(Pruned(old(cache), now).keys, key) + [key]
        && exists t :: Produced(key, answer.value, t) in produced && now - 5_000 < t <= now
      ensures !answer.Cached? ==> cache == Pruned(old(cache), now)
      ensures answer.Started? ==> key !in old(inFlight) && old(running)[key] == 0 && running == old(running)[key := 1]
      ensures !answer.Started? ==> running == old(running) && inFlight == old(inFlight)
      ensures answer.Joined? ==> key in inFlight && inFlight[key].Running?
      ensures answer.Shared? ==> key in inFlight && inFlight[key] == Settled(answer.outcome)
    {
      hide Pruned, Without, Backed, OneEach;
      BackedFewer(cache.at, cache.at, produced, clock, now);
      clock := now;
      PruneExpired(now);
      PrunedIs(old(cache), now);
      if !bypassRead && key in cache.at {
        var entry := cache.at[key];
        Recent(cache.at, produced, clock, key);
        TouchValid(cache, key, entry);
        Retouched(cache, key);
        cache := cache.Delete(key).Set(key, entry);
        return Cached(entry.value);
      }
      if key in inFlight {
        match inFlight[key]
        case Running => return Joined;
        case Settled(outcome) => return Shared(outcome);
      }
      OneStarts(inFlight, running, key);
      inFlight := inFlight[key := Running];
      running := running[key := 1];
      answer := Started;
    }

    /** The key's resolver returned: its value is stored for five seconds, in place if the key
        is there, else last; a 257th entry evicts the head of the touch order. */
    method Resolve(key: string, value: Value, now: int)
      requires Valid() && now >= clock && running[key] == 1
      modifies this
      ensures Valid() && clock == now
      ensures key in cache.at && cache.at[key] == Entry(now + 5_000, value)
      ensures produced == old(produced) + {Produced(key, value, now)}
      ensures key in old(cache).at ==> cache.keys == old(cache).keys
      ensures key !in old(cache).at && |old(cache).keys| < 256 ==> cache.keys == old(cache).keys + [key]
      ensures key !in old(cache).at && |old(cache).keys| == 256 ==> cache.keys == old(cache).keys[1..] + [key]
      ensures forall k :: k in cache.at && k != key ==> k in old(cache).at && cache.at[k] == old(cache).at[k]
      ensures running == old(running)[key := 0] && inFlight == old(inFlight)[key := Settled(Some(value))]
    {
      hide Without, Backed, OneEach, Stored;
      BackedStores(cache.at, produced, clock, key, value, now);
      OneSettles(inFlight, running, key, Some(value));
      StoredIs(cache, key, Entry(now + CACHE_TTL_MS, value));
      clock, produced := now, produced + {Produced(key, value, now)};
      Store(key, Entry(now + CACHE_TTL_MS, value));
      inFlight := inFlight[key := Settled(Some(value))];
      running := running[key := 0];
    }

    method Store(key: string, entry: Entry)
      requires cache.Valid() && |cache.keys| <= CACHE_MAX_ENTRIES && Backed(cache.at[key := entry], produced, clock)
      modifies this`cache
      ensures cache.Valid() && |cache.keys| <= CACHE_MAX_ENTRIES && Backed(cache.at, produced, clock)
      ensures cache == Stored(old(cache), key, entry)
    {
      hide Without, Backed;
      cache.SetValid(key, entry);
      cache := cache.Set(key, entry);
      ghost var before := cache.at;
      EnforceMaxEntries();
      BackedFewer(before, cache.at, produced, clock, clock);
    }

    /** Drops entries from the head of the touch order until the map fits. */
    method EnforceMaxEntries()
      requires cache.Valid() && |cache.keys| <= CACHE_MAX_ENTRIES + 1
      modifies this`cache
      ensures cache.Valid() && |cache.keys| <= CACHE_MAX_ENTRIES
      ensures |old(cache).keys| <= CACHE_MAX_ENTRIES ==> cache == old(cache)
      ensures |old(cache).keys| > CACHE_MAX_ENTRIES ==>
        cache == OMap(old(cache).keys[1..], old(cache).at - {old(cache).keys[0]})
    {
      hide Without;
      while |cache.keys| > CACHE_MAX_ENTRIES
        invariant cache.Valid() && |cache.keys| <= CACHE_MAX_ENTRIES + 1
        invariant cache == old(cache) || (|old(cache).keys| > CACHE_MAX_ENTRIES && |cache.keys| <= CACHE_MAX_ENTRIES
          && cache == OMap(old(cache).keys[1..], old(cache).at - {old(cache).keys[0]}))
        decreases |cache.keys|
      {
        var oldest := cache.keys[0];
        assert oldest in cache.keys;
        cache.DeleteValid(oldest);
        EvictHead(cache.keys);
        cache := cache.Delete(oldest);
      }
    }

    /** The key's resolver failed: the cache is untouched. */
    method Fail(key: string)
      requires Valid() && running[key] == 1
      modifies this`inFlight, this`running
      ensures Valid()
      ensures running == old(running)[key := 0] && inFlight == old(inFlight)[key := Settled(None)]
    {
      OneSettles(inFlight, running, key, None);
      inFlight := inFlight[key := Settled(None)];
      running := running[key := 0];
    }

    /** The starting call is done with its settled resolver. */
    method Release(key: string)
      requires Valid() && key in inFlight && inFlight[key].Settled?
      modifies this`inFlight
      ensures Valid() && inFlight == old(inFlight) - {key}
    {
      inFlight := inFlight - {key};
    }
  }

  lemma EvictHead(keys: seq<string>)
    requires keys != [] && Distinct(keys)
    ensures Without(keys, keys[0]) == keys[1..]
  {
    assert keys == [] + ([keys[0]] + keys[1..]);
    WithoutMiddle([], keys[0], keys[1..]);
    assert [] + keys[1..] == keys[1..];
  }
}
