/** What a merge makes of every single edge: its signal, its text and where it came from
    (src/entities/entity-store.ts:638-800). */
module EntityRows {
  import opened OrderedMap
  import opened EntityGraph
  import opened EntityMerge
  import opened EntityFold
  import opened EntityQuotient

  // ---------------------------------------------------------------- the rows before and after

  /** The key of an edge with `from` replaced by `to` at its ends. */
  predicate MovesTo(k: Key, moved: Key, from: string, to: string) {
    && moved.src == (if k.src == from then to else k.src)
    && moved.dst == (if k.dst == from then to else k.dst)
    && moved.kind == k.kind
  }

  /** A loser's edge that does not collapse to a loop moves to this key. */
  ghost predicate Target(before: seq<Edge>, k: Key, from: string, to: string) {
    exists e :: e in before && Goes(e, k, from, to)
  }

  predicate Goes(e: Edge, k: Key, from: string, to: string) {
    (e.key.src == from || e.key.dst == from) && MovesTo(e.key, k, from, to) && k.src != k.dst
  }

  ghost predicate Joined(s: Signal, a: Signal, b: Signal) {
    && s.weight == a.weight + b.weight
    && s.confidence == (if a.confidence >= b.confidence then a.confidence else b.confidence)
    && s.lastSeen == (if a.lastSeen >= b.lastSeen then a.lastSeen else b.lastSeen)
  }

  /** `r` is the edge `e` at a key that was free: all of it is copied, and a missing provenance
      says that a merge made it. */
  ghost predicate Copied(e: Edge, r: Edge) {
    && r.signal == e.signal && r.context == e.context
    && r.origin.observedAt == e.origin.observedAt && r.origin.sourceMemoryId == e.origin.sourceMemoryId
    && r.origin.sourceProject == e.origin.sourceProject && r.origin.scope == e.origin.scope
    && r.origin.sessionId == e.origin.sessionId
    && r.origin.provenance == (if e.origin.provenance.Some? then e.origin.provenance else Some("entity-merge"))
  }

  /** `r` is the row `t` that was there, with the signal of `e` joined in: it keeps its record, its
      origin and its text, and takes the text of `e` only if it has none. */
  ghost predicate Enriched(t: Edge, e: Edge, r: Edge) {
    && r.id == t.id && r.key == t.key && r.origin == t.origin && Joined(r.signal, t.signal, e.signal)
    && r.context == (if t.context.Some? then t.context else e.context)
  }

  ghost predicate Arrives(before: seq<Edge>, after: seq<Edge>, e: Edge, k: Key) {
    exists r :: r in after && r.key == k
      && (if exists t :: t in before && t.key == k then exists t :: t in before && t.key == k && Enriched(t, e, r)
          else Copied(e, r))
  }

  /** Every edge of `from` has arrived at `to`, every row that is neither its edge nor a target
      is as it was, and there are no others. */
  ghost predicate EdgesMoved(before: seq<Edge>, after: seq<Edge>, from: string, to: string) {
    && (forall e, k :: e in before && Goes(e, k, from, to) ==> Arrives(before, after, e, k))
    && (forall r :: r in before && r.key.src != from && r.key.dst != from && !Target(before, r.key, from, to) ==> r in after)
    && (forall r :: r in after ==> r in before || Target(before, r.key, from, to))
    && (forall r :: r in after ==> r.key.src != from && r.key.dst != from)
    && (forall r, q :: r in after && q in after && (r.key == q.key || r.id == q.id) ==> r == q)
  }

  // ---------------------------------------------------------------- rows and look-ups

  lemma FoundRow(rows: seq<Edge>, e: Edge)
    requires Separate(rows) && e in rows
    ensures FindRow(rows, e.key) == Some(e)
  {
    SameRow(rows, e, FindRow(rows, e.key).value);
  }

  /** The row at a key after all bundles are put onto the table. */
  lemma {:induction false} UpsertedAt(g: Graph, bs: seq<Bundle>, k: Key)
    requires g.Valid() && DistinctKeys(bs)
    ensures var was, now := FindRow(g.rows, k), FindRow(UpsertAll(g, bs).rows, k);
      && ((forall b :: b in bs ==> b.key != k) ==> now == was)
      && (forall b :: b in bs && b.key == k ==> now.Some? && PutOnto(was, b, now.value))
    decreases |bs|
  {
    hide Upsert, Separate;
    if bs != [] {
      assert bs == [bs[0]] + bs[1..];
      UpsertValid(g, bs[0]);
      UpsertedAt(Upsert(g, bs[0]), bs[1..], k);
      if bs[0].key == k {
        UpsertOne(g, bs[0]);
        assert forall b :: b in bs[1..] ==> b.key != k;
      } else {
        FindUpsert(g, bs[0], k);
      }
    }
  }

  /** The row at the bundle's key: a new one, or the old one with the bundle put onto it. */
  ghost predicate PutOnto(was: Option<Edge>, b: Bundle, r: Edge) {
    r.key == b.key &&
    match was
    case None => r.signal == b.signal && r.context == b.context && r.origin == b.origin
    case Some(t) =>
      && r.id == t.id && r.origin == t.origin && r.signal == Fold(b.signal, t.signal)
      && r.context == (if t.context.Some? then t.context else b.context)
  }

  lemma UpsertOne(g: Graph, b: Bundle)
    requires g.Valid()
    ensures var now := FindRow(Upsert(g, b).rows, b.key); now.Some? && PutOnto(FindRow(g.rows, b.key), b, now.value)
  {
    match FindRow(g.rows, b.key)
    case Some(e) =>
      FindSet(g.rows, e.id, Fold(b.signal, e.signal), if e.context.Some? then e.context else b.context, b.key);
    case None =>
      FindAppend(g.rows, Edge(g.next, b.key, b.signal, b.context, b.origin), b.key);
  }

  // ---------------------------------------------------------------- the bundles of a valid table

  lemma {:induction false} BundlesAre(edges: seq<Edge>, from: string, to: string, b: Bundle)
    ensures b in Bundles(edges, from, to) <==> exists e :: e in edges && b == BundleOf(e, from, to) && !Loop(b.key)
    decreases |edges|
  {
    hide BundleOf;
    if edges != [] {
      assert edges == [edges[0]] + edges[1..];
      BundlesAre(edges[1..], from, to, b);
      BundleKey(edges[0], from, to);
    }
  }

  lemma BundleKey(e: Edge, from: string, to: string)
    ensures BundleOf(e, from, to).key == Retarget(e.key, from, to)
  {
  }

  /** Under the unique index the fold makes one bundle of each edge that is no loop. */
  lemma FoldAre(g: Graph, from: string, to: string, b: Bundle)
    requires g.Valid() && from != to
    ensures b in FoldEdges(Touching(g.rows, from), from, to, [])
       <==> exists e :: e in g.rows && Touches(e.key, from) && b == BundleOf(e, from, to) && !Loop(b.key)
  {
    hide FoldEdges, Bundles, BundleOf, At, Squashed, Touching, Separate;
    var edges := Touching(g.rows, from);
    AtFold(edges, from, to, [], b.key);
    OneEdgePerTarget(g.rows, from, to, b.key);
    SquashedOne(At(Bundles(edges, from, to), b.key));
    AtNothing(b.key);
    BundlesAre(edges, from, to, b);
    var all := At(Bundles(edges, from, to), b.key);
    assert [] + all == all;
    assert b in FoldEdges(edges, from, to, []) <==> b in At(FoldEdges(edges, from, to, []), b.key);
  }

  lemma AtNothing(k: Key)
    ensures At([], k) == []
  {
  }

  lemma SquashedOne(bs: seq<Bundle>)
    requires |bs| <= 1
    ensures Squashed(bs) == bs
  {
    if bs != [] {
      assert bs[1..] == [] && bs == [bs[0]];
    }
  }

  lemma GoesBundle(e: Edge, k: Key, from: string, to: string)
    ensures Goes(e, k, from, to) <==> Touches(e.key, from) && k == BundleOf(e, from, to).key && !Loop(k)
  {
  }

  // ---------------------------------------------------------------- the theorem

  /** For every valid table and distinct ids: what the reassignment makes of every row. */
  lemma ReassignMoves(g: Graph, from: string, to: string)
    requires g.Valid() && from != to
    ensures EdgesMoved(g.rows, Reassigned(g, from, to).rows, from, to)
  {
    hide Reassigned, Separate, Arrives, Target, Goes;
    ReassignRuns(g, from, to);
    var h := Reassigned(g, from, to);
    forall e, k | e in g.rows && Goes(e, k, from, to)
      ensures Arrives(g.rows, h.rows, e, k)
    {
      EdgeArrives(g, from, to, e, k);
    }
    forall r | r in g.rows && r.key.src != from && r.key.dst != from && !Target(g.rows, r.key, from, to)
      ensures r in h.rows
    {
      FoundRow(g.rows, r);
      NoTargetStays(g, from, to, r.key);
    }
    forall r | r in h.rows
      ensures (r in g.rows || Target(g.rows, r.key, from, to)) && r.key.src != from && r.key.dst != from
    {
      FoundRow(h.rows, r);
      if !Target(g.rows, r.key, from, to) {
        NoTargetStays(g, from, to, r.key);
      }
    }
    forall r, q | r in h.rows && q in h.rows && (r.key == q.key || r.id == q.id)
      ensures r == q
    {
      SameRow(h.rows, r, q);
    }
  }

  /** The row at a key to which an edge of the loser goes. */
  lemma TargetRow(g: Graph, from: string, to: string, e: Edge, k: Key) returns (r: Edge)
    requires g.Valid() && from != to && e in g.rows && Goes(e, k, from, to)
    ensures r in Reassigned(g, from, to).rows && r.key == k && PutOnto(FindRow(g.rows, k), BundleOf(e, from, to), r)
  {
    hide FoldEdges, UpsertAll, Separate, BundleOf, Outside, PutOnto, Touching;
    var b, bs := BundleOf(e, from, to), FoldEdges(Touching(g.rows, from), from, to, []);
    var base := g.(rows := Outside(g.rows, from));
    GoesBundle(e, k, from, to);
    FoldAre(g, from, to, b);
    FoldTargets(Touching(g.rows, from), from, to, []);
    OutsideSeparate(g.rows, from);
    BaseValid(g, from);
    UpsertedAt(base, bs, k);
    FindOutside(g.rows, from, k);
    r := FindRow(UpsertAll(base, bs).rows, k).value;
  }

  lemma BaseValid(g: Graph, from: string)
    requires g.Valid()
    ensures g.(rows := Outside(g.rows, from)).Valid()
  {
    OutsideSeparate(g.rows, from);
  }

  lemma EdgeArrives(g: Graph, from: string, to: string, e: Edge, k: Key)
    requires g.Valid() && from != to && e in g.rows && Goes(e, k, from, to)
    ensures Arrives(g.rows, Reassigned(g, from, to).rows, e, k)
  {
    hide Reassigned, Separate, Goes;
    var r := TargetRow(g, from, to, e, k);
    var was := FindRow(g.rows, k);
    if was.Some? {
      assert was.value in g.rows && was.value.key == k && Enriched(was.value, e, r);
    } else {
      assert Copied(e, r);
    }
  }

  lemma NoTargetStays(g: Graph, from: string, to: string, k: Key)
    requires g.Valid() && from != to && !Touches(k, from) && !Target(g.rows, k, from, to)
    ensures FindRow(Reassigned(g, from, to).rows, k) == FindRow(g.rows, k)
  {
    hide FoldEdges, UpsertAll, Separate, BundleOf, Outside, PutOnto, Touching, FindRow, Goes;
    var bs := FoldEdges(Touching(g.rows, from), from, to, []);
    forall b | b in bs
      ensures b.key != k
    {
      FoldAre(g, from, to, b);
      var e :| e in g.rows && Touches(e.key, from) && b == BundleOf(e, from, to) && !Loop(b.key);
      GoesBundle(e, b.key, from, to);
      assert Target(g.rows, b.key, from, to);
    }
    FoldTargets(Touching(g.rows, from), from, to, []);
    BaseValid(g, from);
    UpsertedAt(g.(rows := Outside(g.rows, from)), bs, k);
    FindOutside(g.rows, from, k);
  }

  /** The same for the edge table of a merge. */
  lemma MergeMoves(g: Graph, winner: string, loser: string, updates: Updates)
    requires g.Valid() && winner != loser
    ensures EdgesMoved(g.rows, Merged(g, winner, loser, updates).rows, loser, winner)
  {
    hide Reassigned, EdgesMoved, Updated, MergedEntities;
    ReassignMoves(g.(entities := Updated(g.entities, winner, updates)), loser, winner);
  }

  // ---------------------------------------------------------------- names

  lemma {:induction false} DedupeAppends(s: seq<string>, seen: seq<string>)
    requires Distinct(seen)
    ensures seen <= Dedupe(s, seen) && Distinct(Dedupe(s, seen))
    decreases |s|
  {
    if s != [] {
      DedupeAppends(s[1..], if s[0] in seen then seen else seen + [s[0]]);
    }
  }

  lemma {:induction false} DedupeFirst(a: seq<string>, b: seq<string>, seen: seq<string>)
    requires Distinct(seen + a)
    ensures seen + a <= Dedupe(a + b, seen)
    decreases |a|
  {
    if a == [] {
      assert a + b == b && seen + a == seen;
      DedupeAppends(b, seen);
    } else {
      assert (a + b)[0] == a[0] && (a + b)[1..] == a[1..] + b;
      assert (seen + a)[|seen|] == a[0];
      forall i | 0 <= i < |seen|
        ensures seen[i] != a[0]
      {
        assert (seen + a)[i] == seen[i];
      }
      assert seen + a == seen + [a[0]] + a[1..];
      DedupeFirst(a[1..], b, seen + [a[0]]);
    }
  }

  /** A union keeps the first list in front, in its order, and repeats nothing. */
  lemma UnionAppends(a: seq<string>, b: seq<string>)
    ensures Distinct(Union(a, b)) && (Distinct(a) ==> a <= Union(a, b))
  {
    DedupeAppends(a + b, []);
    if Distinct(a) {
      assert [] + a == a;
      DedupeFirst(a, b, []);
    }
  }

  /** A merge leaves the winner's names in front, in their order, and adds the others behind them. */
  lemma NamesAppended(g: Graph, winner: string, loser: string, updates: Updates)
    requires winner in g.entities && winner != loser
    requires Distinct(g.entities[winner].names.aliases) && Distinct(g.entities[winner].names.aliasesNorm)
    ensures var h := Merged(g, winner, loser, updates);
      winner in h.entities
      && g.entities[winner].names.aliases <= h.entities[winner].names.aliases
      && g.entities[winner].names.aliasesNorm <= h.entities[winner].names.aliasesNorm
      && Distinct(h.entities[winner].names.aliases) && Distinct(h.entities[winner].names.aliasesNorm)
  {
    hide Union, Distinct, Reassigned;
    var n := g.entities[winner].names;
    var once := Names(Union(n.aliases, updates.names.aliases), Union(n.aliasesNorm, updates.names.aliasesNorm));
    UnionAppends(n.aliases, updates.names.aliases);
    UnionAppends(n.aliasesNorm, updates.names.aliasesNorm);
    assert Updated(g.entities, winner, updates)[winner].names == once;
    if loser in g.entities {
      UnionAppends(once.aliases, g.entities[loser].names.aliases);
      UnionAppends(once.aliasesNorm, g.entities[loser].names.aliasesNorm);
    }
  }

  // ---------------------------------------------------------------- when a merge commits

  /** Another entity of the winner's user, kind, scope and session has the name the winner gets; without a
      session nothing is compared. */
  ghost predicate NameTaken(entities: map<string, Entity>, winner: string, name: Option<string>) {
    winner in entities && entities[winner].key.sessionId.Some? &&
    var k := entities[winner].key;
    exists y :: y in entities && y != winner && SameBut(entities[y].key, k, if name.Some? then name.value else k.nameNorm)
  }

  predicate SameBut(j: EntityKey, k: EntityKey, name: string) {
    j.nameNorm == name && j.userId == k.userId && j.kind == k.kind && j.scope == k.scope && j.sessionId == k.sessionId
  }

  lemma FreeIs(entities: map<string, Entity>, winner: string, u: Updates)
    ensures Free(entities, winner, u) <==> !NameTaken(entities, winner, u.nameNorm)
  {
    if winner in entities {
      var k := Rekeyed(entities[winner].key, u.nameNorm);
      forall y | y in entities
        ensures entities[y].key == k <==> SameBut(entities[y].key, entities[winner].key, k.nameNorm)
      {
      }
    }
  }

  /** The merge transaction commits exactly when the name the winner gets is free within its session. */
  lemma MergeCommits(g: Graph, winner: string, loser: string, updates: Updates)
    requires g.Valid() && winner != loser
    ensures Transact(g, MergeStatements(g, winner, loser, updates)).Some? <==> !NameTaken(g.entities, winner, updates.nameNorm)
  {
    hide Transact, MergeStatements, Free, NameTaken;
    MergeRuns(g, winner, loser, updates);
    FreeIs(g.entities, winner, updates);
  }
}
