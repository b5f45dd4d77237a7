/** Merging a cluster is taking the quotient of the graph, in any order; and the in-memory fold
    is the same as moving the edges one at a time (src/entities/entity-store.ts). */
module EntityQuotient {
  import opened OrderedMap
  import opened EntityGraph
  import opened EntityMerge

  // ---------------------------------------------------------------- signals are conserved

  ghost function TotalOf(bs: seq<Bundle>, p: Key -> bool): Option<Signal> {
    if bs == [] then None
    else Join(Only(p(bs[0].key), bs[0].signal), TotalOf(bs[1..], p))
  }

  lemma {:induction false} TotalAppend(rows: seq<Edge>, e: Edge, p: Key -> bool)
    ensures Total(rows + [e], p) == Join(Total(rows, p), Only(p(e.key), e.signal))
  {
    if rows == [] {
      assert rows + [e] == [e];
    } else {
      assert (rows + [e])[1..] == rows[1..] + [e];
      TotalAppend(rows[1..], e, p);
      JoinSwap(Only(p(rows[0].key), rows[0].signal), Total(rows[1..], p), Only(p(e.key), e.signal));
    }
  }

  lemma {:induction false} SetAbsent(rows: seq<Edge>, id: nat, s: Signal, c: Option<string>)
    requires forall f :: f in rows ==> f.id != id
    ensures SetRow(rows, id, s, c) == rows
  {
    if rows != [] {
      assert rows == [rows[0]] + rows[1..];
      SetAbsent(rows[1..], id, s, c);
    }
  }

  /** Folding a signal into one row adds it to exactly the totals that count that row. */
  lemma {:induction false} TotalSet(rows: seq<Edge>, e: Edge, s: Signal, c: Option<string>, p: Key -> bool)
    requires Separate(rows) && e in rows
    ensures Total(SetRow(rows, e.id, Fold(s, e.signal), c), p) == Join(Total(rows, p), Only(p(e.key), s))
  {
    var first, rest := rows[0], rows[1..];
    var one := Only(p(first.key), first.signal);
    if first == e {
      SetAbsent(rest, e.id, Fold(s, e.signal), c);
      assert Join(one, Only(p(e.key), s)) == Only(p(e.key), Fold(s, e.signal));
      JoinSwap(one, Only(p(e.key), s), Total(rest, p));
    } else {
      TotalSet(rest, e, s, c, p);
      JoinSwap(one, Total(rest, p), Only(p(e.key), s));
      SameRowOnly(rows, first, e);
    }
  }

  lemma SameRowOnly(rows: seq<Edge>, e: Edge, f: Edge)
    requires Separate(rows) && e in rows && f in rows && e != f
    ensures e.id != f.id
  {
    if e.id == f.id {
      SameRow(rows, e, f);
    }
  }

  lemma TotalUpsert(g: Graph, b: Bundle, p: Key -> bool)
    requires g.Valid()
    ensures Total(Upsert(g, b).rows, p) == Join(Total(g.rows, p), Only(p(b.key), b.signal))
  {
    match FindRow(g.rows, b.key)
    case Some(e) =>
      TotalSet(g.rows, e, b.signal, if e.context.Some? then e.context else b.context, p);
    case None =>
      TotalAppend(g.rows, Edge(g.next, b.key, b.signal, b.context, b.origin), p);
  }

  lemma {:induction false} TotalUpsertAll(g: Graph, bs: seq<Bundle>, p: Key -> bool)
    requires g.Valid()
    ensures Total(UpsertAll(g, bs).rows, p) == Join(Total(g.rows, p), TotalOf(bs, p))
    decreases |bs|
  {
    hide Upsert;
    if bs != [] {
      TotalUpsert(g, bs[0], p);
      UpsertValid(g, bs[0]);
      TotalUpsertAll(Upsert(g, bs[0]), bs[1..], p);
      JoinSwap(Total(g.rows, p), Only(p(bs[0].key), bs[0].signal), TotalOf(bs[1..], p));
    }
  }

  lemma {:induction false} TotalAddTo(bs: seq<Bundle>, b: Bundle, p: Key -> bool)
    ensures TotalOf(AddTo(bs, b), p) == Join(TotalOf(bs, p), Only(p(b.key), b.signal))
    decreases |bs|
  {
    if bs != [] {
      var one, more := Only(p(bs[0].key), bs[0].signal), Only(p(b.key), b.signal);
      var rest := TotalOf(bs[1..], p);
      JoinSwap(one, rest, more);
      if bs[0].key == b.key {
        assert AddTo(bs, b)[1..] == bs[1..];
      } else {
        assert AddTo(bs, b)[1..] == AddTo(bs[1..], b);
        TotalAddTo(bs[1..], b, p);
      }
    }
  }

  /** `p` of the key an edge moves to; a collapsed self-loop satisfies nothing. */
  function Moved(p: Key -> bool, from: string, to: string): Key -> bool {
    k => !(Touches(k, from) && Loop(Retarget(k, from, to))) && p(Retarget(k, from, to))
  }

  lemma {:induction false} TotalFold(edges: seq<Edge>, from: string, to: string, bs: seq<Bundle>, p: Key -> bool)
    requires forall e :: e in edges ==> Touches(e.key, from)
    ensures TotalOf(FoldEdges(edges, from, to, bs), p) == Join(TotalOf(bs, p), Total(edges, Moved(p, from, to)))
    decreases |edges|
  {
    if edges != [] {
      var e, b := edges[0], BundleOf(edges[0], from, to);
      assert e in edges;
      var next := if Loop(b.key) then bs else AddTo(bs, b);
      TotalFold(edges[1..], from, to, next, p);
      TotalAddTo(bs, b, p);
      JoinSwap(TotalOf(bs, p), Only(Moved(p, from, to)(e.key), e.signal), Total(edges[1..], Moved(p, from, to)));
    }
  }

  lemma {:induction false} TotalSplit(rows: seq<Edge>, x: string, p: Key -> bool)
    ensures Total(rows, p) == Join(Total(Outside(rows, x), p), Total(Touching(rows, x), p))
  {
    if rows != [] {
      var first, rest := rows[0], rows[1..];
      TotalSplit(rest, x, p);
      var one, out, touch := Only(p(first.key), first.signal), Total(Outside(rest, x), p), Total(Touching(rest, x), p);
      JoinSwap(one, out, touch);
      JoinSwap(out, one, touch);
      if Touches(first.key, x) {
        assert Outside(rows, x) == Outside(rest, x);
        assert Touching(rows, x) == [first] + Touching(rest, x);
      } else {
        assert Outside(rows, x) == [first] + Outside(rest, x);
        assert Touching(rows, x) == Touching(rest, x);
      }
    }
  }

  lemma {:induction false} TotalSame(rows: seq<Edge>, p: Key -> bool, q: Key -> bool)
    requires forall e :: e in rows ==> p(e.key) == q(e.key)
    ensures Total(rows, p) == Total(rows, q)
  {
    if rows != [] {
      assert rows == [rows[0]] + rows[1..];
      TotalSame(rows[1..], p, q);
    }
  }

  /** One reassignment, for any set of keys: its weight afterwards is the sum, its confidence
      and last sighting the maximum, over the rows whose moved key lies in it; only self-loops
      that the move creates are lost. */
  lemma ReassignConserves(g: Graph, from: string, to: string, p: Key -> bool)
    requires g.Valid() && from != to
    ensures Total(Reassigned(g, from, to).rows, p) == Total(g.rows, Moved(p, from, to))
  {
    hide Upsert, UpsertAll, FoldEdges;
    var edges, core := Touching(g.rows, from), g.(rows := Outside(g.rows, from));
    var q := Moved(p, from, to);
    OutsideSeparate(g.rows, from);
    TotalUpsertAll(core, FoldEdges(edges, from, to, []), p);
    TotalFold(edges, from, to, [], p);
    TotalSplit(g.rows, from, q);
    forall e | e in core.rows
      ensures p(e.key) == q(e.key)
    {
      assert Retarget(e.key, from, to) == e.key;
    }
    TotalSame(core.rows, p, q);
  }

  ghost predicate Collapses(k: Key, from: string, to: string) {
    Touches(k, from) && Loop(Retarget(k, from, to))
  }

  /** The whole table: what a reassignment loses is the collapsed self-loops and nothing else. */
  lemma WeightDropsByLoops(g: Graph, from: string, to: string)
    requires g.Valid() && from != to
    ensures Total(g.rows, _ => true)
         == Join(Total(Reassigned(g, from, to).rows, _ => true), Total(g.rows, k => Collapses(k, from, to)))
  {
    var all := (_: Key) => true;
    ReassignConserves(g, from, to, all);
    TotalHalves(g.rows, Moved(all, from, to), k => Collapses(k, from, to));
  }

  lemma {:induction false} TotalHalves(rows: seq<Edge>, p: Key -> bool, q: Key -> bool)
    requires forall k :: p(k) != q(k)
    ensures Total(rows, _ => true) == Join(Total(rows, p), Total(rows, q))
  {
    if rows != [] {
      TotalHalves(rows[1..], p, q);
      var one := Only(true, rows[0].signal);
      JoinSwap(one, Total(rows[1..], p), Total(rows[1..], q));
      JoinSwap(Total(rows[1..], p), one, Total(rows[1..], q));
      JoinSwap(Total(rows[1..], p), Total(rows[1..], q), one);
    }
  }

  // ---------------------------------------------------------------- one merge

  /** The graph after mergeEntities, for distinct ids. */
  function Merged(g: Graph, winner: string, loser: string, updates: Updates): Graph {
    var h := Reassigned(g.(entities := Updated(g.entities, winner, updates)), loser, winner);
    h.(entities := MergedEntities(g.entities, winner, loser, updates))
  }

  function MergedEntities(entities: map<string, Entity>, winner: string, loser: string, u: Updates): map<string, Entity> {
    var named := Updated(entities, winner, u);
    (if loser in entities then WithNames(named, winner, entities[loser].names) else named) - {loser}
  }

  /** The merge transaction commits if and only if no other row holds the winner's new key, the
      loser's included: the winner is updated first and the loser deleted last. Deleting the
      loser then cascades to no edge. */
  lemma MergeRuns(g: Graph, winner: string, loser: string, updates: Updates)
    requires g.Valid() && winner != loser
    ensures Transact(g, MergeStatements(g, winner, loser, updates))
         == if Free(g.entities, winner, updates) then Some(Merged(g, winner, loser, updates)) else None
    ensures Merged(g, winner, loser, updates).Valid()
    ensures forall e :: e in Merged(g, winner, loser, updates).rows ==> !Touches(e.key, loser)
  {
    hide Reassigned, Compose, WithNames, Updated, Free, Touches, Separate;
    var g1 := g.(entities := Updated(g.entities, winner, updates));
    ReassignRuns(g1, loser, winner);
    var h := Reassigned(g1, loser, winner);
    OutsideAll(h.rows, loser);
    UpdateFirst(g, winner, loser, updates);
    if Free(g.entities, winner, updates) {
      MergeTail(g, g1, h, winner, loser);
    }
  }

  /** The first statement decides whether the rest runs. */
  lemma UpdateFirst(g: Graph, winner: string, loser: string, updates: Updates)
    ensures Transact(g, MergeStatements(g, winner, loser, updates))
         == if Free(g.entities, winner, updates)
            then Transact(g.(entities := Updated(g.entities, winner, updates)), MergeRest(g, winner, loser))
            else None
  {
    hide Compose, Updated, Free;
    var first, rest := UpdateEntity(winner, updates), MergeRest(g, winner, loser);
    assert MergeStatements(g, winner, loser, updates) == [first] + rest;
    assert ([first] + rest)[1..] == rest;
  }

  function MergeRest(g: Graph, winner: string, loser: string): seq<Statement> {
    Compose(g.rows, loser, winner)
    + (if loser in g.entities then [AddNames(winner, g.entities[loser].names)] else [])
    + [DropEntity(loser)]
  }

  lemma MergeTail(g: Graph, g1: Graph, h: Graph, winner: string, loser: string)
    requires g1.rows == g.rows && Transact(g1, Compose(g.rows, loser, winner)) == Some(h)
    ensures var named := if loser in g.entities then WithNames(h.entities, winner, g.entities[loser].names) else h.entities;
      Transact(g1, MergeRest(g, winner, loser)) == Some(h.(rows := Outside(h.rows, loser), entities := named - {loser}))
  {
    hide Compose, WithNames, Outside;
    var edges, last := Compose(g.rows, loser, winner), [DropEntity(loser)];
    var names := if loser in g.entities then [AddNames(winner, g.entities[loser].names)] else [];
    TransactAppend(g1, edges, names);
    TransactAppend(g1, edges + names, last);
    assert last[1..] == [] && (names != [] ==> names[1..] == []);
  }

  /** A merge that gives the winner its loser's name, within one session, fails as a whole. */
  lemma LoserNameFails(g: Graph, winner: string, loser: string, names: Names)
    requires g.Valid() && winner != loser && winner in g.entities && loser in g.entities
    requires var w, l := g.entities[winner].key, g.entities[loser].key;
      w.sessionId.Some? && w == l.(nameNorm := w.nameNorm)
    ensures Transact(g, MergeStatements(g, winner, loser, Updates(Some(g.entities[loser].key.nameNorm), names))) == None
  {
    var u := Updates(Some(g.entities[loser].key.nameNorm), names);
    assert g.entities[loser].key == Rekeyed(g.entities[winner].key, u.nameNorm);
    hide Transact, MergeStatements, Merged;
    MergeRuns(g, winner, loser, u);
  }

  /** A merge that commits keeps the index over the entities. */
  lemma MergeKeyed(g: Graph, winner: string, loser: string, updates: Updates)
    requires g.Valid() && g.Keyed() && winner != loser && Free(g.entities, winner, updates)
    ensures Merged(g, winner, loser, updates).Keyed()
  {
    hide Reassigned, Union, Separate;
    var h := Merged(g, winner, loser, updates);
    ReassignRuns(g.(entities := Updated(g.entities, winner, updates)), loser, winner);
    forall x, y | x in h.entities && y in h.entities && y != x && h.entities[x].key.sessionId.Some?
      ensures h.entities[y].key != h.entities[x].key
    {
      assert !KeyTaken(g.entities, winner, h.entities[x].key) || x != winner;
      assert !KeyTaken(g.entities, winner, h.entities[y].key) || y != winner;
      assert !KeyTaken(g.entities, x, g.entities[x].key);
    }
  }

  /** Merging an entity into itself fails or deletes it with all its edges. */
  lemma SelfMergeErases(g: Graph, x: string, updates: Updates)
    ensures var r := Transact(g, MergeStatements(g, x, x, updates));
      if Free(g.entities, x, updates)
      then r.Some? && x !in r.value.entities && r.value.rows == Outside(g.rows, x)
      else r.None?
  {
    hide WithNames, Outside, Free, Updated;
    var g1 := g.(entities := Updated(g.entities, x, updates));
    UpdateFirst(g, x, x, updates);
    MergeTail(g, g1, g1, x, x);
  }

  lemma SelfMergeKeyed(g: Graph, x: string, updates: Updates)
    requires g.Keyed() && Free(g.entities, x, updates)
    ensures Transact(g, MergeStatements(g, x, x, updates)).Some?
    ensures Transact(g, MergeStatements(g, x, x, updates)).value.Keyed()
  {
    var g1 := g.(entities := Updated(g.entities, x, updates));
    UpdateFirst(g, x, x, updates);
    MergeTail(g, g1, g1, x, x);
    hide Union;
    var h := Transact(g, MergeStatements(g, x, x, updates)).value;
    assert forall y :: y in h.entities ==> y != x && h.entities[y] == g.entities[y];
    forall y | y in h.entities
      ensures !KeyTaken(h.entities, y, h.entities[y].key)
    {
      assert !KeyTaken(g.entities, y, g.entities[y].key);
    }
  }

  // ---------------------------------------------------------------- clusters

  datatype Merge = Merge(loser: string, updates: Updates)

  function MergeAll(g: Graph, winner: string, ms: seq<Merge>): Graph
    decreases |ms|
  {
    if ms == [] then g else MergeAll(Merged(g, winner, ms[0].loser, ms[0].updates), winner, ms[1..])
  }

  function Losers(ms: seq<Merge>): (ls: set<string>)
    ensures forall x :: x in ls <==> exists m :: m in ms && m.loser == x
  {
    set m | m in ms :: m.loser
  }

  function Class(x: string, winner: string, losers: set<string>): string {
    if x in losers then winner else x
  }

  function ClassKey(k: Key, winner: string, losers: set<string>): Key {
    Key(Class(k.src, winner, losers), Class(k.dst, winner, losers), k.kind)
  }

  /** An edge between two members of the cluster, other than a loop the winner already had. */
  predicate Internal(k: Key, winner: string, losers: set<string>) {
    (k.src in losers || k.dst in losers) && Loop(ClassKey(k, winner, losers))
  }

  function Quotient(p: Key -> bool, winner: string, losers: set<string>): Key -> bool {
    k => !Internal(k, winner, losers) && p(ClassKey(k, winner, losers))
  }

  lemma MergeKeeps(g: Graph, winner: string, m: Merge, p: Key -> bool)
    requires g.Valid() && winner != m.loser
    ensures Total(Merged(g, winner, m.loser, m.updates).rows, p) == Total(g.rows, Moved(p, m.loser, winner))
  {
    ReassignConserves(g.(entities := Updated(g.entities, winner, m.updates)), m.loser, winner, p);
  }

  lemma ClassTwice(x: string, winner: string, loser: string, losers: set<string>)
    requires winner !in losers
    ensures Class(Renamed(x, loser, winner), winner, losers) == Class(x, winner, {loser} + losers)
    ensures x in {loser} + losers <==> x == loser || x in losers
    ensures x != loser ==> Renamed(x, loser, winner) == x
    ensures Renamed(x, loser, winner) in losers ==> x in losers
    ensures Class(x, winner, losers) !in losers
    ensures x !in losers ==> Class(x, winner, losers) == x
  {
  }

  lemma MovedQuotient(k: Key, p: Key -> bool, winner: string, loser: string, losers: set<string>)
    requires winner != loser && winner !in losers
    ensures Moved(Quotient(p, winner, losers), loser, winner)(k) == Quotient(p, winner, {loser} + losers)(k)
  {
    hide Class, Renamed;
    ClassTwice(k.src, winner, loser, losers);
    ClassTwice(k.dst, winner, loser, losers);
    var r := Retarget(k, loser, winner);
    ClassTwice(r.src, winner, loser, losers);
    ClassTwice(r.dst, winner, loser, losers);
    assert ClassKey(r, winner, losers) == ClassKey(k, winner, {loser} + losers);
    var all := {loser} + losers;
    assert Quotient(p, winner, losers)(r) == (!Internal(r, winner, losers) && p(ClassKey(k, winner, all)));
    assert (Touches(k, loser) && Loop(r)) || Internal(r, winner, losers) <==> Internal(k, winner, all);
  }

  /** Merging losers one by one is the quotient by the cluster: for any set of keys the weight
      is the sum, the confidence and last sighting the maximum over the original rows whose
      class lies in the set, without the cluster's internal edges. */
  lemma {:induction false} ClusterIsQuotient(g: Graph, winner: string, ms: seq<Merge>, p: Key -> bool)
    requires g.Valid() && winner !in Losers(ms)
    ensures MergeAll(g, winner, ms).Valid()
    ensures Total(MergeAll(g, winner, ms).rows, p) == Total(g.rows, Quotient(p, winner, Losers(ms)))
    decreases |ms|
  {
    hide Merged;
    if ms == [] {
      assert Losers(ms) == {};
      forall e | e in g.rows
        ensures p(e.key) == Quotient(p, winner, Losers(ms))(e.key)
      {
        assert ClassKey(e.key, winner, {}) == e.key && !Internal(e.key, winner, {});
        assert Quotient(p, winner, {})(e.key) == p(e.key);
      }
      TotalSame(g.rows, p, Quotient(p, winner, Losers(ms)));
    } else {
      var m, rest := ms[0], ms[1..];
      assert ms == [m] + rest;
      assert Losers(ms) == {m.loser} + Losers(rest);
      MergeRuns(g, winner, m.loser, m.updates);
      ClusterIsQuotient(Merged(g, winner, m.loser, m.updates), winner, rest, p);
      MergeKeeps(g, winner, m, Quotient(p, winner, Losers(rest)));
      forall e | e in g.rows
        ensures Moved(Quotient(p, winner, Losers(rest)), m.loser, winner)(e.key) == Quotient(p, winner, Losers(ms))(e.key)
      {
        MovedQuotient(e.key, p, winner, m.loser, Losers(rest));
      }
      TotalSame(g.rows, Moved(Quotient(p, winner, Losers(rest)), m.loser, winner), Quotient(p, winner, Losers(ms)));
    }
  }

  function SignalAt(g: Graph, k: Key): Option<Signal> {
    match FindRow(g.rows, k) case None => None case Some(e) => Some(e.signal)
  }

  lemma {:induction false} OneRow(rows: seq<Edge>, k: Key)
    requires Separate(rows)
    ensures Total(rows, j => j == k) == match FindRow(rows, k) case None => None case Some(e) => Some(e.signal)
  {
    if rows != [] {
      OneRow(rows[1..], k);
    }
  }

  /** Read at one key: the single edge between two classes, and the winner's own loops, which
      are exactly the ones it had before. */
  lemma ClusterEdge(g: Graph, winner: string, ms: seq<Merge>, k: Key)
    requires g.Valid() && winner !in Losers(ms)
    ensures var h, ls := MergeAll(g, winner, ms), Losers(ms);
      && (k.src in ls || k.dst in ls ==> SignalAt(h, k) == None)
      && (k.src !in ls && k.dst !in ls && !Loop(k) ==> SignalAt(h, k) == Total(g.rows, j => ClassKey(j, winner, ls) == k))
      && (k.src !in ls && Loop(k) ==> SignalAt(h, k) == SignalAt(g, k))
  {
    hide MergeAll, FindRow, Quotient, ClassKey;
    var ls, p := Losers(ms), (j: Key) => j == k;
    ClusterIsQuotient(g, winner, ms, p);
    OneRow(MergeAll(g, winner, ms).rows, k);
    OneRow(g.rows, k);
    var q := Quotient(p, winner, ls);
    forall j: Key
      ensures q(j) == OfClass(j, k, winner, ls)
    {
      QuotientAt(j, k, winner, ls);
    }
    if k.src in ls || k.dst in ls {
      TotalSame(g.rows, q, _ => false);
      TotalNothing(g.rows);
    } else if Loop(k) {
      TotalSame(g.rows, q, p);
    } else {
      TotalSame(g.rows, q, j => ClassKey(j, winner, ls) == k);
    }
  }

  ghost predicate OfClass(j: Key, k: Key, winner: string, losers: set<string>) {
    if k.src in losers || k.dst in losers then false
    else if Loop(k) then j == k
    else ClassKey(j, winner, losers) == k
  }

  lemma QuotientAt(j: Key, k: Key, winner: string, losers: set<string>)
    requires winner !in losers
    ensures Quotient(i => i == k, winner, losers)(j) == OfClass(j, k, winner, losers)
  {
    var c := ClassKey(j, winner, losers);
    assert Quotient(i => i == k, winner, losers)(j) == (!Internal(j, winner, losers) && c == k);
    if c == k && Loop(k) && !Internal(j, winner, losers) {
      assert j == k;
    }
  }

  lemma {:induction false} TotalNothing(rows: seq<Edge>)
    ensures Total(rows, _ => false) == None
  {
    if rows != [] {
      TotalNothing(rows[1..]);
    }
  }

  /** The order of the merges does not matter. */
  lemma MergeOrder(g: Graph, winner: string, ms: seq<Merge>, ns: seq<Merge>, k: Key)
    requires g.Valid() && winner !in Losers(ms) && Losers(ms) == Losers(ns)
    ensures SignalAt(MergeAll(g, winner, ms), k) == SignalAt(MergeAll(g, winner, ns), k)
  {
    ClusterEdge(g, winner, ms, k);
    ClusterEdge(g, winner, ns, k);
  }

  /** getSupportingMemoryIds: what an entity's mentioned_in edges point to. */
  function Memories(g: Graph, entity: string): (r: seq<string>)
  {
    Outs(g.rows, entity)
  }

  function Outs(rows: seq<Edge>, entity: string): (r: seq<string>)
    ensures forall m :: m in r <==> exists e :: e in rows && e.key == Key(entity, m, "mentioned_in")
  {
    if rows == [] then []
    else
      assert rows == [rows[0]] + rows[1..];
      (if rows[0].key.src == entity && rows[0].key.kind == "mentioned_in" then [rows[0].key.dst] else [])
      + Outs(rows[1..], entity)
  }

  lemma {:induction false} TotalSome(rows: seq<Edge>, p: Key -> bool)
    ensures Total(rows, p).Some? <==> exists e :: e in rows && p(e.key)
  {
    if rows != [] {
      assert rows == [rows[0]] + rows[1..];
      TotalSome(rows[1..], p);
    }
  }

  /** The winner is supported by exactly the memories of all members. */
  lemma ClusterMemories(g: Graph, winner: string, ms: seq<Merge>, memory: string)
    requires g.Valid() && winner !in Losers(ms)
    requires memory != winner && memory !in Losers(ms)
    ensures memory in Memories(MergeAll(g, winner, ms), winner)
       <==> exists x :: (x == winner || x in Losers(ms)) && memory in Memories(g, x)
  {
    hide MergeAll, Outs, Total, ClassKey;
    var h, ls, k := MergeAll(g, winner, ms), Losers(ms), Key(winner, memory, "mentioned_in");
    ClusterEdge(g, winner, ms, k);
    TotalSome(g.rows, j => ClassKey(j, winner, ls) == k);
    assert memory in Memories(h, winner) <==> FindRow(h.rows, k).Some?;
    MemberMemories(g, winner, ls, memory);
  }

  lemma MemberMemories(g: Graph, winner: string, losers: set<string>, memory: string)
    requires winner !in losers && memory != winner && memory !in losers
    ensures (exists e :: e in g.rows && ClassKey(e.key, winner, losers) == Key(winner, memory, "mentioned_in"))
       <==> exists x :: (x == winner || x in losers) && memory in Memories(g, x)
  {
    hide Outs;
    var k := Key(winner, memory, "mentioned_in");
    if x :| (x == winner || x in losers) && memory in Memories(g, x) {
      var e :| e in g.rows && e.key == Key(x, memory, "mentioned_in");
      assert ClassKey(e.key, winner, losers) == k;
    }
    if e :| e in g.rows && ClassKey(e.key, winner, losers) == k {
      assert e.key == Key(e.key.src, memory, "mentioned_in");
      assert memory in Memories(g, e.key.src);
    }
  }

  lemma NamesOfMerge(entities: map<string, Entity>, winner: string, m: Merge)
    requires winner != m.loser && winner in entities
    ensures var after := MergedEntities(entities, winner, m.loser, m.updates);
      && after.Keys == entities.Keys - {m.loser}
      && (forall x :: x in after && x != winner ==> after[x] == entities[x])
      && after[winner].key == Rekeyed(entities[winner].key, m.updates.nameNorm)
  {
    hide Union, Rekeyed;
  }

  lemma ListedOfMerge(g: Graph, winner: string, m: Merge, norm: bool, n: string)
    requires winner != m.loser && winner in g.entities
    ensures n in Listed(MergedEntities(g.entities, winner, m.loser, m.updates)[winner].names, norm)
       <==> n in Listed(g.entities[winner].names, norm) || Gives(g, m, norm, n)
  {
    hide Union, Rekeyed;
  }

  /** The aliases, or their normal forms. */
  function Listed(n: Names, norm: bool): seq<string> {
    if norm then n.aliasesNorm else n.aliases
  }

  lemma MergedRecords(g: Graph, winner: string, m: Merge)
    ensures Merged(g, winner, m.loser, m.updates).entities == MergedEntities(g.entities, winner, m.loser, m.updates)
  {
    hide Reassigned, MergedEntities;
  }

  /** The winner's names, and the normal forms, are its own, the updates', and every merged
      loser's; the losers' records are gone and all others stay. */
  lemma {:induction false} ClusterNames(g: Graph, winner: string, ms: seq<Merge>, norm: bool)
    requires g.Valid() && winner !in Losers(ms) && winner in g.entities
    ensures var h := MergeAll(g, winner, ms);
      && h.entities.Keys == g.entities.Keys - Losers(ms)
      && (forall x :: x in h.entities && x != winner ==> h.entities[x] == g.entities[x])
      && (forall n :: n in Listed(h.entities[winner].names, norm) <==>
            n in Listed(g.entities[winner].names, norm) || Contributed(g, ms, norm, n))
    decreases |ms|
  {
    hide Merged, Separate, Listed;
    if ms != [] {
      var m, rest := ms[0], ms[1..];
      assert ms == [m] + rest;
      assert Losers(ms) == {m.loser} + Losers(rest);
      var h := Merged(g, winner, m.loser, m.updates);
      MergeRuns(g, winner, m.loser, m.updates);
      MergedRecords(g, winner, m);
      NamesOfMerge(g.entities, winner, m);
      hide MergedEntities;
      ClusterNames(h, winner, rest, norm);
      forall n: string
        ensures Contributed(g, ms, norm, n) <==> Gives(g, m, norm, n) || Contributed(h, rest, norm, n)
        ensures n in Listed(h.entities[winner].names, norm) <==> n in Listed(g.entities[winner].names, norm) || Gives(g, m, norm, n)
      {
        ListedOfMerge(g, winner, m, norm, n);
        assert forall l :: l in rest && l.loser in h.entities ==> l.loser in Losers(rest);
        ContributedNext(g, h, ms, norm, n);
      }
    }
  }

  ghost predicate Contributed(g: Graph, ms: seq<Merge>, norm: bool, n: string) {
    exists m :: m in ms && Gives(g, m, norm, n)
  }

  ghost predicate Gives(g: Graph, m: Merge, norm: bool, n: string) {
    n in Listed(m.updates.names, norm) || (m.loser in g.entities && n in Listed(g.entities[m.loser].names, norm))
  }

  lemma ContributedNext(g: Graph, h: Graph, ms: seq<Merge>, norm: bool, n: string)
    requires ms != []
    requires h.entities.Keys == g.entities.Keys - {ms[0].loser}
    requires forall m :: m in ms[1..] && m.loser in h.entities ==> h.entities[m.loser] == g.entities[m.loser]
    ensures Contributed(g, ms, norm, n) <==> Gives(g, ms[0], norm, n) || Contributed(h, ms[1..], norm, n)
  {
    assert ms == [ms[0]] + ms[1..];
    if Contributed(g, ms, norm, n) && !Gives(g, ms[0], norm, n) {
      var m :| m in ms && Gives(g, m, norm, n);
      assert m in ms[1..] && Gives(h, m, norm, n);
    }
    if Contributed(h, ms[1..], norm, n) {
      var m :| m in ms[1..] && Gives(h, m, norm, n);
      assert m in ms && Gives(g, m, norm, n);
    }
  }

  // ---------------------------------------------------------------- clusters as they run

  /** mergeEntities one loser after the other; one that fails leaves everything as it was. */
  function RunMerges(g: Graph, winner: string, ms: seq<Merge>): Graph
    decreases |ms|
  {
    if ms == [] then g
    else
      match Transact(g, MergeStatements(g, winner, ms[0].loser, ms[0].updates))
      case None => RunMerges(g, winner, ms[1..])
      case Some(h) => RunMerges(h, winner, ms[1..])
  }

  /** The merges that find the winner's new key free when their turn comes. */
  function Committed(g: Graph, winner: string, ms: seq<Merge>): (r: seq<Merge>)
    ensures forall m :: m in r ==> m in ms
    decreases |ms|
  {
    if ms == [] then []
    else if Free(g.entities, winner, ms[0].updates)
    then [ms[0]] + Committed(Merged(g, winner, ms[0].loser, ms[0].updates), winner, ms[1..])
    else Committed(g, winner, ms[1..])
  }

  /** Running the merges of a cluster is merging those that commit, and keeps both indexes: the
      theorems about the quotient are about exactly these losers. */
  lemma {:induction false} ClusterRuns(g: Graph, winner: string, ms: seq<Merge>)
    requires g.Valid() && g.Keyed() && winner !in Losers(ms)
    ensures RunMerges(g, winner, ms) == MergeAll(g, winner, Committed(g, winner, ms))
    ensures RunMerges(g, winner, ms).Valid() && RunMerges(g, winner, ms).Keyed()
    ensures winner !in Losers(Committed(g, winner, ms))
    decreases |ms|
  {
    hide Merged, MergeStatements, Transact, Free, Separate;
    if ms != [] {
      var m, rest := ms[0], ms[1..];
      assert ms == [m] + rest;
      assert forall l :: l in rest ==> l in ms;
      assert winner !in Losers(rest) && winner != m.loser;
      MergeRuns(g, winner, m.loser, m.updates);
      if Free(g.entities, winner, m.updates) {
        var h, more := Merged(g, winner, m.loser, m.updates), Committed(Merged(g, winner, m.loser, m.updates), winner, rest);
        MergeKeyed(g, winner, m.loser, m.updates);
        ClusterRuns(h, winner, rest);
        assert ([m] + more)[1..] == more;
      } else {
        ClusterRuns(g, winner, rest);
      }
    }
  }
}
