/** The entity store's merging methods over the tables they update
    (src/entities/entity-store.ts:638-932). */
module EntityStores {
  import opened OrderedMap
  import opened EntityGraph
  import opened EntityMerge
  import opened EntityQuotient
  import opened EntityRows

  /** The place of a target in the by-target map, or its size. */
  function PlaceOf(bs: seq<Bundle>, k: Key): (i: nat)
    ensures i <= |bs|
    ensures i < |bs| ==> bs[i].key == k
  {
    if bs == [] || bs[0].key == k then 0 else 1 + PlaceOf(bs[1..], k)
  }

  lemma {:induction false} AddToAt(bs: seq<Bundle>, b: Bundle)
    ensures var i := PlaceOf(bs, b.key);
      AddTo(bs, b) == if i == |bs| then bs + [b] else bs[i := Absorb(bs[i], b)]
    decreases |bs|
  {
    if bs != [] && bs[0].key != b.key {
      var first, rest := bs[0], bs[1..];
      AddToAt(rest, b);
      var i := PlaceOf(rest, b.key);
      assert bs == [first] + rest;
      assert PlaceOf(bs, b.key) == 1 + i;
      if i == |rest| {
        assert [first] + (rest + [b]) == bs + [b];
      } else {
        assert [first] + rest[i := Absorb(rest[i], b)] == bs[1 + i := Absorb(bs[1 + i], b)];
      }
    }
  }

  lemma {:induction false} DeletesSnoc(ids: seq<nat>, id: nat)
    ensures Deletes(ids + [id]) == Deletes(ids) + [Delete(id)]
  {
    if ids == [] {
      assert ids + [id] == [id];
    } else {
      assert (ids + [id])[1..] == ids[1..] + [id];
      DeletesSnoc(ids[1..], id);
    }
  }

  lemma FoldNext(read: seq<Edge>, i: nat, from: string, to: string, bs: seq<Bundle>)
    requires i < |read|
    ensures var b := BundleOf(read[i], from, to);
      && FoldEdges(read[i..], from, to, bs) == FoldEdges(read[i + 1..], from, to, if Loop(b.key) then bs else AddTo(bs, b))
      && LoopIds(read[i..], from, to) == (if Loop(b.key) then [read[i].id] else []) + LoopIds(read[i + 1..], from, to)
  {
    assert read[i..][0] == read[i] && read[i..][1..] == read[i + 1..];
  }

  lemma FoldDone(from: string, to: string, bs: seq<Bundle>)
    ensures FoldEdges([], from, to, bs) == bs && LoopIds([], from, to) == []
  {
  }

  lemma WritesNext(rows: seq<Edge>, bs: seq<Bundle>, j: nat)
    requires j < |bs|
    ensures Writes(rows, bs[j..]) == [WriteOf(rows, bs[j])] + Deletes(bs[j].originals) + Writes(rows, bs[j + 1..])
  {
    assert bs[j..][0] == bs[j] && bs[j..][1..] == bs[j + 1..];
  }

  lemma NoWrites(rows: seq<Edge>)
    ensures Writes(rows, []) == []
  {
  }

  lemma Grouped<T>(a: seq<T>, b: seq<T>, c: seq<T>, d: seq<T>)
    ensures a + (b + c + d) == a + b + c + d
  {
  }

  class EntityStore {
    var edges: seq<Edge>
    var nextId: nat
    var entities: map<string, Entity>

    constructor ()
      ensures State() == Graph([], 0, map[])
    {
      edges, nextId, entities := [], 0, map[];
    }

    function State(): Graph
      reads this
    {
      Graph(edges, nextId, entities)
    }

    /** The statements that move every edge of `from` onto `to`: loser edges bound for one
        target are folded first, then each target is compared with the committed table. */
    method ComposeEdgeReassignment(from: string, to: string) returns (statements: seq<Statement>)
      ensures statements == Compose(edges, from, to)
    {
      if from == to {
        return [];
      }
      var selfLoopIds, byTarget := FoldByTarget(Touching(edges, from), from, to);
      statements := EmitDeletes([], selfLoopIds);
      statements := EmitWrites(statements, byTarget);
    }

    static method FoldByTarget(read: seq<Edge>, from: string, to: string) returns (selfLoopIds: seq<nat>, byTarget: seq<Bundle>)
      ensures selfLoopIds == LoopIds(read, from, to) && byTarget == FoldEdges(read, from, to, [])
    {
      hide AddTo, FoldEdges, LoopIds, PlaceOf, Absorb;
      byTarget, selfLoopIds := [], [];
      var i := 0;
      assert read[0..] == read;
      while i < |read|
        invariant 0 <= i <= |read|
        invariant FoldEdges(read[i..], from, to, byTarget) == FoldEdges(read, from, to, [])
        invariant selfLoopIds + LoopIds(read[i..], from, to) == LoopIds(read, from, to)
      {
        var edge := read[i];
        FoldNext(read, i, from, to, byTarget);
        i := i + 1;
        var target := Retarget(edge.key, from, to);
        if target.src == target.dst {
          assert selfLoopIds + ([edge.id] + LoopIds(read[i..], from, to)) == selfLoopIds + [edge.id] + LoopIds(read[i..], from, to);
          selfLoopIds := selfLoopIds + [edge.id];
          continue;
        }
        var moved := BundleOf(edge, from, to);
        AddToAt(byTarget, moved);
        var at := PlaceOf(byTarget, target);
        if at == |byTarget| {
          byTarget := byTarget + [moved];
        } else {
          byTarget := byTarget[at := Absorb(byTarget[at], moved)];
        }
      }
      assert read[i..] == [];
      FoldDone(from, to, byTarget);
    }

    method EmitWrites(before: seq<Statement>, byTarget: seq<Bundle>) returns (statements: seq<Statement>)
      ensures statements == before + Writes(edges, byTarget)
    {
      hide Writes, Deletes;
      statements := before;
      var j := 0;
      assert byTarget[0..] == byTarget;
      while j < |byTarget|
        invariant 0 <= j <= |byTarget|
        invariant statements + Writes(edges, byTarget[j..]) == before + Writes(edges, byTarget)
      {
        var bundle := byTarget[j];
        WritesNext(edges, byTarget, j);
        Grouped(statements, [WriteOf(edges, bundle)], Deletes(bundle.originals), Writes(edges, byTarget[j + 1..]));
        match FindRow(edges, bundle.key) {
          case Some(existing) =>
            statements := statements + [Update(existing.id, Fold(bundle.signal, existing.signal),
              if existing.context.Some? then existing.context else bundle.context)];
          case None =>
            statements := statements + [Relate(bundle.key, bundle.signal, bundle.context, bundle.origin)];
        }
        statements := EmitDeletes(statements, bundle.originals);
        j := j + 1;
      }
      assert byTarget[j..] == [];
      NoWrites(edges);
    }

    static method EmitDeletes(before: seq<Statement>, ids: seq<nat>) returns (statements: seq<Statement>)
      ensures statements == before + Deletes(ids)
    {
      statements := before;
      var k := 0;
      assert ids[..0] == [];
      while k < |ids|
        invariant 0 <= k <= |ids|
        invariant statements == before + Deletes(ids[..k])
      {
        assert ids[..k + 1] == ids[..k] + [ids[k]];
        DeletesSnoc(ids[..k], ids[k]);
        statements := statements + [Delete(ids[k])];
        k := k + 1;
      }
      assert ids[..k] == ids;
    }

    /** All statements in order; the first that fails rolls everything back. */
    method QueryTransaction(statements: seq<Statement>) returns (ok: bool)
      modifies this
      ensures match Transact(old(State()), statements)
        case None => !ok && State() == old(State())
        case Some(h) => ok && State() == h
    {
      hide Exec;
      var savedEdges, savedNext, savedEntities := edges, nextId, entities;
      var i := 0;
      assert statements[0..] == statements;
      while i < |statements|
        invariant 0 <= i <= |statements|
        invariant Transact(State(), statements[i..]) == Transact(old(State()), statements)
      {
        assert statements[i..][0] == statements[i] && statements[i..][1..] == statements[i + 1..];
        var next := Exec(State(), statements[i]);
        if next.None? {
          edges, nextId, entities := savedEdges, savedNext, savedEntities;
          return false;
        }
        edges, nextId, entities := next.value.rows, next.value.next, next.value.entities;
        i := i + 1;
      }
      assert statements[i..] == [];
      ok := true;
    }

    /** Moves all edges of `from` onto `to` in one transaction. */
    method ReassignEntityEdges(from: string, to: string) returns (ok: bool)
      requires State().Valid()
      modifies this
      ensures ok && State().Valid()
      ensures State() == if from == to then old(State()) else Reassigned(old(State()), from, to)
      ensures from != to ==> EdgesMoved(old(edges), edges, from, to)
    {
      hide Exec, Transact, Reassigned, Compose, EdgesMoved;
      var body := ComposeEdgeReassignment(from, to);
      if from != to {
        ReassignRuns(State(), from, to);
        ReassignMoves(State(), from, to);
      }
      NothingToDo(State(), from, to);
      if body == [] {
        return true;
      }
      ok := QueryTransaction(body);
    }

    /** Winner update, edge move, alias union and loser delete in one transaction. */
    method MergeEntities(winner: string, loser: string, updates: Updates) returns (ok: bool)
      requires State().Valid() && State().Keyed()
      modifies this
      ensures ok <==> Free(old(entities), winner, updates)
      ensures State().Keyed() && (!ok ==> State() == old(State())) && (ok ==> loser !in entities)
      ensures ok && winner != loser ==> State().Valid() && State() == Merged(old(State()), winner, loser, updates)
      ensures ok && winner != loser ==> EdgesMoved(old(edges), edges, loser, winner)
      ensures ok && winner == loser ==> edges == Outside(old(edges), loser)
    {
      hide Exec, Transact, Compose, Reassigned, WithNames, Free, Updated, EdgesMoved;
      ghost var g := State();
      var statements := [UpdateEntity(winner, updates)];
      var body := ComposeEdgeReassignment(loser, winner);
      statements := statements + body;
      if loser in entities {
        statements := statements + [AddNames(winner, entities[loser].names)];
      }
      statements := statements + [DropEntity(loser)];
      assert statements == MergeStatements(State(), winner, loser, updates);
      if winner == loser {
        SelfMergeErases(g, winner, updates);
        if Free(g.entities, winner, updates) {
          SelfMergeKeyed(g, winner, updates);
        }
      } else {
        MergeRuns(g, winner, loser, updates);
        MergeMoves(g, winner, loser, updates);
        if Free(g.entities, winner, updates) {
          MergeKeyed(g, winner, loser, updates);
        }
      }
      ok := QueryTransaction(statements);
    }
  }

  lemma NothingToDo(g: Graph, from: string, to: string)
    ensures from == to ==> Compose(g.rows, from, to) == []
    ensures Compose(g.rows, from, to) == [] ==> Transact(g, Compose(g.rows, from, to)) == Some(g)
  {
  }
}
