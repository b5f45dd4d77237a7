/** What moving a loser's edges onto a winner does to the graph, and that merging a cluster is
    taking its quotient (src/entities/entity-store.ts). */
module EntityMerge {
  import opened OrderedMap
  import opened Sequences
  import opened EntityGraph

  // ---------------------------------------------------------------- one target at a time

  /** One bundle put onto the table as it is: update its target row or create it. */
  function Upsert(g: Graph, b: Bundle): (h: Graph)
    ensures Exec(g, WriteOf(g.rows, b)) == Some(h)
  {
    match FindRow(g.rows, b.key)
    case Some(e) =>
      g.(rows := SetRow(g.rows, e.id, Fold(b.signal, e.signal), if e.context.Some? then e.context else b.context))
    case None =>
      g.(rows := g.rows + [Edge(g.next, b.key, b.signal, b.context, b.origin)], next := g.next + 1)
  }

  function UpsertAll(g: Graph, bs: seq<Bundle>): Graph
    decreases |bs|
  {
    if bs == [] then g else UpsertAll(Upsert(g, bs[0]), bs[1..])
  }

  lemma {:induction false} AppendSeparate(rows: seq<Edge>, e: Edge)
    requires Separate(rows) && Apart(e, rows)
    ensures Separate(rows + [e])
  {
    if rows == [] {
      assert rows + [e] == [e];
    } else {
      assert rows == [rows[0]] + rows[1..];
      AppendSeparate(rows[1..], e);
      assert rows + [e] == [rows[0]] + (rows[1..] + [e]);
    }
  }

  lemma {:induction false} SetSeparate(rows: seq<Edge>, id: nat, s: Signal, c: Option<string>)
    requires Separate(rows)
    ensures Separate(SetRow(rows, id, s, c))
    ensures forall f :: f in SetRow(rows, id, s, c) ==> exists e :: e in rows && e.id == f.id && e.key == f.key
  {
    if rows != [] {
      SetSeparate(rows[1..], id, s, c);
    }
  }

  lemma {:induction false} SameRow(rows: seq<Edge>, e: Edge, f: Edge)
    requires Separate(rows) && e in rows && f in rows && (e.id == f.id || e.key == f.key)
    ensures e == f
  {
    if e != rows[0] && f != rows[0] {
      SameRow(rows[1..], e, f);
    }
  }

  lemma UpsertValid(g: Graph, b: Bundle)
    requires g.Valid()
    ensures Upsert(g, b).Valid()
    ensures Upsert(g, b).next >= g.next && Upsert(g, b).entities == g.entities
  {
    match FindRow(g.rows, b.key)
    case Some(e) =>
      SetSeparate(g.rows, e.id, Fold(b.signal, e.signal), if e.context.Some? then e.context else b.context);
    case None =>
      AppendSeparate(g.rows, Edge(g.next, b.key, b.signal, b.context, b.origin));
  }

  lemma {:induction false} UpsertAllValid(g: Graph, bs: seq<Bundle>)
    requires g.Valid()
    ensures UpsertAll(g, bs).Valid() && UpsertAll(g, bs).entities == g.entities
    decreases |bs|
  {
    if bs != [] {
      UpsertValid(g, bs[0]);
      UpsertAllValid(Upsert(g, bs[0]), bs[1..]);
    }
  }

  // ---------------------------------------------------------------- looking rows up

  lemma {:induction false} FindAppend(rows: seq<Edge>, e: Edge, k: Key)
    ensures FindRow(rows + [e], k) == if FindRow(rows, k).Some? then FindRow(rows, k) else if e.key == k then Some(e) else None
  {
    if rows == [] {
      assert rows + [e] == [e];
    } else {
      assert (rows + [e])[1..] == rows[1..] + [e];
      FindAppend(rows[1..], e, k);
    }
  }

  lemma {:induction false} FindSet(rows: seq<Edge>, id: nat, s: Signal, c: Option<string>, k: Key)
    ensures FindRow(SetRow(rows, id, s, c), k)
         == match FindRow(rows, k) case None => None
            case Some(e) => Some(if e.id == id then e.(signal := s, context := c) else e)
  {
    if rows != [] {
      FindSet(rows[1..], id, s, c, k);
    }
  }

  lemma {:induction false} FindWithout(rows: seq<Edge>, id: nat, k: Key)
    requires forall e :: e in rows && e.key == k ==> e.id != id
    ensures FindRow(WithoutRow(rows, id), k) == FindRow(rows, k)
  {
    if rows != [] {
      var first, rest := rows[0], rows[1..];
      assert rows == [first] + rest;
      FindWithout(rest, id, k);
      if first.id == id {
        assert WithoutRow(rows, id) == WithoutRow(rest, id);
      } else {
        assert WithoutRow(rows, id) == [first] + WithoutRow(rest, id);
      }
    }
  }

  lemma {:induction false} FindOutside(rows: seq<Edge>, x: string, k: Key)
    requires !Touches(k, x)
    ensures FindRow(Outside(rows, x), k) == FindRow(rows, k)
  {
    if rows != [] {
      var first, rest := rows[0], rows[1..];
      FindOutside(rest, x, k);
      if Touches(first.key, x) {
        assert Outside(rows, x) == Outside(rest, x);
      } else {
        assert Outside(rows, x) == [first] + Outside(rest, x);
      }
    }
  }

  /** In a valid table an upsert touches no row of another key. */
  lemma FindUpsert(g: Graph, b: Bundle, k: Key)
    requires g.Valid() && k != b.key
    ensures FindRow(Upsert(g, b).rows, k) == FindRow(g.rows, k)
  {
    match FindRow(g.rows, b.key)
    case Some(e) =>
      FindSet(g.rows, e.id, Fold(b.signal, e.signal), if e.context.Some? then e.context else b.context, k);
      if FindRow(g.rows, k).Some? && FindRow(g.rows, k).value.id == e.id {
        SameRow(g.rows, FindRow(g.rows, k).value, e);
      }
    case None =>
      FindAppend(g.rows, Edge(g.next, b.key, b.signal, b.context, b.origin), k);
  }

  // ---------------------------------------------------------------- rows away from the loser

  lemma {:induction false} OutsideAppend(rows: seq<Edge>, e: Edge, x: string)
    ensures Outside(rows + [e], x) == Outside(rows, x) + if Touches(e.key, x) then [] else [e]
  {
    if rows == [] {
      assert rows + [e] == [e];
    } else {
      assert (rows + [e])[1..] == rows[1..] + [e];
      OutsideAppend(rows[1..], e, x);
    }
  }

  lemma OutsideCons(e: Edge, rest: seq<Edge>, x: string)
    ensures Outside([e] + rest, x) == (if Touches(e.key, x) then [] else [e]) + Outside(rest, x)
  {
    assert ([e] + rest)[1..] == rest;
  }

  function SetOne(e: Edge, id: nat, s: Signal, c: Option<string>): (r: Edge)
    ensures r.key == e.key && r.id == e.id
  {
    if e.id == id then e.(signal := s, context := c) else e
  }

  lemma SetCons(e: Edge, rest: seq<Edge>, id: nat, s: Signal, c: Option<string>)
    ensures SetRow([e] + rest, id, s, c) == [SetOne(e, id, s, c)] + SetRow(rest, id, s, c)
  {
    assert ([e] + rest)[1..] == rest;
  }

  lemma {:induction false} OutsideSet(rows: seq<Edge>, id: nat, s: Signal, c: Option<string>, x: string)
    ensures Outside(SetRow(rows, id, s, c), x) == SetRow(Outside(rows, x), id, s, c)
  {
    if rows != [] {
      var e, rest := rows[0], rows[1..];
      assert rows == [e] + rest;
      OutsideSet(rest, id, s, c, x);
      SetCons(e, rest, id, s, c);
      OutsideCons(e, rest, x);
      OutsideCons(SetOne(e, id, s, c), SetRow(rest, id, s, c), x);
      SetCons(e, Outside(rest, x), id, s, c);
      hide Outside, SetRow, SetOne;
      assert [] + Outside(rest, x) == Outside(rest, x);
      assert [] + SetRow(Outside(rest, x), id, s, c) == SetRow(Outside(rest, x), id, s, c);
    }
  }

  lemma {:induction false} OutsideWithout(rows: seq<Edge>, id: nat, x: string)
    requires forall e :: e in rows && e.id == id ==> Touches(e.key, x)
    ensures Outside(WithoutRow(rows, id), x) == Outside(rows, x)
  {
    if rows != [] {
      var first, rest := rows[0], rows[1..];
      assert rows == [first] + rest;
      OutsideWithout(rest, id, x);
      if first.id == id {
        assert WithoutRow(rows, id) == WithoutRow(rest, id);
      } else {
        assert WithoutRow(rows, id) == [first] + WithoutRow(rest, id);
      }
    }
  }

  lemma {:induction false} OutsideAll(rows: seq<Edge>, x: string)
    requires forall e :: e in rows ==> !Touches(e.key, x)
    ensures Outside(rows, x) == rows
  {
    if rows != [] {
      assert rows == [rows[0]] + rows[1..];
      OutsideAll(rows[1..], x);
    }
  }

  lemma {:induction false} OutsideSeparate(rows: seq<Edge>, x: string)
    requires Separate(rows)
    ensures Separate(Outside(rows, x))
  {
    if rows != [] {
      var first, rest := rows[0], rows[1..];
      OutsideSeparate(rest, x);
      if Touches(first.key, x) {
        assert Outside(rows, x) == Outside(rest, x);
      } else {
        assert Outside(rows, x) == [first] + Outside(rest, x);
      }
    }
  }

  lemma OutsideUpsert(g: Graph, b: Bundle, x: string)
    requires !Touches(b.key, x)
    ensures Upsert(g, b).(rows := Outside(Upsert(g, b).rows, x)) == Upsert(g.(rows := Outside(g.rows, x)), b)
  {
    FindOutside(g.rows, x, b.key);
    match FindRow(g.rows, b.key)
    case Some(e) =>
      OutsideSet(g.rows, e.id, Fold(b.signal, e.signal), if e.context.Some? then e.context else b.context, x);
    case None =>
      OutsideAppend(g.rows, Edge(g.next, b.key, b.signal, b.context, b.origin), x);
  }

  // ---------------------------------------------------------------- the transaction's run

  /** `ids` are the rows that touched `x`, of which `gone` are deleted by now. */
  ghost predicate Marked(g: Graph, x: string, ids: set<nat>, gone: set<nat>) {
    && (forall e :: e in g.rows ==> e.id !in gone && (Touches(e.key, x) <==> e.id in ids))
    && (forall i :: i in ids ==> i < g.next)
    && gone <= ids
  }

  ghost function Originals(bs: seq<Bundle>): set<nat> {
    if bs == [] then {} else SetOf(bs[0].originals) + Originals(bs[1..])
  }

  lemma {:induction false} WithoutSeparate(rows: seq<Edge>, id: nat)
    requires Separate(rows)
    ensures Separate(WithoutRow(rows, id))
  {
    if rows != [] {
      var first, rest := rows[0], rows[1..];
      WithoutSeparate(rest, id);
      if first.id == id {
        assert WithoutRow(rows, id) == WithoutRow(rest, id);
      } else {
        assert WithoutRow(rows, id) == [first] + WithoutRow(rest, id);
      }
    }
  }

  /** Deleting originals: only rows that touch the loser go. */
  lemma {:induction false} RunDeletes(g: Graph, ids: seq<nat>, x: string, marks: set<nat>, gone: set<nat>) returns (h: Graph)
    requires g.Valid() && Marked(g, x, marks, gone) && SetOf(ids) <= marks
    ensures Transact(g, Deletes(ids)) == Some(h)
    ensures h.Valid() && Marked(h, x, marks, gone + SetOf(ids)) && h.next == g.next && h.entities == g.entities
    ensures Outside(h.rows, x) == Outside(g.rows, x)
    ensures forall k :: !Touches(k, x) ==> FindRow(h.rows, k) == FindRow(g.rows, k)
    decreases |ids|
  {
    if ids == [] {
      h := g;
      assert SetOf(ids) == {};
    } else {
      assert ids[0] in ids && ids == [ids[0]] + ids[1..];
      assert SetOf(ids) == {ids[0]} + SetOf(ids[1..]);
      var g1 := g.(rows := WithoutRow(g.rows, ids[0]));
      WithoutSeparate(g.rows, ids[0]);
      OutsideWithout(g.rows, ids[0], x);
      forall k | !Touches(k, x)
        ensures FindRow(g1.rows, k) == FindRow(g.rows, k)
      {
        FindWithout(g.rows, ids[0], k);
      }
      h := RunDeletes(g1, ids[1..], x, marks, gone + {ids[0]});
      assert gone + {ids[0]} + SetOf(ids[1..]) == gone + SetOf(ids);
    }
  }

  ghost predicate DistinctKeys(bs: seq<Bundle>) {
    forall i, j :: 0 <= i < j < |bs| ==> bs[i].key != bs[j].key
  }

  /** What each bundle's statements rely on: its target avoids the loser, and the row read
      before the transaction is the row the table still has. */
  ghost predicate Ready(read: seq<Edge>, g: Graph, bs: seq<Bundle>, x: string) {
    forall b :: b in bs ==> !Touches(b.key, x) && FindRow(read, b.key) == FindRow(g.rows, b.key)
  }

  lemma UpsertMarked(g: Graph, b: Bundle, x: string, marks: set<nat>, gone: set<nat>)
    requires g.Valid() && Marked(g, x, marks, gone) && !Touches(b.key, x)
    ensures Marked(Upsert(g, b), x, marks, gone)
  {
    match FindRow(g.rows, b.key)
    case Some(e) =>
      SetSeparate(g.rows, e.id, Fold(b.signal, e.signal), if e.context.Some? then e.context else b.context);
    case None =>
  }

  lemma UpsertReady(read: seq<Edge>, g: Graph, bs: seq<Bundle>, x: string, marks: set<nat>, gone: set<nat>)
    requires bs != [] && g.Valid() && Marked(g, x, marks, gone) && DistinctKeys(bs) && Ready(read, g, bs, x)
    ensures Exec(g, WriteOf(read, bs[0])) == Some(Upsert(g, bs[0]))
    ensures Marked(Upsert(g, bs[0]), x, marks, gone) && Ready(read, Upsert(g, bs[0]), bs[1..], x)
  {
    assert bs[0] in bs;
    UpsertMarked(g, bs[0], x, marks, gone);
    forall b | b in bs[1..]
      ensures !Touches(b.key, x) && FindRow(read, b.key) == FindRow(Upsert(g, bs[0]).rows, b.key)
    {
      assert b in bs && b.key != bs[0].key;
      FindUpsert(g, bs[0], b.key);
    }
  }

  /** The writes of a reassignment always go through; away from the loser they are upserts. */
  lemma {:induction false} RunWrites(read: seq<Edge>, g: Graph, bs: seq<Bundle>, x: string, marks: set<nat>, gone: set<nat>) returns (h: Graph)
    requires g.Valid() && Marked(g, x, marks, gone) && DistinctKeys(bs) && Ready(read, g, bs, x)
    requires Originals(bs) <= marks
    ensures Transact(g, Writes(read, bs)) == Some(h)
    ensures h.Valid() && Marked(h, x, marks, gone + Originals(bs))
    ensures h.(rows := Outside(h.rows, x)) == UpsertAll(g.(rows := Outside(g.rows, x)), bs)
    decreases |bs|
  {
    hide Upsert, WriteOf, Touches, Marked;
    if bs == [] {
      h := g;
      assert gone + Originals(bs) == gone;
    } else {
      var b := bs[0];
      assert b in bs;
      UpsertReady(read, g, bs, x, marks, gone);
      UpsertValid(g, b);
      OutsideUpsert(g, b, x);
      var g1 := Upsert(g, b);
      var g2 := RunDeletes(g1, b.originals, x, marks, gone);
      NextWrites(read, g, bs, g1, g2);
      h := RunWrites(read, g2, bs[1..], x, marks, gone + SetOf(b.originals));
      assert gone + SetOf(b.originals) + Originals(bs[1..]) == gone + Originals(bs);
    }
  }

  lemma NextWrites(read: seq<Edge>, g: Graph, bs: seq<Bundle>, g1: Graph, g2: Graph)
    requires bs != [] && Exec(g, WriteOf(read, bs[0])) == Some(g1)
    requires Transact(g1, Deletes(bs[0].originals)) == Some(g2)
    ensures Transact(g, Writes(read, bs)) == Transact(g2, Writes(read, bs[1..]))
  {
    hide Exec, WriteOf;
    var first, mid, rest := WriteOf(read, bs[0]), Deletes(bs[0].originals), Writes(read, bs[1..]);
    var ss := mid + rest;
    assert Writes(read, bs) == [first] + ss;
    assert ([first] + ss)[1..] == ss;
    assert Transact(g, [first] + ss) == Transact(g1, ss);
    TransactAppend(g1, mid, rest);
  }

  // ---------------------------------------------------------------- the fold

  lemma {:induction false} AddToKeys(bs: seq<Bundle>, b: Bundle)
    requires DistinctKeys(bs)
    ensures DistinctKeys(AddTo(bs, b))
    ensures forall c :: c in AddTo(bs, b) ==> c.key == b.key || exists d :: d in bs && d.key == c.key
    ensures Originals(AddTo(bs, b)) == Originals(bs) + SetOf(b.originals)
    decreases |bs|
  {
    if bs != [] {
      assert bs == [bs[0]] + bs[1..];
      AddToKeys(bs[1..], b);
      if bs[0].key == b.key {
        var rest := bs[1..];
        assert AddTo(bs, b)[1..] == rest;
        assert SetOf(bs[0].originals + b.originals) == SetOf(bs[0].originals) + SetOf(b.originals);
      } else {
        assert AddTo(bs, b)[1..] == AddTo(bs[1..], b);
      }
    }
  }

  ghost predicate Aimed(bs: seq<Bundle>, from: string) {
    DistinctKeys(bs) && forall b :: b in bs ==> !Touches(b.key, from) && !Loop(b.key)
  }

  ghost function IdsOf(edges: seq<Edge>): (s: set<nat>) {
    set e | e in edges :: e.id
  }

  /** The fold's targets are distinct and avoid the loser, and every edge read is deleted. */
  lemma {:induction false} FoldTargets(edges: seq<Edge>, from: string, to: string, bs: seq<Bundle>)
    requires from != to && Aimed(bs, from)
    ensures Aimed(FoldEdges(edges, from, to, bs), from)
    ensures Originals(FoldEdges(edges, from, to, bs)) + SetOf(LoopIds(edges, from, to)) == Originals(bs) + IdsOf(edges)
    decreases |edges|
  {
    if edges != [] {
      var e, rest, b := edges[0], edges[1..], BundleOf(edges[0], from, to);
      assert edges == [e] + rest;
      assert IdsOf(edges) == {e.id} + IdsOf(rest);
      AddToKeys(bs, b);
      assert SetOf(b.originals) == {e.id};
      FoldTargets(rest, from, to, if Loop(b.key) then bs else AddTo(bs, b));
      if Loop(b.key) {
        assert LoopIds(edges, from, to) == [e.id] + LoopIds(rest, from, to);
        assert SetOf([e.id] + LoopIds(rest, from, to)) == {e.id} + SetOf(LoopIds(rest, from, to));
      } else {
        assert LoopIds(edges, from, to) == LoopIds(rest, from, to);
      }
    } else {
      assert IdsOf(edges) == {} && SetOf(LoopIds(edges, from, to)) == {};
    }
  }

  // ---------------------------------------------------------------- one reassignment

  /** The rows away from the loser, with each target of the fold put onto them. */
  function Reassigned(g: Graph, from: string, to: string): Graph {
    UpsertAll(g.(rows := Outside(g.rows, from)), FoldEdges(Touching(g.rows, from), from, to, []))
  }

  lemma StartMarked(g: Graph, x: string)
    requires g.Valid()
    ensures Marked(g, x, IdsOf(Touching(g.rows, x)), {})
  {
    forall e | e in g.rows
      ensures Touches(e.key, x) <==> e.id in IdsOf(Touching(g.rows, x))
    {
      if e.id in IdsOf(Touching(g.rows, x)) {
        var f :| f in Touching(g.rows, x) && f.id == e.id;
        SameRow(g.rows, e, f);
      }
    }
  }

  lemma AllGone(g: Graph, x: string, marks: set<nat>)
    requires Marked(g, x, marks, marks)
    ensures forall e :: e in g.rows ==> !Touches(e.key, x)
    ensures g.(rows := Outside(g.rows, x)) == g
  {
    OutsideAll(g.rows, x);
  }

  lemma FoldReady(g: Graph, h: Graph, bs: seq<Bundle>, x: string)
    requires Aimed(bs, x)
    requires forall k :: !Touches(k, x) ==> FindRow(h.rows, k) == FindRow(g.rows, k)
    ensures Ready(g.rows, h, bs, x)
  {
  }

  /** For distinct ids the transaction always goes through: no RELATE meets a taken key. It
      leaves a valid table in which no edge touches the loser. */
  lemma ReassignRuns(g: Graph, from: string, to: string)
    requires g.Valid() && from != to
    ensures Transact(g, Compose(g.rows, from, to)) == Some(Reassigned(g, from, to))
    ensures Reassigned(g, from, to).Valid() && Reassigned(g, from, to).entities == g.entities
    ensures forall e :: e in Reassigned(g, from, to).rows ==> !Touches(e.key, from)
  {
    hide Upsert, UpsertAll, Exec, Transact, Writes, Deletes, Touches, Marked, Ready, FindRow, FoldEdges, LoopIds, IdsOf, Separate;
    var edges := Touching(g.rows, from);
    var marks, loops, bs := IdsOf(edges), LoopIds(edges, from, to), FoldEdges(edges, from, to, []);
    StartMarked(g, from);
    FoldTargets(edges, from, to, []);
    assert {} + SetOf(loops) + Originals(bs) == marks;
    var g1 := RunDeletes(g, loops, from, marks, {});
    FoldReady(g, g1, bs, from);
    var h := RunWrites(g.rows, g1, bs, from, marks, {} + SetOf(loops));
    TransactAppend(g, Deletes(loops), Writes(g.rows, bs));
    AllGone(h, from, marks);
    OutsideSeparate(g.rows, from);
    UpsertAllValid(g.(rows := Outside(g.rows, from)), bs);
  }
}
