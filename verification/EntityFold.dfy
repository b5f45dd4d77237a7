/** The in-memory fold with its pre-read against moving the same edges one at a time
    (src/entities/entity-store.ts:612-637): the same table under the unique index, and for any
    group of edges bound for one target the exact condition under which their texts agree. */
module EntityFold {
  import opened OrderedMap
  import opened Sequences
  import opened EntityGraph
  import opened EntityMerge

  // ---------------------------------------------------------------- one edge at a time

  /** Moving one edge: the reassignment's own statements, for this edge alone. */
  function MoveStatements(rows: seq<Edge>, e: Edge, from: string, to: string): seq<Statement> {
    var b := BundleOf(e, from, to);
    if Loop(b.key) then Deletes([e.id]) else Writes(rows, [b])
  }

  /** Each edge in its own transaction, reading the table the previous one committed. */
  function MoveEach(g: Graph, edges: seq<Edge>, from: string, to: string): Option<Graph>
    decreases |edges|
  {
    if edges == [] then Some(g)
    else
      match Transact(g, MoveStatements(g.rows, edges[0], from, to))
      case None => None
      case Some(h) => MoveEach(h, edges[1..], from, to)
  }

  function Bundles(edges: seq<Edge>, from: string, to: string): seq<Bundle> {
    if edges == [] then []
    else (if Loop(Retarget(edges[0].key, from, to)) then [] else [BundleOf(edges[0], from, to)]) + Bundles(edges[1..], from, to)
  }

  lemma MoveOne(g: Graph, e: Edge, from: string, to: string, marks: set<nat>, gone: set<nat>) returns (h: Graph)
    requires g.Valid() && Marked(g, from, marks, gone) && from != to && Touches(e.key, from) && e.id in marks
    ensures Transact(g, MoveStatements(g.rows, e, from, to)) == Some(h)
    ensures h.Valid() && Marked(h, from, marks, gone + {e.id})
    ensures h.(rows := Outside(h.rows, from)) == UpsertAll(g.(rows := Outside(g.rows, from)), Bundles([e], from, to))
  {
    hide Transact, Upsert, Marked, Outside;
    var b := BundleOf(e, from, to);
    assert SetOf([e.id]) == {e.id} && Bundles([e][1..], from, to) == [];
    if Loop(b.key) {
      h := RunDeletes(g, [e.id], from, marks, gone);
    } else {
      assert Originals([b]) == SetOf(b.originals) + Originals([]);
      assert Originals([b]) == {e.id};
      h := RunWrites(g.rows, g, [b], from, marks, gone);
    }
  }

  lemma {:induction false} UpsertAllAppend(g: Graph, xs: seq<Bundle>, ys: seq<Bundle>)
    ensures UpsertAll(g, xs + ys) == UpsertAll(UpsertAll(g, xs), ys)
    decreases |xs|
  {
    hide Upsert;
    if xs == [] {
      assert xs + ys == ys;
    } else {
      assert (xs + ys)[1..] == xs[1..] + ys;
      UpsertAllAppend(Upsert(g, xs[0]), xs[1..], ys);
    }
  }

  lemma {:induction false} MoveEachRuns(g: Graph, edges: seq<Edge>, from: string, to: string, marks: set<nat>, gone: set<nat>)
    returns (h: Graph)
    requires g.Valid() && Marked(g, from, marks, gone) && from != to
    requires forall e :: e in edges ==> Touches(e.key, from) && e.id in marks
    ensures MoveEach(g, edges, from, to) == Some(h)
    ensures Marked(h, from, marks, gone + IdsOf(edges))
    ensures h.(rows := Outside(h.rows, from)) == UpsertAll(g.(rows := Outside(g.rows, from)), Bundles(edges, from, to))
    decreases |edges|
  {
    hide Transact, MoveStatements, UpsertAll, Marked, Outside, Touches;
    if edges == [] {
      h := g;
      assert gone + IdsOf(edges) == gone;
      UpsertNone(g.(rows := Outside(g.rows, from)));
    } else {
      var e, rest := edges[0], edges[1..];
      assert edges == [e] + rest;
      var g1 := MoveOne(g, e, from, to, marks, gone);
      h := MoveEachRuns(g1, rest, from, to, marks, gone + {e.id});
      assert gone + {e.id} + IdsOf(rest) == gone + IdsOf(edges);
      assert Bundles(edges, from, to) == Bundles([e], from, to) + Bundles(rest, from, to) by {
        assert [e][1..] == [];
      }
      UpsertAllAppend(g.(rows := Outside(g.rows, from)), Bundles([e], from, to), Bundles(rest, from, to));
    }
  }

  lemma UpsertNone(g: Graph)
    ensures UpsertAll(g, []) == g
  {
  }

  /** The table after moving all the loser's edges one at a time. */
  function MovedEach(g: Graph, from: string, to: string): Graph {
    UpsertAll(g.(rows := Outside(g.rows, from)), Bundles(Touching(g.rows, from), from, to))
  }

  lemma OneAtATime(g: Graph, from: string, to: string)
    requires g.Valid() && from != to
    ensures MoveEach(g, Touching(g.rows, from), from, to) == Some(MovedEach(g, from, to))
  {
    var edges := Touching(g.rows, from);
    StartMarked(g, from);
    forall e | e in edges
      ensures e.id in IdsOf(edges)
    {
    }
    var h := MoveEachRuns(g, edges, from, to, IdsOf(edges), {});
    assert {} + IdsOf(edges) == IdsOf(edges);
    AllGone(h, from, IdsOf(edges));
  }

  // ---------------------------------------------------------------- what one key sees

  datatype View = View(signal: Signal, context: Option<string>, origin: Origin)

  /** The row at a key, without its record id. */
  function ViewAt(g: Graph, k: Key): Option<View> {
    match FindRow(g.rows, k) case None => None case Some(e) => Some(View(e.signal, e.context, e.origin))
  }

  function Place(v: Option<View>, b: Bundle): View {
    match v
    case None => View(b.signal, b.context, b.origin)
    case Some(x) => View(Fold(b.signal, x.signal), if x.context.Some? then x.context else b.context, x.origin)
  }

  function PlaceAll(v: Option<View>, bs: seq<Bundle>): Option<View>
    decreases |bs|
  {
    if bs == [] then v else PlaceAll(Some(Place(v, bs[0])), bs[1..])
  }

  /** The bundles bound for `k`, in order. */
  function At(bs: seq<Bundle>, k: Key): (r: seq<Bundle>)
    ensures forall b :: b in r <==> b in bs && b.key == k
  {
    if bs == [] then [] else (if bs[0].key == k then [bs[0]] else []) + At(bs[1..], k)
  }

  lemma ViewUpsert(g: Graph, b: Bundle, k: Key)
    requires g.Valid()
    ensures ViewAt(Upsert(g, b), k) == if b.key == k then Some(Place(ViewAt(g, k), b)) else ViewAt(g, k)
  {
    if b.key == k {
      match FindRow(g.rows, b.key)
      case Some(e) =>
        FindSet(g.rows, e.id, Fold(b.signal, e.signal), if e.context.Some? then e.context else b.context, k);
      case None =>
        FindAppend(g.rows, Edge(g.next, b.key, b.signal, b.context, b.origin), k);
    } else {
      FindUpsert(g, b, k);
    }
  }

  lemma {:induction false} ViewUpsertAll(g: Graph, bs: seq<Bundle>, k: Key)
    requires g.Valid()
    ensures ViewAt(UpsertAll(g, bs), k) == PlaceAll(ViewAt(g, k), At(bs, k))
    decreases |bs|
  {
    hide Upsert, ViewAt, Place;
    if bs != [] {
      UpsertValid(g, bs[0]);
      ViewUpsert(g, bs[0], k);
      ViewUpsertAll(Upsert(g, bs[0]), bs[1..], k);
      if bs[0].key == k {
        assert At(bs, k) == [bs[0]] + At(bs[1..], k);
      } else {
        assert At(bs, k) == At(bs[1..], k);
      }
    }
  }

  // ---------------------------------------------------------------- squashing a group

  function Squash(b: Bundle, bs: seq<Bundle>): Bundle
    decreases |bs|
  {
    if bs == [] then b else Squash(Absorb(b, bs[0]), bs[1..])
  }

  function Squashed(bs: seq<Bundle>): seq<Bundle> {
    if bs == [] then [] else [Squash(bs[0], bs[1..])]
  }

  lemma {:induction false} AtNone(bs: seq<Bundle>, k: Key)
    requires forall b :: b in bs ==> b.key != k
    ensures At(bs, k) == []
  {
    if bs != [] {
      assert bs == [bs[0]] + bs[1..];
      AtNone(bs[1..], k);
    }
  }

  lemma {:induction false} AtMostOne(bs: seq<Bundle>, k: Key)
    requires DistinctKeys(bs)
    ensures |At(bs, k)| <= 1
  {
    if bs != [] {
      AtMostOne(bs[1..], k);
      if bs[0].key == k {
        AtNone(bs[1..], k);
      }
    }
  }

  lemma {:induction false} AtAddTo(bs: seq<Bundle>, b: Bundle, k: Key)
    requires DistinctKeys(bs)
    ensures At(AddTo(bs, b), k)
         == if b.key != k then At(bs, k) else if At(bs, k) == [] then [b] else [Absorb(At(bs, k)[0], b)]
    decreases |bs|
  {
    if bs != [] {
      var first, rest := bs[0], bs[1..];
      AtAddTo(rest, b, k);
      if first.key == k {
        AtNone(rest, k);
      }
      if first.key == b.key {
        assert AddTo(bs, b)[1..] == rest;
      } else {
        assert AddTo(bs, b)[1..] == AddTo(rest, b);
      }
    }
  }

  /** Folding one more bundle squashes it onto its group. */
  lemma AtNext(bs: seq<Bundle>, b: Bundle, k: Key, more: seq<Bundle>)
    requires DistinctKeys(bs)
    ensures Squashed(At(AddTo(bs, b), k) + more) == Squashed(At(bs, k) + ((if b.key == k then [b] else []) + more))
  {
    hide Squashed, AddTo, At;
    AtMostOne(bs, k);
    AtAddTo(bs, b, k);
    if b.key == k {
      SquashNext(At(bs, k), b, more);
    } else {
      assert [] + more == more;
    }
  }

  lemma AtBundles(edges: seq<Edge>, from: string, to: string, k: Key)
    requires edges != []
    ensures var b := BundleOf(edges[0], from, to);
      At(Bundles(edges, from, to), k)
      == (if b.key == k && !Loop(k) then [b] else []) + At(Bundles(edges[1..], from, to), k)
  {
    var b, rest := BundleOf(edges[0], from, to), Bundles(edges[1..], from, to);
    if Loop(b.key) {
      assert Bundles(edges, from, to) == rest;
    } else {
      assert Bundles(edges, from, to) == [b] + rest;
    }
  }

  lemma {:induction false} AtFold(edges: seq<Edge>, from: string, to: string, bs: seq<Bundle>, k: Key)
    requires Aimed(bs, from) && from != to
    ensures At(FoldEdges(edges, from, to, bs), k) == Squashed(At(bs, k) + At(Bundles(edges, from, to), k))
    decreases |edges|
  {
    hide At, AddTo, Squashed, Bundles;
    if edges == [] {
      AtMostOne(bs, k);
      AtEmpty(bs, from, to, k);
    } else {
      var b, rest := BundleOf(edges[0], from, to), edges[1..];
      var more := At(Bundles(rest, from, to), k);
      AddToKeys(bs, b);
      AtBundles(edges, from, to, k);
      AtFold(rest, from, to, if Loop(b.key) then bs else AddTo(bs, b), k);
      if Loop(b.key) {
        assert [] + more == more;
      } else {
        AtNext(bs, b, k, more);
      }
    }
  }

  lemma AtEmpty(bs: seq<Bundle>, from: string, to: string, k: Key)
    requires |At(bs, k)| <= 1
    ensures Squashed(At(bs, k) + At(Bundles([], from, to), k)) == At(bs, k)
  {
    assert At(bs, k) + [] == At(bs, k);
  }

  lemma SquashNext(group: seq<Bundle>, b: Bundle, more: seq<Bundle>)
    requires |group| <= 1
    ensures Squashed(group + ([b] + more)) == Squashed((if group == [] then [b] else [Absorb(group[0], b)]) + more)
  {
    if group == [] {
      assert group + ([b] + more) == [b] + more;
    } else {
      assert (group + ([b] + more))[1..] == [b] + more;
      assert ([b] + more)[1..] == more;
      assert ([Absorb(group[0], b)] + more)[1..] == more;
    }
  }

  // ---------------------------------------------------------------- signals agree, contexts

  function FirstSome(bs: seq<Bundle>): Option<string> {
    if bs == [] then None else if bs[0].context.Some? then bs[0].context else FirstSome(bs[1..])
  }

  /** The edges of one group never put an empty text before a non-empty one, and none before
      a missing one at the group's head. */
  ghost predicate Clear(bs: seq<Bundle>) {
    bs == [] || FirstSome(bs) != Some("") || (bs[0].context == Some("") && forall b :: b in bs ==> Blank(b.context))
  }

  lemma {:induction false} SquashView(v: Option<View>, b: Bundle, bs: seq<Bundle>)
    ensures PlaceAll(Some(Place(v, b)), bs).Some?
    ensures var one, each := Place(v, Squash(b, bs)), PlaceAll(Some(Place(v, b)), bs).value;
      one.signal == each.signal && one.origin == each.origin
    decreases |bs|
  {
    if bs != [] {
      SquashView(v, Absorb(b, bs[0]), bs[1..]);
      var x, y := Place(v, Absorb(b, bs[0])), Place(Some(Place(v, b)), bs[0]);
      SameButContext(x, y, bs[1..]);
    }
  }

  lemma {:induction false} SameButContext(x: View, y: View, bs: seq<Bundle>)
    requires x.signal == y.signal && x.origin == y.origin
    ensures var p, q := PlaceAll(Some(x), bs), PlaceAll(Some(y), bs);
      p.Some? && q.Some? && p.value.signal == q.value.signal && p.value.origin == q.value.origin
    decreases |bs|
  {
    if bs != [] {
      SameButContext(Place(Some(x), bs[0]), Place(Some(y), bs[0]), bs[1..]);
    }
  }

  lemma {:induction false} EachContext(v: View, bs: seq<Bundle>)
    ensures PlaceAll(Some(v), bs).Some?
    ensures PlaceAll(Some(v), bs).value.context == if v.context.Some? then v.context else FirstSome(bs)
    decreases |bs|
  {
    if bs != [] {
      EachContext(Place(Some(v), bs[0]), bs[1..]);
    }
  }

  lemma {:induction false} SquashContext(b: Bundle, bs: seq<Bundle>)
    ensures Squash(b, bs).context == if Blank(b.context) then FirstTextIn(b.context, bs) else b.context
    decreases |bs|
  {
    if bs != [] {
      SquashContext(Absorb(b, bs[0]), bs[1..]);
    }
  }

  function FirstTextIn(c: Option<string>, bs: seq<Bundle>): Option<string> {
    if bs == [] then c else if Blank(bs[0].context) then FirstTextIn(c, bs[1..]) else bs[0].context
  }

  lemma {:induction false} TextsIn(c: Option<string>, bs: seq<Bundle>)
    requires Blank(c)
    ensures FirstTextIn(c, bs) == c <==> forall b :: b in bs ==> Blank(b.context)
    ensures c == None ==> (FirstTextIn(c, bs) == FirstSome(bs) <==> FirstSome(bs) != Some(""))
    decreases |bs|
  {
    if bs != [] {
      assert bs == [bs[0]] + bs[1..];
      TextsIn(c, bs[1..]);
      NotEmpty(bs[1..]);
    }
  }

  lemma {:induction false} NotEmpty(bs: seq<Bundle>)
    ensures FirstTextIn(None, bs) != Some("")
  {
    if bs != [] {
      NotEmpty(bs[1..]);
    }
  }

  /** One target: folded first and then placed, against placed one after another. */
  lemma GroupAgrees(v: Option<View>, bs: seq<Bundle>)
    ensures var one, each := PlaceAll(v, Squashed(bs)), PlaceAll(v, bs);
      && (one.Some? <==> each.Some?)
      && (one.Some? ==> one.value.signal == each.value.signal && one.value.origin == each.value.origin)
      && (one == each <==> (v.Some? && v.value.context.Some?) || Clear(bs))
  {
    if bs != [] {
      var b, rest := bs[0], bs[1..];
      assert bs == [b] + rest;
      var s := Squash(b, rest);
      assert Squashed(bs)[1..] == [];
      assert PlaceAll(v, Squashed(bs)) == Some(Place(v, s));
      SquashView(v, b, rest);
      SquashContext(b, rest);
      EachContext(Place(v, b), rest);
      if Blank(b.context) {
        TextsIn(b.context, rest);
      }
    }
  }

  /** The two do differ on a group of two whose first text is empty. */
  lemma EmptyTextDiffers() returns (bs: seq<Bundle>)
    ensures |bs| == 2 && bs[0].key == bs[1].key && !Clear(bs)
    ensures PlaceAll(None, Squashed(bs)) != PlaceAll(None, bs)
  {
    var k, s, o := Key("w", "m", "knows"), Signal(1.0, 0.5, 0), Origin(0, None, "p", "user", None, None);
    bs := [Bundle(k, s, Some(""), o, [0]), Bundle(k, s, Some("text"), o, [1])];
    assert !Blank(bs[1].context);
    GroupAgrees(None, bs);
  }

  // ---------------------------------------------------------------- the theorem

  /** The unique index leaves at most one loser edge per target: two edges that move to the
      same key, not a loop, have the same key already. */
  lemma SameTarget(j: Key, k: Key, from: string, to: string)
    requires from != to && Touches(j, from) && Touches(k, from)
    requires Retarget(j, from, to) == Retarget(k, from, to) && !Loop(Retarget(j, from, to))
    ensures j == k
  {
    assert j.src == from <==> j.dst != from;
    assert k.src == from <==> k.dst != from;
  }

  lemma {:induction false} OneEdgePerTarget(rows: seq<Edge>, from: string, to: string, k: Key)
    requires Separate(rows) && from != to
    ensures |At(Bundles(Touching(rows, from), from, to), k)| <= 1
  {
    if rows != [] {
      var first, rest := rows[0], rows[1..];
      OneEdgePerTarget(rest, from, to, k);
      if !Touches(first.key, from) {
        assert Touching(rows, from) == Touching(rest, from);
      } else {
        assert Touching(rows, from) == [first] + Touching(rest, from);
        assert ([first] + Touching(rest, from))[1..] == Touching(rest, from);
        AtBundles(Touching(rows, from), from, to, k);
        if Retarget(first.key, from, to) == k && !Loop(k) {
          NoOther(Touching(rest, from), first, from, to);
        }
      }
    }
  }

  lemma {:induction false} NoOther(edges: seq<Edge>, e: Edge, from: string, to: string)
    requires from != to && Touches(e.key, from) && !Loop(Retarget(e.key, from, to))
    requires forall f :: f in edges ==> Touches(f.key, from) && f.key != e.key
    ensures At(Bundles(edges, from, to), Retarget(e.key, from, to)) == []
  {
    if edges != [] {
      assert edges == [edges[0]] + edges[1..];
      var k := Retarget(e.key, from, to);
      NoOther(edges[1..], e, from, to);
      AtBundles(edges, from, to, k);
      if Retarget(edges[0].key, from, to) == k {
        SameTarget(edges[0].key, e.key, from, to);
      }
    }
  }

  /** Fold and pre-read are moving the edges one at a time: at every key the same row exists,
      with the same signal, text and origin. */
  lemma FoldIsOneAtATime(g: Graph, from: string, to: string, k: Key)
    requires g.Valid() && from != to
    ensures ViewAt(Reassigned(g, from, to), k) == ViewAt(MovedEach(g, from, to), k)
  {
    hide Upsert, UpsertAll, FoldEdges, Place, PlaceAll, Squashed, Bundles, At, FindRow;
    var edges, core := Touching(g.rows, from), g.(rows := Outside(g.rows, from));
    OutsideSeparate(g.rows, from);
    ViewUpsertAll(core, FoldEdges(edges, from, to, []), k);
    ViewUpsertAll(core, Bundles(edges, from, to), k);
    var group := At(Bundles(edges, from, to), k);
    AtFold(edges, from, to, [], k);
    NoneAt(k);
    assert [] + group == group;
    OneEdgePerTarget(g.rows, from, to, k);
    GroupOfOne(ViewAt(core, k), group);
  }

  lemma NoneAt(k: Key)
    ensures At([], k) == []
  {
  }

  lemma GroupOfOne(v: Option<View>, bs: seq<Bundle>)
    requires |bs| <= 1
    ensures PlaceAll(v, Squashed(bs)) == PlaceAll(v, bs)
  {
    if bs != [] {
      assert Squashed(bs) == bs;
    }
  }
}
