/** Merging entities in the graph: how the edges of a loser move onto a winner
    (src/entities/entity-store.ts, composeEdgeReassignment and mergeEntities). */
module EntityGraph {
  import opened OrderedMap

  datatype Key = Key(src: string, dst: string, kind: string)

  /** What merging combines: weights add up, confidence and last sighting take the later. */
  datatype Signal = Signal(weight: real, confidence: real, lastSeen: int)

  /** The fields a moved edge copies unchanged. */
  datatype Origin = Origin(observedAt: int, sourceMemoryId: Option<string>, sourceProject: string,
                           scope: string, sessionId: Option<string>, provenance: Option<string>)

  datatype Edge = Edge(id: nat, key: Key, signal: Signal, context: Option<string>, origin: Origin)

  datatype Names = Names(aliases: seq<string>, aliasesNorm: seq<string>)

  /** The columns of the unique index over the entities. */
  datatype EntityKey = EntityKey(userId: string, nameNorm: string, kind: string, scope: string, sessionId: Option<string>)

  datatype Entity = Entity(key: EntityKey, names: Names)

  /** The winner's fields that mergeEntities sets and that matter here. */
  datatype Updates = Updates(nameNorm: Option<string>, names: Names)

  /** The edge table in insertion order, the next record id, and the entities. */
  datatype Graph = Graph(rows: seq<Edge>, next: nat, entities: map<string, Entity>) {
    /** The primary key and the unique index over in, out and kind. */
    ghost predicate Valid() {
      Separate(rows) && forall e :: e in rows ==> e.id < next
    }

    /** The unique index over the entities; a row without a session is not compared. */
    ghost predicate Keyed() {
      forall x :: x in entities ==> !KeyTaken(entities, x, entities[x].key)
    }
  }

  /** Another row than `x` holds this key. */
  predicate KeyTaken(entities: map<string, Entity>, x: string, k: EntityKey) {
    k.sessionId.Some? && exists y :: y in entities && y != x && entities[y].key == k
  }

  ghost predicate Apart(e: Edge, rows: seq<Edge>) {
    forall f :: f in rows ==> f.id != e.id && f.key != e.key
  }

  /** No two rows share an id or a key. */
  ghost predicate Separate(rows: seq<Edge>) {
    rows == [] || (Apart(rows[0], rows[1..]) && Separate(rows[1..]))
  }

  // ---------------------------------------------------------------- signals

  function MaxReal(a: real, b: real): real {
    if a > b then a else b
  }

  function MaxInt(a: int, b: int): int {
    if a > b then a else b
  }

  function Fold(a: Signal, b: Signal): Signal {
    Signal(a.weight + b.weight, MaxReal(a.confidence, b.confidence), MaxInt(a.lastSeen, b.lastSeen))
  }

  function Join(a: Option<Signal>, b: Option<Signal>): Option<Signal> {
    if a.None? then b else if b.None? then a else Some(Fold(a.value, b.value))
  }

  lemma JoinSwap(a: Option<Signal>, b: Option<Signal>, c: Option<Signal>)
    ensures Join(a, b) == Join(b, a)
    ensures Join(Join(a, b), c) == Join(a, Join(b, c)) == Join(Join(a, c), b)
  {
  }

  function Only(keep: bool, s: Signal): Option<Signal> {
    if keep then Some(s) else None
  }

  /** The combined signal of all rows whose key satisfies `p`. */
  ghost function Total(rows: seq<Edge>, p: Key -> bool): Option<Signal> {
    if rows == [] then None
    else Join(Only(p(rows[0].key), rows[0].signal), Total(rows[1..], p))
  }

  // ---------------------------------------------------------------- moving a key

  function Renamed(x: string, from: string, to: string): string {
    if x == from then to else x
  }

  function Retarget(k: Key, from: string, to: string): Key {
    Key(Renamed(k.src, from, to), Renamed(k.dst, from, to), k.kind)
  }

  predicate Touches(k: Key, x: string) {
    k.src == x || k.dst == x
  }

  predicate Loop(k: Key) {
    k.src == k.dst
  }

  function Touching(rows: seq<Edge>, x: string): (r: seq<Edge>)
    ensures forall e :: e in r <==> e in rows && Touches(e.key, x)
  {
    if rows == [] then []
    else (if Touches(rows[0].key, x) then [rows[0]] else []) + Touching(rows[1..], x)
  }

  function Outside(rows: seq<Edge>, x: string): (r: seq<Edge>)
    ensures forall e :: e in r <==> e in rows && !Touches(e.key, x)
  {
    if rows == [] then []
    else (if Touches(rows[0].key, x) then [] else [rows[0]]) + Outside(rows[1..], x)
  }

  // ---------------------------------------------------------------- the in-memory fold

  /** Everything bound for one target key. */
  datatype Bundle = Bundle(key: Key, signal: Signal, context: Option<string>, origin: Origin, originals: seq<nat>)

  function BundleOf(e: Edge, from: string, to: string): Bundle {
    Bundle(Retarget(e.key, from, to), e.signal, e.context,
           e.origin.(provenance := Some(OrElse(e.origin.provenance, "entity-merge"))), [e.id])
  }

  function OrElse(o: Option<string>, d: string): string {
    if o.Some? then o.value else d
  }

  predicate Blank(c: Option<string>) {
    c == None || c == Some("")
  }

  function FirstText(a: Option<string>, b: Option<string>): Option<string> {
    if Blank(a) && !Blank(b) then b else a
  }

  function Absorb(a: Bundle, b: Bundle): Bundle {
    Bundle(a.key, Fold(a.signal, b.signal), FirstText(a.context, b.context), a.origin, a.originals + b.originals)
  }

  /** The by-target map after one more bundle: a new target goes last, a known one absorbs it. */
  function AddTo(bs: seq<Bundle>, b: Bundle): seq<Bundle> {
    if bs == [] then [b]
    else if bs[0].key == b.key then [Absorb(bs[0], b)] + bs[1..]
    else [bs[0]] + AddTo(bs[1..], b)
  }

  function FoldEdges(edges: seq<Edge>, from: string, to: string, bs: seq<Bundle>): seq<Bundle>
    decreases |edges|
  {
    if edges == [] then bs
    else
      var b := BundleOf(edges[0], from, to);
      FoldEdges(edges[1..], from, to, if Loop(b.key) then bs else AddTo(bs, b))
  }

  function LoopIds(edges: seq<Edge>, from: string, to: string): seq<nat> {
    if edges == [] then []
    else (if Loop(Retarget(edges[0].key, from, to)) then [edges[0].id] else []) + LoopIds(edges[1..], from, to)
  }

  // ---------------------------------------------------------------- statements

  datatype Statement =
    | Delete(id: nat)
    | Update(id: nat, signal: Signal, context: Option<string>)
    | Relate(key: Key, signal: Signal, context: Option<string>, origin: Origin)
    | UpdateEntity(entity: string, updates: Updates)
    | AddNames(entity: string, names: Names)
    | DropEntity(entity: string)

  function FindRow(rows: seq<Edge>, k: Key): (r: Option<Edge>)
    ensures r.Some? ==> r.value in rows && r.value.key == k
    ensures r.None? ==> forall e :: e in rows ==> e.key != k
  {
    if rows == [] then None else if rows[0].key == k then Some(rows[0]) else FindRow(rows[1..], k)
  }

  function WithoutRow(rows: seq<Edge>, id: nat): (r: seq<Edge>)
    ensures forall e :: e in r <==> e in rows && e.id != id
  {
    if rows == [] then [] else (if rows[0].id == id then [] else [rows[0]]) + WithoutRow(rows[1..], id)
  }

  function SetRow(rows: seq<Edge>, id: nat, signal: Signal, context: Option<string>): (r: seq<Edge>)
    ensures |r| == |rows|
  {
    if rows == [] then []
    else [if rows[0].id == id then rows[0].(signal := signal, context := context) else rows[0]]
         + SetRow(rows[1..], id, signal, context)
  }

  /** `array::union`: `a` without repeats, then what `b` adds. */
  function Union(a: seq<string>, b: seq<string>): (r: seq<string>)
    ensures forall x :: x in r <==> x in a || x in b
  {
    Dedupe(a + b, [])
  }

  function Dedupe(s: seq<string>, seen: seq<string>): (r: seq<string>)
    ensures forall x :: x in r <==> x in s || x in seen
    decreases |s|
  {
    if s == [] then seen else Dedupe(s[1..], if s[0] in seen then seen else seen + [s[0]])
  }

  function WithNames(entities: map<string, Entity>, x: string, n: Names): map<string, Entity> {
    if x in entities
    then
      var was := entities[x].names;
      entities[x := entities[x].(names := Names(Union(was.aliases, n.aliases), Union(was.aliasesNorm, n.aliasesNorm)))]
    else entities
  }

  function Rekeyed(k: EntityKey, nameNorm: Option<string>): EntityKey {
    if nameNorm.Some? then k.(nameNorm := nameNorm.value) else k
  }

  /** The winner after its update: the new name, and the given aliases added. */
  function Updated(entities: map<string, Entity>, x: string, u: Updates): map<string, Entity> {
    if x in entities
    then WithNames(entities[x := entities[x].(key := Rekeyed(entities[x].key, u.nameNorm))], x, u.names)
    else entities
  }

  /** No other row, the loser's included, holds the key the winner would get. */
  predicate Free(entities: map<string, Entity>, x: string, u: Updates) {
    x in entities ==> !KeyTaken(entities, x, Rekeyed(entities[x].key, u.nameNorm))
  }

  /** One statement of a transaction. A RELATE onto a taken key and an entity update to a taken
      key violate a unique index; deleting an entity cascades to its edges. */
  function Exec(g: Graph, s: Statement): Option<Graph> {
    match s
    case Delete(id) => Some(g.(rows := WithoutRow(g.rows, id)))
    case Update(id, signal, context) => Some(g.(rows := SetRow(g.rows, id, signal, context)))
    case Relate(k, signal, context, origin) =>
      if FindRow(g.rows, k).Some? then None
      else Some(g.(rows := g.rows + [Edge(g.next, k, signal, context, origin)], next := g.next + 1))
    case UpdateEntity(x, u) =>
      if Free(g.entities, x, u) then Some(g.(entities := Updated(g.entities, x, u))) else None
    case AddNames(x, n) => Some(g.(entities := WithNames(g.entities, x, n)))
    case DropEntity(x) => Some(g.(rows := Outside(g.rows, x), entities := g.entities - {x}))
  }

  /** A transaction: all statements, or none. */
  function Transact(g: Graph, ss: seq<Statement>): Option<Graph>
    decreases |ss|
  {
    if ss == [] then Some(g)
    else
      match Exec(g, ss[0])
      case None => None
      case Some(g') => Transact(g', ss[1..])
  }

  lemma {:induction false} TransactAppend(g: Graph, xs: seq<Statement>, ys: seq<Statement>)
    ensures Transact(g, xs + ys) == match Transact(g, xs) case None => None case Some(h) => Transact(h, ys)
    decreases |xs|
  {
    hide Exec;
    if xs == [] {
      assert xs + ys == ys;
    } else {
      assert (xs + ys)[1..] == xs[1..] + ys;
      match Exec(g, xs[0])
      case None =>
      case Some(h) => TransactAppend(h, xs[1..], ys);
    }
  }

  function Deletes(ids: seq<nat>): seq<Statement> {
    if ids == [] then [] else [Delete(ids[0])] + Deletes(ids[1..])
  }

  /** The write for one target, against the graph read before the transaction. */
  function WriteOf(rows: seq<Edge>, b: Bundle): Statement {
    match FindRow(rows, b.key)
    case Some(e) => Update(e.id, Fold(b.signal, e.signal), if e.context.Some? then e.context else b.context)
    case None => Relate(b.key, b.signal, b.context, b.origin)
  }

  function Writes(rows: seq<Edge>, bs: seq<Bundle>): seq<Statement> {
    if bs == [] then [] else [WriteOf(rows, bs[0])] + Deletes(bs[0].originals) + Writes(rows, bs[1..])
  }

  /** composeEdgeReassignment. */
  function Compose(rows: seq<Edge>, from: string, to: string): seq<Statement> {
    if from == to then []
    else
      var edges := Touching(rows, from);
      Deletes(LoopIds(edges, from, to)) + Writes(rows, FoldEdges(edges, from, to, []))
  }

  /** mergeEntities. */
  function MergeStatements(g: Graph, winner: string, loser: string, updates: Updates): seq<Statement> {
    [UpdateEntity(winner, updates)]
    + Compose(g.rows, loser, winner)
    + (if loser in g.entities then [AddNames(winner, g.entities[loser].names)] else [])
    + [DropEntity(loser)]
  }
}
