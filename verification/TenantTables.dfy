/** The tables a canonical-tenant migration rewrites, their unique indexes, and the collisions
    it resolves (src/maintenance/semiote-tenant-dedupe.ts, src/maintenance/canonical-tenant-migration.ts,
    src/entities/entity-store.ts:105-107, src/storage/surreal/project-state-store.ts:45-46). */
module TenantTables {
  import opened OrderedMap
  import opened StableSort

  // ---------------------------------------------------------------- rows

  datatype EntityKey = EntityKey(nameNorm: string, kind: string, scope: string, sessionId: Option<string>)

  datatype Entity = Entity(userId: string, key: EntityKey)

  datatype ProjectState = ProjectState(userId: string, projectKey: Option<string>, path: Option<string>,
                                       updatedAt: real, memoryIds: set<string>, content: string)

  /** `updatedAt` is the parsed timestamp; one that does not parse is below every date. */
  datatype Semiote = Semiote(id: string, userId: string, factKey: string, textNorm: string, updatedAt: real,
                             active: bool, supersededBy: Option<string>)

  datatype Tables = Tables(entities: map<string, Entity>, projects: map<string, ProjectState>,
                           semiote: seq<Semiote>, noema: map<string, string>)

  // ---------------------------------------------------------------- unique indexes

  /** The unique index on (user, name, kind, scope, session); a row without a session is not compared. */
  predicate EntitiesUnique(es: map<string, Entity>) {
    forall a, b :: a in es && b in es && a != b && es[a] == es[b] ==> es[a].key.sessionId.None?
  }

  /** Two rows of one user meet on an index column that both of them fill. */
  predicate Meets(a: ProjectState, b: ProjectState) {
    (a.projectKey.Some? && a.projectKey == b.projectKey) || (a.path.Some? && a.path == b.path)
  }

  predicate SamePair(a: ProjectState, b: ProjectState) {
    a.projectKey == b.projectKey && a.path == b.path
  }

  /** The two unique indexes on (user, project key) and (user, path); a column without a value
      is not compared. */
  predicate ProjectsUnique(ps: map<string, ProjectState>) {
    forall a, b :: a in ps && b in ps && a != b && ps[a].userId == ps[b].userId ==> !Meets(ps[a], ps[b])
  }

  ghost predicate IdsDistinct(rows: seq<Semiote>) {
    forall i, j :: 0 <= i < j < |rows| ==> rows[i].id != rows[j].id
  }

  ghost predicate Unique(t: Tables) {
    EntitiesUnique(t.entities) && ProjectsUnique(t.projects) && IdsDistinct(t.semiote)
  }

  // ---------------------------------------------------------------- semiote fact keys

  predicate Involved(r: Semiote, from: string, to: string) {
    r.factKey != "" && (r.userId == from || r.userId == to)
  }

  /** Both tenants hold the fact key. */
  predicate Shared(rows: seq<Semiote>, key: string, from: string, to: string) {
    && key != ""
    && (exists r :: r in rows && r.factKey == key && r.userId == from)
    && (exists r :: r in rows && r.factKey == key && r.userId == to)
  }

  const STAMP: Semiote -> real := (r: Semiote) => r.updatedAt

  function GroupOf(rows: seq<Semiote>, key: string, from: string, to: string): seq<Semiote> {
    Filter(rows, (r: Semiote) => Involved(r, from, to) && r.factKey == key)
  }

  /** The rows of a fact key, newest first. */
  function Ranked(rows: seq<Semiote>, key: string, from: string, to: string): seq<Semiote> {
    Sort(GroupOf(rows, key, from, to), STAMP)
  }

  lemma {:induction false} FilterIds(rows: seq<Semiote>, p: Semiote -> bool)
    requires IdsDistinct(rows)
    ensures IdsDistinct(Filter(rows, p))
  {
    if rows != [] {
      assert rows == [rows[0]] + rows[1..];
      FilterIds(rows[1..], p);
      FilterIs(rows[1..], p);
      assert forall r :: r in rows[1..] ==> r.id != rows[0].id;
    }
  }

  /** Ranking is a reordering: the same rows, newest first. */
  lemma RankedIs(rows: seq<Semiote>, key: string, from: string, to: string)
    ensures var s := Ranked(rows, key, from, to);
      && Descending(s, STAMP)
      && (forall r :: r in s <==> r in rows && Involved(r, from, to) && r.factKey == key)
      && (Shared(rows, key, from, to) ==> s != [])
  {
    var group := GroupOf(rows, key, from, to);
    SortIs(group, STAMP);
    FilterIs(rows, (r: Semiote) => Involved(r, from, to) && r.factKey == key);
    forall r
      ensures r in Ranked(rows, key, from, to) <==> r in group
    {
      assert r in multiset(group) <==> r in multiset(Ranked(rows, key, from, to));
    }
  }

  function WinnerId(rows: seq<Semiote>, key: string, from: string, to: string): string {
    var s := Ranked(rows, key, from, to);
    if s == [] then "" else s[0].id
  }

  /** What deduplication does to one row. */
  function Deduped(rows: seq<Semiote>, r: Semiote, from: string, to: string): Semiote {
    if !Involved(r, from, to) || !Shared(rows, r.factKey, from, to) then r
    else if r.id == WinnerId(rows, r.factKey, from, to) then r.(active := true)
    else r.(active := false, supersededBy := Some(WinnerId(rows, r.factKey, from, to)))
  }

  function DedupedAll(rows: seq<Semiote>, from: string, to: string): (out: seq<Semiote>)
    ensures |out| == |rows| && forall i :: 0 <= i < |rows| ==> out[i] == Deduped(rows, rows[i], from, to)
  {
    Map((r: Semiote) => Deduped(rows, r, from, to), rows)
  }

  /** For every fact key both tenants held: the newest of their rows is the one active row, and
      every other one points to it. */
  lemma OneActivePerFact(rows: seq<Semiote>, from: string, to: string, key: string) returns (w: Semiote)
    requires IdsDistinct(rows) && Shared(rows, key, from, to)
    ensures w in rows && Involved(w, from, to) && w.factKey == key && Newest(rows, w, from, to)
    ensures var out := DedupedAll(rows, from, to);
      forall i :: 0 <= i < |rows| && Involved(rows[i], from, to) && rows[i].factKey == key ==>
        if rows[i] == w then out[i] == w.(active := true) else !out[i].active && out[i].supersededBy == Some(w.id)
  {
    RankedIs(rows, key, from, to);
    var s := Ranked(rows, key, from, to);
    w := s[0];
    assert w in s;
    forall r | r in rows && Involved(r, from, to) && r.factKey == key
      ensures r.updatedAt <= w.updatedAt
    {
      var k :| 0 <= k < |s| && s[k] == r;
      assert k == 0 || STAMP(s[0]) >= STAMP(s[k]);
    }
    assert Newest(rows, w, from, to);
    forall r | r in rows && r.id == w.id
      ensures r == w
    {
    }
  }

  ghost predicate Newest(rows: seq<Semiote>, w: Semiote, from: string, to: string) {
    forall r :: r in rows && Involved(r, from, to) && r.factKey == w.factKey ==> r.updatedAt <= w.updatedAt
  }

  // ---------------------------------------------------------------- entity and project collisions

  /** The target has an entity with the same key. */
  predicate Collides(es: map<string, Entity>, s: string, from: string, to: string) {
    s in es && es[s].userId == from && exists t :: t in es && es[t] == Entity(to, es[s].key)
  }

  function Colliding(es: map<string, Entity>, from: string, to: string): set<string> {
    set s | s in es && Collides(es, s, from, to)
  }

  /** A merged project state: the newer content, both rows' memories, the target's owner. */
  function MergeProject(source: ProjectState, target: ProjectState, to: string): ProjectState {
    var chosen := if source.updatedAt > target.updatedAt then source else target;
    chosen.(userId := to, memoryIds := source.memoryIds + target.memoryIds)
  }

  // ---------------------------------------------------------------- moving the owner

  function Owner(u: string, from: string, to: string): string {
    if u == from then to else u
  }

  function MoveEntities(es: map<string, Entity>, from: string, to: string): map<string, Entity> {
    map e | e in es :: es[e].(userId := Owner(es[e].userId, from, to))
  }

  function MoveProjects(ps: map<string, ProjectState>, from: string, to: string): map<string, ProjectState> {
    map p | p in ps :: ps[p].(userId := Owner(ps[p].userId, from, to))
  }

  function MoveSemiote(rows: seq<Semiote>, from: string, to: string): seq<Semiote> {
    Map((r: Semiote) => r.(userId := Owner(r.userId, from, to)), rows)
  }

  function MoveNoema(ns: map<string, string>, from: string, to: string): map<string, string> {
    map n | n in ns :: Owner(ns[n], from, to)
  }

  function MoveAll(t: Tables, from: string, to: string): Tables {
    Tables(MoveEntities(t.entities, from, to), MoveProjects(t.projects, from, to),
           MoveSemiote(t.semiote, from, to), MoveNoema(t.noema, from, to))
  }

  ghost predicate NoRowsOf(t: Tables, user: string) {
    && (forall e :: e in t.entities ==> t.entities[e].userId != user)
    && (forall p :: p in t.projects ==> t.projects[p].userId != user)
    && (forall r :: r in t.semiote ==> r.userId != user)
    && (forall n :: n in t.noema ==> t.noema[n] != user)
  }

  lemma MoveAllLeavesNone(t: Tables, from: string, to: string)
    requires from != to
    ensures NoRowsOf(MoveAll(t, from, to), from)
  {
    var moved := MoveSemiote(t.semiote, from, to);
    forall r | r in moved
      ensures r.userId != from
    {
      var i :| 0 <= i < |moved| && moved[i] == r;
    }
  }

  /** No source entity has a key of the target any more. */
  ghost predicate EntitiesApart(es: map<string, Entity>, from: string, to: string) {
    forall a, b :: a in es && b in es && es[a].userId == from && es[b].userId == to ==> es[a].key != es[b].key
  }

  lemma EntitiesMove(es: map<string, Entity>, from: string, to: string)
    requires EntitiesUnique(es) && EntitiesApart(es, from, to)
    ensures EntitiesUnique(MoveEntities(es, from, to))
  {
    var moved := MoveEntities(es, from, to);
    forall a, b | a in moved && b in moved && a != b && moved[a] == moved[b]
      ensures moved[a].key.sessionId.None?
    {
      assert es[a].key == es[b].key;
      if es[a].userId == es[b].userId {
        assert es[a] == es[b];
      }
    }
  }

  /** A source project state meets a target row on one column without being for the same pair. */
  ghost predicate HalfMeets(ps: map<string, ProjectState>, from: string, to: string) {
    exists s, t :: s in ps && t in ps && ps[s].userId == from && ps[t].userId == to
      && Meets(ps[s], ps[t]) && !SamePair(ps[s], ps[t])
  }

  /** No source row is for a pair of the target any more. */
  ghost predicate PairsApart(ps: map<string, ProjectState>, from: string, to: string) {
    forall s, t :: s in ps && t in ps && ps[s].userId == from && ps[t].userId == to ==> !SamePair(ps[s], ps[t])
  }

  /** The owner change keeps both project indexes exactly when no row half-meets a target row. */
  lemma ProjectsMove(ps: map<string, ProjectState>, from: string, to: string)
    requires from != to && ProjectsUnique(ps) && PairsApart(ps, from, to)
    ensures ProjectsUnique(MoveProjects(ps, from, to)) <==> !HalfMeets(ps, from, to)
  {
    var moved := MoveProjects(ps, from, to);
    if HalfMeets(ps, from, to) {
      var s, t :| s in ps && t in ps && ps[s].userId == from && ps[t].userId == to && Meets(ps[s], ps[t]) && !SamePair(ps[s], ps[t]);
      assert moved[s].userId == moved[t].userId && Meets(moved[s], moved[t]);
    } else {
      forall a, b | a in moved && b in moved && a != b && moved[a].userId == moved[b].userId
        ensures !Meets(moved[a], moved[b])
      {
        MovedApart(ps, from, to, a, b);
      }
    }
  }

  lemma MovedApart(ps: map<string, ProjectState>, from: string, to: string, a: string, b: string)
    requires ProjectsUnique(ps) && PairsApart(ps, from, to) && !HalfMeets(ps, from, to)
    requires a in ps && b in ps && a != b && Owner(ps[a].userId, from, to) == Owner(ps[b].userId, from, to)
    ensures !Meets(ps[a], ps[b])
  {
    if ps[a].userId != ps[b].userId {
      if ps[a].userId == from {
        assert !SamePair(ps[a], ps[b]);
      } else {
        assert ps[b].userId == from && !SamePair(ps[b], ps[a]);
      }
    }
  }
}
