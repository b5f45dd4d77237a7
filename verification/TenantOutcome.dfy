/** What a completed migration leaves of every row, told from the tables before it
    (scripts/migrate-canonical-tenant.ts:86-231, src/maintenance/semiote-tenant-dedupe.ts:76-128). */
module TenantOutcome {
  import opened OrderedMap
  import opened StableSort
  import opened TenantTables
  import opened TenantMigrations

  /** The owner afterwards: the target for the source's rows, everybody else as before. */
  predicate OwnerMoves(before: string, after: string, from: string, to: string) {
    if before == from then after == to else after == before
  }

  // ---------------------------------------------------------------- facts

  /** The first of the newest rows of a fact key that belong to one of the two tenants. */
  ghost predicate Wins(rows: seq<Semiote>, i: nat, from: string, to: string) {
    && i < |rows| && (rows[i].userId == from || rows[i].userId == to)
    && forall j :: 0 <= j < |rows| && j != i && rows[j].factKey == rows[i].factKey && (rows[j].userId == from || rows[j].userId == to) ==>
         rows[j].updatedAt < rows[i].updatedAt || (rows[j].updatedAt == rows[i].updatedAt && i < j)
  }

  ghost predicate Holds(rows: seq<Semiote>, key: string, user: string) {
    exists r :: r in rows && r.factKey == key && r.userId == user
  }

  /** A row of a fact key that both tenants hold becomes the active one or points to it; every other row
      keeps its state. Nothing else changes but the owner. */
  ghost predicate FactMoves(rows: seq<Semiote>, i: nat, after: Semiote, from: string, to: string)
    requires i < |rows|
  {
    var r := rows[i];
    && after.id == r.id && after.factKey == r.factKey && after.textNorm == r.textNorm && after.updatedAt == r.updatedAt
    && OwnerMoves(r.userId, after.userId, from, to)
    && if r.factKey != "" && (r.userId == from || r.userId == to) && Holds(rows, r.factKey, from) && Holds(rows, r.factKey, to)
       then exists w: nat :: Wins(rows, w, from, to) && rows[w].factKey == r.factKey && Points(r, after, w == i, rows[w].id)
       else after.active == r.active && after.supersededBy == r.supersededBy
  }

  predicate Points(r: Semiote, after: Semiote, winner: bool, id: string) {
    if winner then after.active && after.supersededBy == r.supersededBy
    else !after.active && after.supersededBy == Some(id)
  }

  ghost predicate FactsMove(before: seq<Semiote>, after: seq<Semiote>, from: string, to: string) {
    |after| == |before| && forall i :: 0 <= i < |before| ==> FactMoves(before, i, after[i], from, to)
  }

  /** The head of a stable ranking is the first of the highest. */
  lemma {:induction false} SortHead<T>(s: seq<T>, key: T -> real) returns (i: nat)
    requires s != []
    ensures i < |s| && Sort(s, key) != [] && Sort(s, key)[0] == s[i]
    ensures forall j :: 0 <= j < |s| && j != i ==> key(s[j]) < key(s[i]) || (key(s[j]) == key(s[i]) && i < j)
  {
    if |s| == 1 {
      i := 0;
    } else {
      var k := SortHead(s[1..], key);
      if key(s[1..][k]) <= key(s[0]) {
        i := 0;
        forall j | 0 < j < |s|
          ensures key(s[j]) < key(s[0]) || key(s[j]) == key(s[0])
        {
          assert s[j] == s[1..][j - 1];
        }
      } else {
        i := k + 1;
        forall j | 0 <= j < |s| && j != i
          ensures key(s[j]) < key(s[i]) || (key(s[j]) == key(s[i]) && i < j)
        {
          if j > 0 {
            assert s[j] == s[1..][j - 1];
          }
        }
      }
    }
  }

  /** Where the k-th kept element stands. */
  lemma {:induction false} FilterPlace<T>(s: seq<T>, p: T -> bool, k: nat) returns (i: nat)
    requires k < |Filter(s, p)|
    ensures i < |s| && p(s[i]) && Filter(s, p)[k] == s[i]
    ensures forall j :: 0 <= j < |s| && j != i && p(s[j]) ==> exists l :: 0 <= l < |Filter(s, p)| && l != k && Filter(s, p)[l] == s[j] && (l < k <==> j < i)
  {
    var f := Filter(s, p);
    var rest := Filter(s[1..], p);
    var n := if p(s[0]) then 1 else 0;
    assert f == (if p(s[0]) then [s[0]] else []) + rest;
    if n == 1 && k == 0 {
      i := 0;
      forall j | 0 < j < |s| && p(s[j])
        ensures exists l :: 0 <= l < |f| && l != 0 && f[l] == s[j] && (l < 0 <==> j < 0)
      {
        assert s[1..][j - 1] == s[j] && s[1..][j - 1] in s[1..];
        FilterIs(s[1..], p);
        var l :| 0 <= l < |rest| && rest[l] == s[j];
        assert f[l + 1] == s[j];
      }
    } else {
      var m := FilterPlace(s[1..], p, k - n);
      i := m + 1;
      forall j | 0 <= j < |s| && j != i && p(s[j])
        ensures exists l :: 0 <= l < |f| && l != k && f[l] == s[j] && (l < k <==> j < i)
      {
        if j == 0 {
          assert f[0] == s[0];
        } else {
          assert s[1..][j - 1] == s[j];
          var l :| 0 <= l < |rest| && l != k - n && rest[l] == s[1..][j - 1] && (l < k - n <==> j - 1 < m);
          assert f[l + n] == s[j];
        }
      }
    }
  }

  /** The first row of a ranking wins. */
  lemma Winner(rows: seq<Semiote>, key: string, from: string, to: string) returns (w: nat)
    requires Shared(rows, key, from, to)
    ensures w < |rows| && Wins(rows, w, from, to) && rows[w].factKey == key && rows[w].id == WinnerId(rows, key, from, to)
  {
    var p := (r: Semiote) => Involved(r, from, to) && r.factKey == key;
    var group := Filter(rows, p);
    RankedIs(rows, key, from, to);
    assert GroupOf(rows, key, from, to) == group;
    SomeIn(rows, p, from, to, key);
    var k := SortHead(group, STAMP);
    w := FilterPlace(rows, p, k);
    forall j | 0 <= j < |rows| && j != w && rows[j].factKey == rows[w].factKey && (rows[j].userId == from || rows[j].userId == to)
      ensures rows[j].updatedAt < rows[w].updatedAt || (rows[j].updatedAt == rows[w].updatedAt && w < j)
    {
      assert p(rows[j]);
      var l :| 0 <= l < |group| && l != k && group[l] == rows[j] && (l < k <==> j < w);
      assert STAMP(group[l]) < STAMP(group[k]) || (STAMP(group[l]) == STAMP(group[k]) && k < l);
    }
  }

  lemma SomeIn(rows: seq<Semiote>, p: Semiote -> bool, from: string, to: string, key: string)
    requires Shared(rows, key, from, to) && p == ((r: Semiote) => Involved(r, from, to) && r.factKey == key)
    ensures Filter(rows, p) != []
  {
    FilterIs(rows, p);
    var r :| r in rows && r.factKey == key && r.userId == from;
    assert p(r);
  }

  lemma FactsDeduped(rows: seq<Semiote>, from: string, to: string)
    requires from != to && IdsDistinct(rows)
    ensures FactsMove(rows, MoveSemiote(DedupedAll(rows, from, to), from, to), from, to)
  {
    hide WinnerId, Shared;
    var after := MoveSemiote(DedupedAll(rows, from, to), from, to);
    forall i | 0 <= i < |rows|
      ensures FactMoves(rows, i, after[i], from, to)
    {
      var r := rows[i];
      assert after[i] == Deduped(rows, r, from, to).(userId := Owner(Deduped(rows, r, from, to).userId, from, to));
      SharedHolds(rows, r.factKey, from, to);
      if Involved(r, from, to) && Shared(rows, r.factKey, from, to) {
        var w := Winner(rows, r.factKey, from, to);
        assert w == i <==> rows[w].id == r.id;
        assert Points(r, after[i], w == i, rows[w].id);
      }
    }
  }

  lemma SharedHolds(rows: seq<Semiote>, key: string, from: string, to: string)
    ensures Shared(rows, key, from, to) <==> key != "" && Holds(rows, key, from) && Holds(rows, key, to)
  {
  }

  // ---------------------------------------------------------------- entities and claims

  /** A source entity goes exactly when the target has one with the same name, kind, scope and session; all
      others stay, with their owner moved. */
  ghost predicate EntitiesLeft(before: map<string, Entity>, after: map<string, Entity>, from: string, to: string) {
    && (forall e :: e in after ==> e in before && after[e].key == before[e].key && OwnerMoves(before[e].userId, after[e].userId, from, to))
    && (forall e :: e in before && e !in after ==> before[e].userId == from && Twin(before, before[e].key, to))
    && (forall e :: e in after && before[e].userId == from ==> !Twin(before, before[e].key, to))
  }

  ghost predicate Twin(es: map<string, Entity>, key: EntityKey, user: string) {
    exists t :: t in es && es[t].userId == user && es[t].key == key
  }

  ghost predicate ClaimsMove(before: map<string, string>, after: map<string, string>, from: string, to: string) {
    before.Keys == after.Keys && forall n :: n in before ==> OwnerMoves(before[n], after[n], from, to)
  }

  // ---------------------------------------------------------------- project states

  /** Of the user's rows for the pair of `row` the one read last. */
  ghost predicate LastRead(ps: map<string, ProjectState>, read: seq<string>, user: string, row: ProjectState, x: string) {
    exists i: nat :: LastAt(ps, read, user, row, x, i)
  }

  ghost predicate LastAt(ps: map<string, ProjectState>, read: seq<string>, user: string, row: ProjectState, x: string, i: nat) {
    i < |read| && read[i] == x && ForPair(ps, user, row, x) && forall j :: i < j < |read| ==> !ForPair(ps, user, row, read[j])
  }

  predicate ForPair(ps: map<string, ProjectState>, user: string, row: ProjectState, x: string) {
    x in ps && ps[x].userId == user && ps[x].projectKey == row.projectKey && ps[x].path == row.path
  }

  /** The newer of the two, the target's on a tie, with both rows' memories. */
  ghost predicate Joins(source: ProjectState, target: ProjectState, after: ProjectState, to: string) {
    var newer := if target.updatedAt >= source.updatedAt then target else source;
    && after.userId == to && after.projectKey == newer.projectKey && after.path == newer.path
    && after.updatedAt == newer.updatedAt && after.content == newer.content
    && forall m :: m in after.memoryIds <==> m in source.memoryIds || m in target.memoryIds
  }

  /** A row keeps everything but its owner. */
  predicate OnlyOwner(before: ProjectState, after: ProjectState, from: string, to: string) {
    after == before.(userId := after.userId) && OwnerMoves(before.userId, after.userId, from, to)
  }

  /** Source rows for a pair of the target go; of several target rows for one pair the one read last takes up
      the source row read last; every other row stays as it was but for its owner. */
  ghost predicate ProjectsLeft(before: map<string, ProjectState>, after: map<string, ProjectState>, read: seq<string>, from: string, to: string) {
    && (forall p :: p in after ==> p in before)
    && (forall p :: p in before ==> (p !in after <==> before[p].userId == from && exists t :: ForPair(before, to, before[p], t)))
    && (forall p :: p in after ==> RowLeft(before, read, p, after[p], from, to))
  }

  ghost predicate RowLeft(before: map<string, ProjectState>, read: seq<string>, p: string, row: ProjectState, from: string, to: string)
    requires p in before
  {
    if LastRead(before, read, to, before[p], p) && exists s :: LastRead(before, read, from, before[p], s)
    then exists s :: LastRead(before, read, from, before[p], s) && s in before && Joins(before[s], before[p], row, to)
    else OnlyOwner(before[p], row, from, to)
  }

  lemma {:induction false} TargetIsLast(ps: map<string, ProjectState>, read: seq<string>, row: ProjectState, to: string, t: string)
    requires Distinct(read)
    ensures TargetOf(ps, read, row, to) == Some(t) <==> LastRead(ps, read, to, row, t)
  {
    hide LastAt;
    if read == [] {
      NoLast(ps, read, to, row, t);
    } else {
      var n := |read| - 1;
      assert read == read[..n] + [read[n]];
      if ForPair(ps, to, row, read[n]) {
        LastIs(ps, read, to, row, t);
      } else {
        TargetIsLast(ps, read[..n], row, to, t);
        LastShrinks(ps, read, to, row, t);
      }
    }
  }

  lemma NoLast(ps: map<string, ProjectState>, read: seq<string>, user: string, row: ProjectState, x: string)
    requires read == []
    ensures !LastRead(ps, read, user, row, x)
  {
  }

  lemma LastIs(ps: map<string, ProjectState>, read: seq<string>, user: string, row: ProjectState, x: string)
    requires read != [] && ForPair(ps, user, row, read[|read| - 1])
    ensures LastRead(ps, read, user, row, x) <==> x == read[|read| - 1]
  {
    if x == read[|read| - 1] {
      assert LastAt(ps, read, user, row, x, |read| - 1);
    }
  }

  lemma LastShrinks(ps: map<string, ProjectState>, read: seq<string>, user: string, row: ProjectState, x: string)
    requires read != [] && !ForPair(ps, user, row, read[|read| - 1])
    ensures LastRead(ps, read, user, row, x) <==> LastRead(ps, read[..|read| - 1], user, row, x)
  {
    var less := read[..|read| - 1];
    if LastRead(ps, less, user, row, x) {
      var i: nat :| LastAt(ps, less, user, row, x, i);
      forall j | i < j < |read|
        ensures !ForPair(ps, user, row, read[j])
      {
        assert j < |less| ==> less[j] == read[j];
      }
      assert LastAt(ps, read, user, row, x, i);
    }
    if LastRead(ps, read, user, row, x) {
      var i: nat :| LastAt(ps, read, user, row, x, i);
      assert forall j :: 0 <= j < |less| ==> less[j] == read[j];
      assert LastAt(ps, less, user, row, x, i);
    }
  }

  lemma {:induction false} SourceIsLast(ps: map<string, ProjectState>, read: seq<string>, n: nat, t: string, from: string, to: string, s: string)
    requires Distinct(read) && n <= |read| && t in ps && LastRead(ps, read, to, ps[t], t)
    ensures LastInto(ps, read, n, t, from, to) == Some(s) <==> LastRead(ps, read[..n], from, ps[t], s)
  {
    hide LastRead, TargetOf;
    if n == 0 {
      NoLast(ps, read[..0], from, ps[t], s);
    } else {
      IntoNext(ps, read, n - 1, t, from, to);
      IntoIs(ps, read, read[n - 1], t, from, to);
      assert read[..n][..n - 1] == read[..n - 1] && read[..n][n - 1] == read[n - 1];
      if ForPair(ps, from, ps[t], read[n - 1]) {
        LastIs(ps, read[..n], from, ps[t], s);
      } else {
        SourceIsLast(ps, read, n - 1, t, from, to, s);
        LastShrinks(ps, read[..n], from, ps[t], s);
      }
    }
  }

  /** A source row goes into `t` exactly when `t` is the last read for its pair. */
  lemma IntoIs(ps: map<string, ProjectState>, read: seq<string>, s: string, t: string, from: string, to: string)
    requires Distinct(read) && t in ps && LastRead(ps, read, to, ps[t], t)
    ensures GoesInto(ps, read, s, t, from, to) <==> ForPair(ps, from, ps[t], s)
  {
    hide TargetOf, LastRead;
    if s in ps {
      TargetIsLast(ps, read, ps[s], to, t);
      if ForPair(ps, from, ps[t], s) {
        SamePairLast(ps, read, to, ps[t], ps[s], t);
      } else if GoesInto(ps, read, s, t, from, to) {
        LastForPair(ps, read, to, ps[s], t);
      }
    }
  }

  lemma SamePairLast(ps: map<string, ProjectState>, read: seq<string>, user: string, a: ProjectState, b: ProjectState, x: string)
    requires SamePair(a, b) && LastRead(ps, read, user, a, x)
    ensures LastRead(ps, read, user, b, x)
  {
    var i: nat :| LastAt(ps, read, user, a, x, i);
    assert forall y :: ForPair(ps, user, a, y) == ForPair(ps, user, b, y);
    assert LastAt(ps, read, user, b, x, i);
  }

  lemma LastForPair(ps: map<string, ProjectState>, read: seq<string>, user: string, row: ProjectState, x: string)
    requires LastRead(ps, read, user, row, x)
    ensures ForPair(ps, user, row, x)
  {
  }

  lemma GoesIs(ps: map<string, ProjectState>, read: seq<string>, p: string, from: string, to: string)
    requires Read(read, ps) && p in ps
    ensures Goes(ps, read, p, from, to) <==> ps[p].userId == from && exists t :: ForPair(ps, to, ps[p], t)
  {
    hide TargetOf;
    if t :| ForPair(ps, to, ps[p], t) {
      assert t in read && TargetFor(ps, t, ps[p], to);
    }
    if TargetOf(ps, read, ps[p], to).Some? {
      assert ForPair(ps, to, ps[p], TargetOf(ps, read, ps[p], to).value);
    }
  }

  lemma MergedIs(ps: map<string, ProjectState>, read: seq<string>, p: string, from: string, to: string)
    requires from != to && Read(read, ps) && p in ps
    ensures var r := MergedRow(ps, read, |read|, p, from, to); RowLeft(ps, read, p, r.(userId := Owner(r.userId, from, to)), from, to)
  {
    hide LastInto, LastRead;
    var s := LastInto(ps, read, |read|, p, from, to);
    if !LastRead(ps, read, to, ps[p], p) {
      NotTarget(ps, read, p, from, to);
    } else {
      assert read[..|read|] == read;
      LastForPair(ps, read, to, ps[p], p);
      if t :| LastRead(ps, read, from, ps[p], t) {
        SourceIsLast(ps, read, |read|, p, from, to, t);
      }
      if s.Some? {
        SourceIsLast(ps, read, |read|, p, from, to, s.value);
        LastForPair(ps, read, from, ps[p], s.value);
        assert Joins(ps[s.value], ps[p], MergeProject(ps[s.value], ps[p], to), to);
      }
    }
  }

  lemma NotTarget(ps: map<string, ProjectState>, read: seq<string>, p: string, from: string, to: string)
    requires Distinct(read) && p in ps && !LastRead(ps, read, to, ps[p], p)
    ensures LastInto(ps, read, |read|, p, from, to) == None
  {
    hide LastInto, LastRead, TargetOf;
    var s := LastInto(ps, read, |read|, p, from, to);
    if s.Some? {
      TargetIsLast(ps, read, ps[s.value], to, p);
      LastForPair(ps, read, to, ps[s.value], p);
      SamePairLast(ps, read, to, ps[s.value], ps[p], p);
      assert false;
    }
  }

  lemma ProjectsMerged(ps: map<string, ProjectState>, m: map<string, ProjectState>, read: seq<string>, from: string, to: string)
    requires from != to && Read(read, ps) && MergedTo(m, ps, read, |read|, from, to)
    ensures ProjectsLeft(ps, MoveProjects(m, from, to), read, from, to)
  {
    hide RowLeft, Goes, ForPair, MergedRow;
    assert read[..|read|] == read;
    forall p | p in ps
      ensures Goes(ps, read, p, from, to) <==> ps[p].userId == from && exists t :: ForPair(ps, to, ps[p], t)
    {
      GoesIs(ps, read, p, from, to);
    }
    forall p | p in m
      ensures RowLeft(ps, read, p, m[p].(userId := Owner(m[p].userId, from, to)), from, to)
    {
      MergedIs(ps, read, p, from, to);
    }
  }

  /** What a completed migration (as RunMigration states it) makes of every row of the four tables. */
  lemma CompletedMigrates(before: Tables, after: Tables, merged: map<string, ProjectState>, read: seq<string>, from: string, to: string)
    requires from != to && IdsDistinct(before.semiote) && Read(read, before.projects)
    requires after.semiote == MoveSemiote(DedupedAll(before.semiote, from, to), from, to)
    requires MergedTo(merged, before.projects, read, |read|, from, to) && after.projects == MoveProjects(merged, from, to)
    requires after.noema == MoveNoema(before.noema, from, to)
    requires forall e :: e in after.entities <==> e in before.entities && !Collides(before.entities, e, from, to)
    requires forall e :: e in after.entities ==> after.entities[e] == before.entities[e].(userId := Owner(before.entities[e].userId, from, to))
    ensures FactsMove(before.semiote, after.semiote, from, to)
    ensures ProjectsLeft(before.projects, after.projects, read, from, to)
    ensures EntitiesLeft(before.entities, after.entities, from, to)
    ensures ClaimsMove(before.noema, after.noema, from, to)
  {
    FactsDeduped(before.semiote, from, to);
    ProjectsMerged(before.projects, merged, read, from, to);
    EntitiesGone(before.entities, after.entities, from, to);
  }

  lemma EntitiesGone(before: map<string, Entity>, after: map<string, Entity>, from: string, to: string)
    requires forall e :: e in after <==> e in before && !Collides(before, e, from, to)
    requires forall e :: e in after ==> after[e] == before[e].(userId := Owner(before[e].userId, from, to))
    ensures EntitiesLeft(before, after, from, to)
  {
    hide Collides, Twin;
    forall e | e in before
      ensures Collides(before, e, from, to) <==> before[e].userId == from && Twin(before, before[e].key, to)
    {
      CollidesIs(before, e, from, to);
    }
  }

  lemma CollidesIs(es: map<string, Entity>, e: string, from: string, to: string)
    requires e in es
    ensures Collides(es, e, from, to) <==> es[e].userId == from && Twin(es, es[e].key, to)
  {
    assert forall t :: t in es ==> (es[t] == Entity(to, es[e].key) <==> es[t].userId == to && es[t].key == es[e].key);
  }

  // ---------------------------------------------------------------- when a migration is refused

  ghost predicate HoldsText(rows: seq<Semiote>, text: string, user: string) {
    exists r :: r in rows && r.textNorm == text && r.userId == user
  }

  /** A migration is refused exactly when both tenants hold a fact of one text that is not empty. */
  lemma RefusedFor(rows: seq<Semiote>, from: string, to: string)
    ensures TextCollision(rows, from, to) <==> exists text :: text != "" && HoldsText(rows, text, from) && HoldsText(rows, text, to)
  {
    if TextCollision(rows, from, to) {
      var s, t :| s in rows && t in rows && s.userId == from && t.userId == to && t.textNorm != "" && s.textNorm == t.textNorm;
      assert HoldsText(rows, t.textNorm, from) && HoldsText(rows, t.textNorm, to);
    }
  }
}
