/** The canonical-tenant migration, transaction by transaction
    (scripts/migrate-canonical-tenant.ts:86-231, src/maintenance/semiote-tenant-dedupe.ts:55-128). */
module TenantMigrations {
  import opened OrderedMap
  import opened StableSort
  import opened TenantTables

  datatype Outcome = Refused | DryRun | Completed | IndexViolation

  /** One fact key both tenants hold. */
  datatype Group = Group(factKey: string, winnerId: string, loserIds: seq<string>)

  function Ids(rows: seq<Semiote>): (ids: seq<string>)
    ensures |ids| == |rows| && forall i :: 0 <= i < |rows| ==> ids[i] == rows[i].id
  {
    Map((r: Semiote) => r.id, rows)
  }

  /** The group a fact key should have. */
  function GroupFor(rows: seq<Semiote>, key: string, from: string, to: string): Group {
    var s := Ranked(rows, key, from, to);
    Group(key, WinnerId(rows, key, from, to), if s == [] then [] else Ids(s[1..]))
  }

  /** Normalised text that both tenants hold: the migration refuses to start. */
  predicate TextCollision(rows: seq<Semiote>, from: string, to: string) {
    exists s, t :: s in rows && t in rows && s.userId == from && t.userId == to && t.textNorm != "" && s.textNorm == t.textNorm
  }

  lemma GroupShared(rows: seq<Semiote>, key: string, from: string, to: string)
    requires key != ""
    ensures var group := GroupOf(rows, key, from, to);
      (exists r: Semiote :: r in group && r.userId == from) && (exists r: Semiote :: r in group && r.userId == to)
      <==> Shared(rows, key, from, to)
    ensures Shared(rows, key, from, to) ==> Ranked(rows, key, from, to) != []
  {
    RankedIs(rows, key, from, to);
    FilterIs(rows, (r: Semiote) => Involved(r, from, to) && r.factKey == key);
  }

  /** The groups found among the first keys are the groups of the shared ones, each once. */
  ghost predicate GroupsOf(groups: seq<Group>, keys: seq<string>, rows: seq<Semiote>, from: string, to: string) {
    && (forall i :: 0 <= i < |groups| ==> groups[i].factKey in keys && IsGroup(groups[i], rows, from, to))
    && (forall key :: key in keys && Shared(rows, key, from, to) ==> HasGroup(groups, key))
    && (forall i, j :: 0 <= i < j < |groups| ==> groups[i].factKey != groups[j].factKey)
  }

  ghost predicate IsGroup(g: Group, rows: seq<Semiote>, from: string, to: string) {
    Shared(rows, g.factKey, from, to) && g == GroupFor(rows, g.factKey, from, to)
  }

  ghost predicate HasGroup(groups: seq<Group>, key: string) {
    exists i :: 0 <= i < |groups| && groups[i].factKey == key
  }

  lemma GroupsGrow(groups: seq<Group>, keys: seq<string>, key: string, rows: seq<Semiote>, from: string, to: string)
    requires GroupsOf(groups, keys, rows, from, to) && key !in keys
    ensures Shared(rows, key, from, to) ==> GroupsOf(groups + [GroupFor(rows, key, from, to)], keys + [key], rows, from, to)
    ensures !Shared(rows, key, from, to) ==> GroupsOf(groups, keys + [key], rows, from, to)
  {
    hide Shared;
    var more := groups + [GroupFor(rows, key, from, to)];
    assert more[|groups|].factKey == key;
    forall k | HasGroup(groups, k)
      ensures HasGroup(more, k)
    {
      var i :| 0 <= i < |groups| && groups[i].factKey == k;
      assert more[i].factKey == k;
    }
  }

  /** The groups of all shared fact keys, each once. */
  method BuildSemioteDedupeGroups(rows: seq<Semiote>, from: string, to: string) returns (groups: seq<Group>, ghost keys: seq<string>)
    ensures GroupsOf(groups, keys, rows, from, to)
    ensures forall key :: Shared(rows, key, from, to) ==> key in keys
  {
    hide GroupsOf, GroupOf, Sort, Shared;
    var byFactKey, found := CollectByFactKey(rows, from, to);
    groups := [];
    var k := 0;
    NoGroups(rows, from, to);
    assert found[..0] == [];
    while k < |found|
      invariant 0 <= k <= |found| && GroupsOf(groups, found[..k], rows, from, to)
    {
      var key := found[k];
      var group := byFactKey[key];
      GroupShared(rows, key, from, to);
      GroupsGrow(groups, found[..k], key, rows, from, to);
      assert found[..k + 1] == found[..k] + [key];
      if (exists r: Semiote :: r in group && r.userId == from) && (exists r: Semiote :: r in group && r.userId == to) {
        var sorted := Sort(group, STAMP);
        groups := groups + [Group(key, sorted[0].id, Ids(sorted[1..]))];
      }
      k := k + 1;
    }
    assert found[..k] == found;
    keys := found;
    forall key | Shared(rows, key, from, to)
      ensures key in keys
    {
      SharedInvolved(rows, key, from, to);
    }
  }

  lemma NoGroups(rows: seq<Semiote>, from: string, to: string)
    ensures GroupsOf([], [], rows, from, to)
  {
  }

  lemma SharedInvolved(rows: seq<Semiote>, key: string, from: string, to: string)
    requires Shared(rows, key, from, to)
    ensures exists r :: r in rows && Involved(r, from, to) && r.factKey == key
  {
    var r :| r in rows && r.factKey == key && r.userId == from;
    assert Involved(r, from, to);
  }

  /** The map from fact key to its rows, and its keys in order of first appearance. */
  ghost predicate Collected(byFactKey: map<string, seq<Semiote>>, keys: seq<string>, rows: seq<Semiote>, from: string, to: string) {
    && (forall key :: key in keys <==> key in byFactKey)
    && (forall key :: key in byFactKey ==> key != "" && byFactKey[key] == GroupOf(rows, key, from, to))
    && (forall key :: key !in byFactKey && key != "" ==> GroupOf(rows, key, from, to) == [])
    && (forall i, j :: 0 <= i < j < |keys| ==> keys[i] != keys[j])
  }

  function Added(row: Semiote, key: string, from: string, to: string): seq<Semiote> {
    if Involved(row, from, to) && row.factKey == key then [row] else []
  }

  lemma GroupSnoc(rows: seq<Semiote>, row: Semiote, from: string, to: string)
    ensures forall key :: GroupOf(rows + [row], key, from, to) == GroupOf(rows, key, from, to) + Added(row, key, from, to)
  {
    forall key: string
      ensures GroupOf(rows + [row], key, from, to) == GroupOf(rows, key, from, to) + Added(row, key, from, to)
    {
      FilterSnoc(rows, row, (r: Semiote) => Involved(r, from, to) && r.factKey == key);
    }
  }

  lemma CollectNext(byFactKey: map<string, seq<Semiote>>, keys: seq<string>, rows: seq<Semiote>, row: Semiote, from: string, to: string)
    requires Collected(byFactKey, keys, rows, from, to)
    ensures !Involved(row, from, to) ==> Collected(byFactKey, keys, rows + [row], from, to)
    ensures Involved(row, from, to) && row.factKey !in byFactKey ==>
      Collected(byFactKey[row.factKey := [row]], keys + [row.factKey], rows + [row], from, to)
    ensures Involved(row, from, to) && row.factKey in byFactKey ==>
      Collected(byFactKey[row.factKey := byFactKey[row.factKey] + [row]], keys, rows + [row], from, to)
  {
    hide GroupOf;
    GroupSnoc(rows, row, from, to);
  }

  lemma CollectedAll(byFactKey: map<string, seq<Semiote>>, keys: seq<string>, rows: seq<Semiote>, from: string, to: string)
    requires Collected(byFactKey, keys, rows, from, to)
    ensures forall r :: r in rows && Involved(r, from, to) ==> r.factKey in keys
  {
    forall r | r in rows && Involved(r, from, to)
      ensures r.factKey in keys
    {
      FilterIs(rows, (x: Semiote) => Involved(x, from, to) && x.factKey == r.factKey);
      assert r in GroupOf(rows, r.factKey, from, to);
    }
  }

  method CollectByFactKey(rows: seq<Semiote>, from: string, to: string) returns (byFactKey: map<string, seq<Semiote>>, keys: seq<string>)
    ensures Collected(byFactKey, keys, rows, from, to)
    ensures forall r :: r in rows && Involved(r, from, to) ==> r.factKey in keys
  {
    hide Collected, GroupOf;
    byFactKey, keys := map[], [];
    NothingCollected(from, to);
    var i := 0;
    assert rows[..0] == [];
    while i < |rows|
      invariant 0 <= i <= |rows| && Collected(byFactKey, keys, rows[..i], from, to)
    {
      var row := rows[i];
      assert rows[..i + 1] == rows[..i] + [row];
      CollectNext(byFactKey, keys, rows[..i], row, from, to);
      i := i + 1;
      if !Involved(row, from, to) {
        continue;
      }
      if row.factKey !in byFactKey {
        keys := keys + [row.factKey];
        byFactKey := byFactKey[row.factKey := [row]];
      } else {
        byFactKey := byFactKey[row.factKey := byFactKey[row.factKey] + [row]];
      }
    }
    assert rows[..i] == rows;
    CollectedAll(byFactKey, keys, rows, from, to);
  }

  lemma NothingCollected(from: string, to: string)
    ensures Collected(map[], [], [], from, to)
  {
  }

  // ---------------------------------------------------------------- applying the groups

  /** One UPDATE of a loser, and of a winner. */
  function Deactivate(rows: seq<Semiote>, id: string, winner: string): (out: seq<Semiote>)
    ensures |out| == |rows|
    ensures forall i :: 0 <= i < |rows| ==>
      out[i] == if rows[i].id == id then rows[i].(active := false, supersededBy := Some(winner)) else rows[i]
  {
    Map((r: Semiote) => if r.id == id then r.(active := false, supersededBy := Some(winner)) else r, rows)
  }

  function Activate(rows: seq<Semiote>, id: string): (out: seq<Semiote>)
    ensures |out| == |rows|
    ensures forall i :: 0 <= i < |rows| ==> out[i] == if rows[i].id == id then rows[i].(active := true) else rows[i]
  {
    Map((r: Semiote) => if r.id == id then r.(active := true) else r, rows)
  }

  lemma {:induction false} InsertIds(x: Semiote, s: seq<Semiote>)
    requires IdsDistinct(s) && forall y :: y in s ==> y.id != x.id
    ensures IdsDistinct(Insert(x, s, STAMP))
  {
    InsertSame(x, s, STAMP);
    if s != [] {
      var first, rest := s[0], s[1..];
      assert s == [first] + rest;
      if first.updatedAt > x.updatedAt {
        InsertIds(x, rest);
        InsertSame(x, rest, STAMP);
        assert Insert(x, s, STAMP) == [first] + Insert(x, rest, STAMP);
        assert forall y :: y in rest ==> y.id != first.id;
      }
    }
  }

  lemma {:induction false} SortIds(s: seq<Semiote>)
    requires IdsDistinct(s)
    ensures IdsDistinct(Sort(s, STAMP))
  {
    if s != [] {
      assert s == [s[0]] + s[1..];
      SortIds(s[1..]);
      SortIs(s[1..], STAMP);
      forall y | y in Sort(s[1..], STAMP)
        ensures y.id != s[0].id
      {
        assert y in multiset(s[1..]);
      }
      InsertIds(s[0], Sort(s[1..], STAMP));
    }
  }

  /** The losers of a group are the involved rows of its fact key except the winner. */
  lemma GroupMembers(rows: seq<Semiote>, key: string, from: string, to: string, r: Semiote)
    requires IdsDistinct(rows) && Shared(rows, key, from, to) && r in rows
    ensures var g := GroupFor(rows, key, from, to);
      && (r.id in g.loserIds <==> Involved(r, from, to) && r.factKey == key && r.id != g.winnerId)
      && (r.id == g.winnerId ==> Involved(r, from, to) && r.factKey == key)
  {
    var s := Ranked(rows, key, from, to);
    RankedIs(rows, key, from, to);
    FilterIds(rows, (x: Semiote) => Involved(x, from, to) && x.factKey == key);
    SortIds(GroupOf(rows, key, from, to));
    assert forall x :: x in s && x.id == r.id ==> x == r;
    var losers := Ids(s[1..]);
    if r.id in losers {
      var i :| 0 <= i < |losers| && losers[i] == r.id;
      assert s[i + 1] == s[1..][i] && s[i + 1] in s && s[0].id != s[i + 1].id;
    }
    assert s[0] in s;
    if r in s && r.id != s[0].id {
      var i :| 0 <= i < |s| && s[i] == r;
      assert losers[i - 1] == s[1..][i - 1].id;
    }
  }

  lemma WinnerApart(rows: seq<Semiote>, key: string, from: string, to: string)
    requires IdsDistinct(rows) && Shared(rows, key, from, to)
    ensures GroupFor(rows, key, from, to).winnerId !in GroupFor(rows, key, from, to).loserIds
  {
    hide Shared;
    RankedIs(rows, key, from, to);
    var s := Ranked(rows, key, from, to);
    assert s[0] in s;
    GroupMembers(rows, key, from, to, s[0]);
  }

  /** The rows after the groups of `done` were applied. */
  ghost predicate AppliedTo(now: seq<Semiote>, rows: seq<Semiote>, done: set<string>, from: string, to: string) {
    |now| == |rows| && forall i :: 0 <= i < |rows| ==>
      now[i] == if rows[i].factKey in done && Involved(rows[i], from, to) then Deduped(rows, rows[i], from, to) else rows[i]
  }

  lemma NothingApplied(rows: seq<Semiote>, from: string, to: string)
    ensures AppliedTo(rows, rows, {}, from, to)
  {
  }

  lemma GroupAt(groups: seq<Group>, keys: seq<string>, rows: seq<Semiote>, from: string, to: string, k: nat)
    requires GroupsOf(groups, keys, rows, from, to) && k < |groups|
    ensures IsGroup(groups[k], rows, from, to) && Shared(rows, groups[k].factKey, from, to)
    ensures groups[k] == GroupFor(rows, groups[k].factKey, from, to)
    ensures forall j :: 0 <= j < k ==> groups[j].factKey != groups[k].factKey
  {
  }

  lemma DedupedIds(rows: seq<Semiote>, from: string, to: string)
    requires IdsDistinct(rows)
    ensures IdsDistinct(DedupedAll(rows, from, to))
  {
    hide Shared, Involved, WinnerId;
  }

  /** Applying one group's statements settles exactly the rows of its fact key. */
  lemma GroupApplied(now: seq<Semiote>, rows: seq<Semiote>, done: set<string>, g: Group, from: string, to: string, next: seq<Semiote>)
    requires IdsDistinct(rows) && AppliedTo(now, rows, done, from, to) && IsGroup(g, rows, from, to) && g.factKey !in done
    requires |next| == |now| && forall i :: 0 <= i < |now| ==>
      next[i] == if now[i].id == g.winnerId then now[i].(active := true)
                 else if now[i].id in g.loserIds then now[i].(active := false, supersededBy := Some(g.winnerId))
                 else now[i]
    ensures AppliedTo(next, rows, done + {g.factKey}, from, to)
  {
    hide Shared, GroupFor;
    forall i | 0 <= i < |rows|
      ensures next[i] == if rows[i].factKey in done + {g.factKey} && Involved(rows[i], from, to) then Deduped(rows, rows[i], from, to) else rows[i]
    {
      GroupMembers(rows, g.factKey, from, to, rows[i]);
      WinnerOf(rows, g.factKey, from, to);
    }
  }

  lemma WinnerOf(rows: seq<Semiote>, key: string, from: string, to: string)
    ensures GroupFor(rows, key, from, to).winnerId == WinnerId(rows, key, from, to)
  {
  }

  lemma AllApplied(now: seq<Semiote>, rows: seq<Semiote>, groups: seq<Group>, keys: seq<string>, done: set<string>, from: string, to: string)
    requires GroupsOf(groups, keys, rows, from, to) && AppliedTo(now, rows, done, from, to)
    requires forall key :: Shared(rows, key, from, to) ==> key in keys
    requires forall key :: HasGroup(groups, key) <==> key in done
    ensures now == DedupedAll(rows, from, to)
  {
    hide Shared;
  }

  // ---------------------------------------------------------------- merging project states

  /** The rows in the order in which the query returned them. */
  ghost predicate Read(read: seq<string>, ps: map<string, ProjectState>) {
    Distinct(read) && forall p :: p in read <==> p in ps
  }

  predicate TargetFor(ps: map<string, ProjectState>, t: string, row: ProjectState, to: string) {
    t in ps && ps[t].userId == to && SamePair(ps[t], row)
  }

  /** The target's row for the pair of `row`; of several the one read last. */
  function TargetOf(ps: map<string, ProjectState>, read: seq<string>, row: ProjectState, to: string): (t: Option<string>)
    ensures t.Some? ==> t.value in read && TargetFor(ps, t.value, row, to)
    ensures t.None? ==> forall x :: x in read ==> !TargetFor(ps, x, row, to)
  {
    if read == [] then None
    else
      var last := read[|read| - 1];
      assert read == read[..|read| - 1] + [last];
      if TargetFor(ps, last, row, to) then Some(last) else TargetOf(ps, read[..|read| - 1], row, to)
  }

  /** A source row goes into the target's row `t`. */
  predicate GoesInto(ps: map<string, ProjectState>, read: seq<string>, s: string, t: string, from: string, to: string) {
    s in ps && ps[s].userId == from && TargetOf(ps, read, ps[s], to) == Some(t)
  }

  predicate Goes(ps: map<string, ProjectState>, read: seq<string>, s: string, from: string, to: string) {
    s in ps && ps[s].userId == from && TargetOf(ps, read, ps[s], to).Some?
  }

  /** The last of the first `n` rows that goes into `t`. */
  function LastInto(ps: map<string, ProjectState>, read: seq<string>, n: nat, t: string, from: string, to: string): (s: Option<string>)
    requires n <= |read|
    ensures s.Some? ==> s.value in read[..n] && GoesInto(ps, read, s.value, t, from, to)
    ensures s.None? ==> forall x :: x in read[..n] ==> !GoesInto(ps, read, x, t, from, to)
  {
    if n == 0 then None
    else
      assert read[..n] == read[..n - 1] + [read[n - 1]];
      if GoesInto(ps, read, read[n - 1], t, from, to) then Some(read[n - 1]) else LastInto(ps, read, n - 1, t, from, to)
  }

  /** The row at `t` once the first `n` rows are merged. Each merge writes the target's row anew
      from the rows as they were read. */
  function MergedRow(ps: map<string, ProjectState>, read: seq<string>, n: nat, t: string, from: string, to: string): (r: ProjectState)
    requires n <= |read| && t in ps
    ensures SamePair(r, ps[t]) && (ps[t].userId == to ==> r.userId == to)
  {
    var s := LastInto(ps, read, n, t, from, to);
    if s.None? then ps[t] else MergeProject(ps[s.value], ps[t], to)
  }

  /** The project states once the first `n` rows are merged. */
  ghost predicate MergedTo(m: map<string, ProjectState>, ps: map<string, ProjectState>, read: seq<string>, n: nat, from: string, to: string)
    requires n <= |read|
  {
    && (forall t :: t in m <==> t in ps && !(t in read[..n] && Goes(ps, read, t, from, to)))
    && (forall t :: t in m ==> m[t] == MergedRow(ps, read, n, t, from, to))
  }

  lemma NoneMerged(ps: map<string, ProjectState>, read: seq<string>, from: string, to: string)
    ensures MergedTo(ps, ps, read, 0, from, to)
  {
  }

  lemma IntoNext(ps: map<string, ProjectState>, read: seq<string>, n: nat, t: string, from: string, to: string)
    requires n < |read|
    ensures LastInto(ps, read, n + 1, t, from, to)
         == if GoesInto(ps, read, read[n], t, from, to) then Some(read[n]) else LastInto(ps, read, n, t, from, to)
  {
  }

  lemma ReadNext(read: seq<string>, n: nat, t: string)
    requires n < |read|
    ensures t in read[..n + 1] <==> t in read[..n] || t == read[n]
  {
    assert read[..n + 1] == read[..n] + [read[n]];
  }

  lemma MergeStays(m: map<string, ProjectState>, ps: map<string, ProjectState>, read: seq<string>, n: nat, from: string, to: string)
    requires n < |read| && MergedTo(m, ps, read, n, from, to) && !Goes(ps, read, read[n], from, to)
    ensures MergedTo(m, ps, read, n + 1, from, to)
  {
    hide LastInto, TargetOf;
    forall t: string
      ensures t in read[..n + 1] <==> t in read[..n] || t == read[n]
      ensures LastInto(ps, read, n + 1, t, from, to) == LastInto(ps, read, n, t, from, to)
    {
      ReadNext(read, n, t);
      IntoNext(ps, read, n, t, from, to);
    }
  }

  lemma MergeNext(m: map<string, ProjectState>, ps: map<string, ProjectState>, read: seq<string>, n: nat, t: string, from: string, to: string)
    requires n < |read| && from != to && MergedTo(m, ps, read, n, from, to) && GoesInto(ps, read, read[n], t, from, to)
    ensures t in ps && ps[t].userId == to
    ensures MergedTo(m[t := MergeProject(ps[read[n]], ps[t], to)] - {read[n]}, ps, read, n + 1, from, to)
  {
    hide LastInto, TargetOf, MergeProject, MergedRow, Goes;
    SourceGoes(ps, read, read[n], t, from, to);
    forall x: string
      ensures x in read[..n + 1] <==> x in read[..n] || x == read[n]
    {
      ReadNext(read, n, x);
    }
    forall x | x in ps
      ensures MergedRow(ps, read, n + 1, x, from, to)
           == if x == t then MergeProject(ps[read[n]], ps[t], to) else MergedRow(ps, read, n, x, from, to)
    {
      RowNext(ps, read, n, t, x, from, to);
    }
  }

  lemma SourceGoes(ps: map<string, ProjectState>, read: seq<string>, s: string, t: string, from: string, to: string)
    requires from != to && GoesInto(ps, read, s, t, from, to)
    ensures s in ps && t in ps && ps[t].userId == to && Goes(ps, read, s, from, to) && !Goes(ps, read, t, from, to)
  {
  }

  lemma RowNext(ps: map<string, ProjectState>, read: seq<string>, n: nat, t: string, x: string, from: string, to: string)
    requires n < |read| && GoesInto(ps, read, read[n], t, from, to) && x in ps && t in ps && read[n] in ps
    ensures MergedRow(ps, read, n + 1, x, from, to)
         == if x == t then MergeProject(ps[read[n]], ps[t], to) else MergedRow(ps, read, n, x, from, to)
  {
    hide LastInto, TargetOf, MergeProject;
    IntoNext(ps, read, n, x, from, to);
  }

  /** Every row keeps its owner and its pair. */
  lemma MergedKeeps(m: map<string, ProjectState>, ps: map<string, ProjectState>, read: seq<string>, n: nat, from: string, to: string)
    requires n <= |read| && MergedTo(m, ps, read, n, from, to)
    ensures forall t :: t in m ==> t in ps && SamePair(m[t], ps[t]) && m[t].userId == ps[t].userId
  {
    hide TargetOf, MergeProject, LastInto;
    forall t | t in m
      ensures t in ps && SamePair(m[t], ps[t]) && m[t].userId == ps[t].userId
    {
      IntoTarget(ps, read, n, t, from, to);
    }
  }

  lemma IntoTarget(ps: map<string, ProjectState>, read: seq<string>, n: nat, t: string, from: string, to: string)
    requires n <= |read| && t in ps
    ensures MergedRow(ps, read, n, t, from, to).userId == ps[t].userId
    ensures LastInto(ps, read, n, t, from, to).Some? ==> ps[t].userId == to
  {
  }

  lemma MergedUnique(m: map<string, ProjectState>, ps: map<string, ProjectState>, read: seq<string>, n: nat, from: string, to: string)
    requires ProjectsUnique(ps) && n <= |read| && MergedTo(m, ps, read, n, from, to)
    ensures ProjectsUnique(m)
  {
    hide MergedTo;
    MergedKeeps(m, ps, read, n, from, to);
  }

  /** After all merges no source row is for a pair of the target; half meetings stay. */
  lemma MergedApart(m: map<string, ProjectState>, ps: map<string, ProjectState>, read: seq<string>, from: string, to: string)
    requires ProjectsUnique(ps) && from != to && Read(read, ps) && MergedTo(m, ps, read, |read|, from, to)
    ensures PairsApart(m, from, to)
    ensures HalfMeets(m, from, to) <==> HalfMeets(ps, from, to)
  {
    hide MergedTo, Read, ProjectsUnique, PairsApart;
    MergedKeeps(m, ps, read, |read|, from, to);
    SourcesGone(m, ps, read, from, to);
    if HalfMeets(ps, from, to) {
      var s, t :| s in ps && t in ps && ps[s].userId == from && ps[t].userId == to && Meets(ps[s], ps[t]) && !SamePair(ps[s], ps[t]);
      HalfStays(m, ps, read, from, to, s, t);
      assert Meets(m[s], m[t]) && !SamePair(m[s], m[t]);
    }
    if HalfMeets(m, from, to) {
      var s, t :| s in m && t in m && m[s].userId == from && m[t].userId == to && Meets(m[s], m[t]) && !SamePair(m[s], m[t]);
      assert Meets(ps[s], ps[t]) && !SamePair(ps[s], ps[t]);
    }
  }

  lemma SourcesGone(m: map<string, ProjectState>, ps: map<string, ProjectState>, read: seq<string>, from: string, to: string)
    requires Read(read, ps) && MergedTo(m, ps, read, |read|, from, to)
    ensures PairsApart(m, from, to)
  {
    hide TargetOf, MergedRow;
    MergedKeeps(m, ps, read, |read|, from, to);
    assert read[..|read|] == read;
    forall s, t | s in ps && ps[s].userId == from && t in read && TargetFor(ps, t, ps[s], to)
      ensures Goes(ps, read, s, from, to)
    {
      NoTarget(ps, read, ps[s], t, to);
    }
  }

  lemma NoTarget(ps: map<string, ProjectState>, read: seq<string>, row: ProjectState, t: string, to: string)
    requires t in read && TargetFor(ps, t, row, to)
    ensures TargetOf(ps, read, row, to).Some?
  {
  }

  lemma HalfStays(m: map<string, ProjectState>, ps: map<string, ProjectState>, read: seq<string>, from: string, to: string, s: string, t: string)
    requires ProjectsUnique(ps) && from != to && MergedTo(m, ps, read, |read|, from, to)
    requires s in ps && t in ps && ps[s].userId == from && ps[t].userId == to && Meets(ps[s], ps[t]) && !SamePair(ps[s], ps[t])
    ensures s in m && t in m
  {
    hide MergedRow;
    PairMeets(ps, s, t);
  }

  lemma PairMeets(ps: map<string, ProjectState>, s: string, t: string)
    requires s in ps && t in ps && Meets(ps[s], ps[t])
    ensures forall o :: o in ps && SamePair(ps[o], ps[s]) ==> Meets(ps[o], ps[t])
  {
  }

  // ---------------------------------------------------------------- what a merged row keeps

  /** The target's row `t` and the source rows that go into it. */
  predicate Rival(ps: map<string, ProjectState>, read: seq<string>, r: string, t: string, from: string, to: string) {
    r in ps && (r == t || GoesInto(ps, read, r, t, from, to))
  }

  /** `m` has the content of the newest of the rivals and the memories of all of them. */
  ghost predicate Kept(m: ProjectState, ps: map<string, ProjectState>, read: seq<string>, t: string, from: string, to: string) {
    && (exists r :: Rival(ps, read, r, t, from, to) && m == ps[r].(userId := to, memoryIds := m.memoryIds))
    && (forall r :: Rival(ps, read, r, t, from, to) ==> ps[r].updatedAt <= m.updatedAt)
    && (forall id :: id in m.memoryIds <==> exists r :: Rival(ps, read, r, t, from, to) && id in ps[r].memoryIds)
  }

  /** No source row read before the last one is newer, or has a memory of its own. */
  ghost predicate EarlierCovered(ps: map<string, ProjectState>, read: seq<string>, last: string, t: string, from: string, to: string)
    requires last in ps && t in ps
  {
    forall s :: GoesInto(ps, read, s, t, from, to) && s != last ==>
      && (ps[s].updatedAt <= ps[last].updatedAt || ps[s].updatedAt <= ps[t].updatedAt)
      && ps[s].memoryIds <= ps[last].memoryIds + ps[t].memoryIds
  }

  /** A target row keeps the newest content and all memories exactly when the source rows read
      before the last one have nothing to add; for a project with a key or a path, always. */
  lemma NewestProjectKept(m: map<string, ProjectState>, ps: map<string, ProjectState>, read: seq<string>, from: string, to: string, t: string)
    requires ProjectsUnique(ps) && from != to && Read(read, ps) && MergedTo(m, ps, read, |read|, from, to)
    requires t in ps && ps[t].userId == to
    ensures t in m
    ensures Kept(m[t], ps, read, t, from, to) <==>
      var last := LastInto(ps, read, |read|, t, from, to);
      last.None? || EarlierCovered(ps, read, last.value, t, from, to)
    ensures ps[t].projectKey.Some? || ps[t].path.Some? ==> Kept(m[t], ps, read, t, from, to)
  {
    hide Kept, EarlierCovered, MergeProject, TargetOf, LastInto;
    assert read[..|read|] == read;
    var last := LastInto(ps, read, |read|, t, from, to);
    if last.None? {
      Untouched(ps, read, t, from, to);
    } else {
      LastKept(ps, read, last.value, t, from, to);
      if ps[t].projectKey.Some? || ps[t].path.Some? {
        OneSource(ps, read, last.value, t, from, to);
      }
    }
  }

  lemma Untouched(ps: map<string, ProjectState>, read: seq<string>, t: string, from: string, to: string)
    requires t in ps && ps[t].userId == to && Read(read, ps) && LastInto(ps, read, |read|, t, from, to).None?
    ensures Kept(ps[t], ps, read, t, from, to)
  {
    hide LastInto, GoesInto;
    assert read[..|read|] == read;
    assert forall r :: r in read ==> !GoesInto(ps, read, r, t, from, to);
    assert forall r :: Rival(ps, read, r, t, from, to) <==> r == t;
  }

  lemma LastKept(ps: map<string, ProjectState>, read: seq<string>, last: string, t: string, from: string, to: string)
    requires from != to && t in ps && ps[t].userId == to && GoesInto(ps, read, last, t, from, to)
    ensures Kept(MergeProject(ps[last], ps[t], to), ps, read, t, from, to) <==> EarlierCovered(ps, read, last, t, from, to)
  {
    hide TargetOf, GoesInto;
    InTable(ps, read, t, from, to);
    var m := MergeProject(ps[last], ps[t], to);
    assert Rival(ps, read, last, t, from, to) && Rival(ps, read, t, t, from, to);
    if Kept(m, ps, read, t, from, to) {
      forall s | GoesInto(ps, read, s, t, from, to) && s != last
        ensures ps[s].updatedAt <= ps[last].updatedAt || ps[s].updatedAt <= ps[t].updatedAt
        ensures ps[s].memoryIds <= ps[last].memoryIds + ps[t].memoryIds
      {
        assert Rival(ps, read, s, t, from, to);
        forall id | id in ps[s].memoryIds
          ensures id in m.memoryIds
        {
        }
      }
    }
    if EarlierCovered(ps, read, last, t, from, to) {
      var chosen := if ps[last].updatedAt > ps[t].updatedAt then last else t;
      assert Rival(ps, read, chosen, t, from, to) && m == ps[chosen].(userId := to, memoryIds := m.memoryIds);
    }
  }

  lemma InTable(ps: map<string, ProjectState>, read: seq<string>, t: string, from: string, to: string)
    ensures forall s :: GoesInto(ps, read, s, t, from, to) ==> s in ps
  {
  }

  /** A filled column lets the source have only one row for the pair. */
  lemma OneSource(ps: map<string, ProjectState>, read: seq<string>, last: string, t: string, from: string, to: string)
    requires ProjectsUnique(ps) && t in ps && (ps[t].projectKey.Some? || ps[t].path.Some?) && GoesInto(ps, read, last, t, from, to)
    ensures EarlierCovered(ps, read, last, t, from, to)
  {
    hide TargetOf;
    forall s | GoesInto(ps, read, s, t, from, to)
      ensures s == last
    {
      SourcePair(ps, read, s, t, from, to);
      SourcePair(ps, read, last, t, from, to);
      assert Meets(ps[s], ps[last]);
    }
  }

  lemma SourcePair(ps: map<string, ProjectState>, read: seq<string>, s: string, t: string, from: string, to: string)
    requires GoesInto(ps, read, s, t, from, to)
    ensures t in ps && SamePair(ps[s], ps[t]) && ps[t].userId == to
  {
  }

  /** Of two source rows without a key and a path only the one read last is merged. */
  lemma OnlyLastMerged() returns (ps: map<string, ProjectState>, read: seq<string>)
    ensures ProjectsUnique(ps) && Read(read, ps) && "t" in ps && ps["t"].userId == "new"
    ensures !Kept(MergedRow(ps, read, |read|, "t", "old", "new"), ps, read, "t", "old", "new")
  {
    hide TargetOf, LastInto, EarlierCovered, Kept;
    var a := ProjectState("old", None, None, 2.0, {"m"}, "newest");
    var b := ProjectState("old", None, None, 1.0, {}, "newer");
    var t := ProjectState("new", None, None, 0.0, {}, "");
    ps, read := map["a" := a, "b" := b, "t" := t], ["a", "b", "t"];
    assert "old"[0] != "new"[0] && "a"[0] != "b"[0] && "a"[0] != "t"[0] && "b"[0] != "t"[0];
    assert read[0] == "a" && read[1] == "b" && read[2] == "t";
    ReadOf(ps, read);
    BlankTarget(ps, read, a);
    BlankTarget(ps, read, b);
    IntoNext(ps, read, 2, "t", "old", "new");
    IntoNext(ps, read, 1, "t", "old", "new");
    assert LastInto(ps, read, |read|, "t", "old", "new") == Some("b");
    LastKept(ps, read, "b", "t", "old", "new");
    NotCovered(ps, read);
  }

  lemma ReadOf(ps: map<string, ProjectState>, read: seq<string>)
    requires ps.Keys == {"a", "b", "t"} && read == ["a", "b", "t"]
    ensures Read(read, ps)
  {
    assert "a"[0] != "b"[0] && "a"[0] != "t"[0] && "b"[0] != "t"[0];
  }

  lemma BlankTarget(ps: map<string, ProjectState>, read: seq<string>, row: ProjectState)
    requires "t" in ps && ps["t"].userId == "new" && SamePair(ps["t"], row) && read == ["a", "b", "t"]
    ensures TargetOf(ps, read, row, "new") == Some("t")
  {
  }

  lemma NotCovered(ps: map<string, ProjectState>, read: seq<string>)
    requires "a" in ps && "b" in ps && "t" in ps && "a" != "b" && GoesInto(ps, read, "a", "t", "old", "new")
    requires ps["a"].updatedAt > ps["b"].updatedAt && ps["a"].updatedAt > ps["t"].updatedAt
    ensures !EarlierCovered(ps, read, "b", "t", "old", "new")
  {
  }

  /** Two rows for the same project under different paths are enough to stop a migration. */
  lemma HalfMeetingExample() returns (ps: map<string, ProjectState>)
    ensures ProjectsUnique(ps) && HalfMeets(ps, "old", "new")
  {
    var s := ProjectState("old", Some("runir"), Some("/a"), 0.0, {}, "");
    var t := ProjectState("new", Some("runir"), Some("/b"), 0.0, {}, "");
    ps := map["s" := s, "t" := t];
    assert "old"[0] != "new"[0] && "/a"[1] != "/b"[1];
    assert ps["s"] == s && ps["t"] == t && Meets(ps["s"], ps["t"]) && !SamePair(ps["s"], ps["t"]);
  }

  // ---------------------------------------------------------------- merging entities

  lemma FewerUnique(es: map<string, Entity>, gone: set<string>)
    requires EntitiesUnique(es)
    ensures EntitiesUnique(es - gone)
  {
  }

  lemma CollidingApart(es: map<string, Entity>, from: string, to: string)
    requires from != to
    ensures EntitiesApart(es - Colliding(es, from, to), from, to)
  {
    forall a, b | a in es && b in es && es[a].userId == from && es[b].userId == to && es[a].key == es[b].key
      ensures Collides(es, a, from, to)
    {
    }
  }

  class CanonicalTenantMigration {
    var entities: map<string, Entity>
    var projects: map<string, ProjectState>
    var semiote: seq<Semiote>
    var noema: map<string, string>
    /** The tables after each committed transaction. */
    ghost var trace: seq<Tables>

    constructor (t: Tables)
      ensures State() == t && trace == []
    {
      entities, projects, semiote, noema := t.entities, t.projects, t.semiote, t.noema;
      trace := [];
    }

    function State(): Tables
      reads this
    {
      Tables(entities, projects, semiote, noema)
    }

    ghost predicate AlwaysUnique()
      reads this
    {
      Unique(State()) && forall t :: t in trace ==> Unique(t)
    }

    /** One merge transaction per colliding entity: the source's row goes. */
    method MergeEntityCollisions(from: string, to: string)
      requires AlwaysUnique() && from != to
      modifies this`entities, this`trace
      ensures AlwaysUnique()
      ensures forall e :: e in entities <==> e in old(entities) && !Collides(old(entities), e, from, to)
      ensures forall e :: e in entities ==> entities[e] == old(entities)[e]
      ensures EntitiesApart(entities, from, to)
    {
      hide EntitiesUnique, ProjectsUnique, IdsDistinct, EntitiesApart, Collides;
      var colliding := Colliding(entities, from, to);
      var left := colliding;
      assert old(entities) - (colliding - left) == entities;
      while left != {}
        invariant left <= colliding && AlwaysUnique()
        invariant entities == old(entities) - (colliding - left)
        decreases left
      {
        var source :| source in left;
        left := left - {source};
        assert old(entities) - (colliding - left) == entities - {source};
        FewerUnique(entities, {source});
        entities := entities - {source};
        trace := trace + [State()];
      }
      assert colliding - left == colliding;
      CollidingApart(old(entities), from, to);
    }

    /** One transaction per colliding project state: the target takes the newer content and
        both memories as they were read, the source's row goes. */
    method MergeProjectCollisions(from: string, to: string, read: seq<string>)
      requires AlwaysUnique() && from != to && Read(read, projects)
      modifies this`projects, this`trace
      ensures AlwaysUnique() && PairsApart(projects, from, to)
      ensures HalfMeets(projects, from, to) <==> HalfMeets(old(projects), from, to)
      ensures MergedTo(projects, old(projects), read, |read|, from, to)
    {
      hide MergedTo, MergedRow, TargetOf, LastInto, ProjectsUnique, PairsApart, HalfMeets, EntitiesUnique, IdsDistinct;
      var rows := projects;
      var n := 0;
      NoneMerged(rows, read, from, to);
      while n < |read|
        invariant 0 <= n <= |read| && AlwaysUnique()
        invariant MergedTo(projects, rows, read, n, from, to)
      {
        var source := read[n];
        if !Goes(rows, read, source, from, to) {
          MergeStays(projects, rows, read, n, from, to);
        } else {
          var target := TargetOf(rows, read, rows[source], to).value;
          MergeNext(projects, rows, read, n, target, from, to);
          projects := projects[target := MergeProject(rows[source], rows[target], to)] - {source};
          MergedUnique(projects, rows, read, n + 1, from, to);
          trace := trace + [State()];
        }
        n := n + 1;
      }
      MergedApart(projects, rows, read, from, to);
    }

    /** One transaction: the newest row of every shared fact key stays active, the others point to it. */
    method DedupeFacts(from: string, to: string)
      requires AlwaysUnique()
      modifies this`semiote, this`trace
      ensures AlwaysUnique() && semiote == DedupedAll(old(semiote), from, to)
    {
      hide Shared, GroupFor, ProjectsUnique, EntitiesUnique, IdsDistinct, AppliedTo, IsGroup, GroupsOf;
      ghost var rows := semiote;
      var groups; ghost var keys;
      groups, keys := BuildSemioteDedupeGroups(semiote, from, to);
      NothingApplied(rows, from, to);
      ghost var done: set<string> := {};
      var k := 0;
      while k < |groups|
        invariant 0 <= k <= |groups|
        invariant trace == old(trace) && AppliedTo(semiote, rows, done, from, to)
        invariant forall key :: key in done <==> exists i :: 0 <= i < k && groups[i].factKey == key
      {
        var g := groups[k];
        ghost var before := semiote;
        GroupAt(groups, keys, rows, from, to, k);
        WinnerApart(rows, g.factKey, from, to);
        ApplyGroup(g);
        GroupApplied(before, rows, done, g, from, to, semiote);
        done := done + {g.factKey};
        k := k + 1;
      }
      AllApplied(semiote, rows, groups, keys, done, from, to);
      DedupedIds(rows, from, to);
      trace := trace + [State()];
    }

    /** The statements of one group: each loser, then the winner. */
    method ApplyGroup(g: Group)
      requires g.winnerId !in g.loserIds
      modifies this`semiote
      ensures |semiote| == |old(semiote)| && forall i :: 0 <= i < |semiote| ==>
        semiote[i] == var r := old(semiote)[i];
          if r.id == g.winnerId then r.(active := true)
          else if r.id in g.loserIds then r.(active := false, supersededBy := Some(g.winnerId))
          else r
    {
      var l := 0;
      while l < |g.loserIds|
        invariant 0 <= l <= |g.loserIds| && |semiote| == |old(semiote)|
        invariant forall i :: 0 <= i < |semiote| ==>
          semiote[i] == var r := old(semiote)[i];
            if r.id in g.loserIds[..l] then r.(active := false, supersededBy := Some(g.winnerId)) else r
      {
        assert g.loserIds[..l + 1] == g.loserIds[..l] + [g.loserIds[l]];
        semiote := Deactivate(semiote, g.loserIds[l], g.winnerId);
        l := l + 1;
      }
      assert g.loserIds[..l] == g.loserIds;
      semiote := Activate(semiote, g.winnerId);
    }

    /** The last transaction: every table changes owner, or a unique index stops it. */
    method MoveOwners(from: string, to: string) returns (ok: bool)
      requires AlwaysUnique() && from != to && EntitiesApart(entities, from, to) && PairsApart(projects, from, to)
      modifies this
      ensures AlwaysUnique()
      ensures ok <==> !HalfMeets(old(projects), from, to)
      ensures State() == if ok then MoveAll(old(State()), from, to) else old(State())
    {
      EntitiesMove(entities, from, to);
      ProjectsMove(projects, from, to);
      var moved := MoveAll(State(), from, to);
      if !(EntitiesUnique(moved.entities) && ProjectsUnique(moved.projects)) {
        return false;
      }
      MoveIds(semiote, from, to);
      entities, projects, semiote, noema := moved.entities, moved.projects, moved.semiote, moved.noema;
      trace := trace + [State()];
      ok := true;
    }

    /** The migration. It refuses on a text collision; otherwise it completes exactly when no
        source project state half-meets a target one. Every committed state keeps the unique
        indexes, and a completed run leaves nothing with the source tenant. */
    method RunMigration(from: string, to: string, apply: bool, read: seq<string>) returns (outcome: Outcome, ghost merged: map<string, ProjectState>)
      requires from != to && AlwaysUnique() && trace == [] && Read(read, projects)
      modifies this
      ensures AlwaysUnique()
      ensures outcome == Refused <==> TextCollision(old(semiote), from, to)
      ensures outcome == Refused || outcome == DryRun ==> State() == old(State()) && trace == []
      ensures outcome == DryRun <==> !TextCollision(old(semiote), from, to) && !apply
      ensures outcome == Completed <==> !TextCollision(old(semiote), from, to) && apply && !HalfMeets(old(projects), from, to)
      ensures outcome == Completed ==>
        && NoRowsOf(State(), from)
        && semiote == MoveSemiote(DedupedAll(old(semiote), from, to), from, to)
        && MergedTo(merged, old(projects), read, |read|, from, to)
        && projects == MoveProjects(merged, from, to)
        && noema == MoveNoema(old(noema), from, to)
        && (forall e :: e in entities <==> e in old(entities) && !Collides(old(entities), e, from, to))
        && (forall e :: e in entities ==> entities[e] == old(entities)[e].(userId := Owner(old(entities)[e].userId, from, to)))
      ensures outcome == IndexViolation ==> noema == old(noema) && semiote == DedupedAll(old(semiote), from, to)
    {
      hide Unique, HalfMeets, Collides, MergedTo, Deduped, PairsApart, EntitiesApart;
      if TextCollision(semiote, from, to) {
        return Refused, projects;
      }
      if !apply {
        return DryRun, projects;
      }
      MergeEntityCollisions(from, to);
      MergeProjectCollisions(from, to, read);
      merged := projects;
      DedupeFacts(from, to);
      ghost var before := State();
      var ok := MoveOwners(from, to);
      MoveAllLeavesNone(before, from, to);
      outcome := if ok then Completed else IndexViolation;
    }
  }

  lemma MoveIds(rows: seq<Semiote>, from: string, to: string)
    requires IdsDistinct(rows)
    ensures IdsDistinct(MoveSemiote(rows, from, to))
  {
  }
}
