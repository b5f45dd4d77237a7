/** What a target entity ends with when the source entities with its key are merged into it one after
    another (src/maintenance/canonical-tenant-migration.ts:128-142, scripts/migrate-canonical-tenant.ts:86-110,
    187-194). */
module TenantEntities {
  import opened OrderedMap
  import EntityGraph

  /** The merged columns of an entity; times are parsed, a missing description is the empty text. */
  datatype Fields = Fields(canonicalName: string, aliases: seq<string>, aliasesNorm: seq<string>, confidence: real,
                           firstSeenAt: real, lastSeenAt: real, description: string)

  datatype Collision = Collision(source: string, target: string)

  /** mergeEntityForCanonicalTenant. */
  function MergeEntity(source: Fields, target: Fields): Fields {
    Fields(target.canonicalName,
           EntityGraph.Union(target.aliases, source.aliases), EntityGraph.Union(target.aliasesNorm, source.aliasesNorm),
           if source.confidence > target.confidence then source.confidence else target.confidence,
           if source.firstSeenAt <= target.firstSeenAt then source.firstSeenAt else target.firstSeenAt,
           if source.lastSeenAt >= target.lastSeenAt then source.lastSeenAt else target.lastSeenAt,
           if target.description != "" then target.description else source.description)
  }

  /** The target's row once mergeEntities has written `merged` and the loser's names: columns are set, names
      are added to those already there. */
  function Written(now: Fields, merged: Fields, loser: Fields): Fields {
    merged.(aliases := EntityGraph.Union(EntityGraph.Union(now.aliases, merged.aliases), loser.aliases),
            aliasesNorm := EntityGraph.Union(EntityGraph.Union(now.aliasesNorm, merged.aliasesNorm), loser.aliasesNorm))
  }

  /** Every source goes into one target, and no row is both. */
  ghost predicate Collisions(read: map<string, Fields>, cs: seq<Collision>) {
    && (forall i :: 0 <= i < |cs| ==> cs[i].source in read && cs[i].target in read)
    && (forall i, j :: 0 <= i < |cs| && 0 <= j < |cs| ==> cs[i].source != cs[j].target)
    && (forall i, j :: 0 <= i < j < |cs| ==> cs[i].source != cs[j].source)
  }

  /** The rows after the first `n` merges. */
  function Rows(read: map<string, Fields>, cs: seq<Collision>, n: nat): map<string, Fields>
    requires n <= |cs| && Collisions(read, cs)
    ensures forall x :: x in read && (forall i :: 0 <= i < n ==> cs[i].source != x) ==> x in Rows(read, cs, n)
  {
    if n == 0 then read
    else
      var c, now := cs[n - 1], Rows(read, cs, n - 1);
      now[c.target := Written(now[c.target], MergeEntity(read[c.source], read[c.target]), read[c.source])] - {c.source}
  }

  // ---------------------------------------------------------------- the loop

  class TenantEntityMerge {
    var rows: map<string, Fields>

    constructor (rows: map<string, Fields>)
      ensures this.rows == rows
    {
      this.rows := rows;
    }

    /** The collisions in the order in which the sources were read, each merged with both rows as they
        were read. */
    method MergeEntityCollisions(read: map<string, Fields>, collisions: seq<Collision>)
      requires Collisions(read, collisions) && rows == read
      modifies this
      ensures rows == Rows(read, collisions, |collisions|)
    {
      hide MergeEntity, Written, Rows, Collisions;
      NothingMerged(read, collisions);
      var n := 0;
      while n < |collisions|
        invariant 0 <= n <= |collisions| && rows == Rows(read, collisions, n)
      {
        RowsNext(read, collisions, n + 1);
        var source, target := collisions[n].source, collisions[n].target;
        var merged := MergeEntity(read[source], read[target]);
        rows := rows[target := Written(rows[target], merged, read[source])] - {source};
        n := n + 1;
      }
    }
  }

  // ---------------------------------------------------------------- what is kept

  /** The last collision with the target. */
  ghost predicate LastFor(cs: seq<Collision>, n: nat, t: string, k: nat)
    requires n <= |cs|
  {
    k < n && cs[k].target == t && forall i :: k < i < n ==> cs[i].target != t
  }

  ghost predicate Gathered(read: map<string, Fields>, cs: seq<Collision>, n: nat, t: string, name: string, norm: bool)
    requires n <= |cs| && Collisions(read, cs) && t in read
  {
    Lists(read[t], norm, name) || exists i :: 0 <= i < n && cs[i].target == t && Lists(read[cs[i].source], norm, name)
  }

  predicate Lists(f: Fields, norm: bool, name: string) {
    name in if norm then f.aliasesNorm else f.aliases
  }

  /** No name is lost: a target ends with its own aliases and those of every source merged into it. */
  lemma {:induction false} NamesGathered(read: map<string, Fields>, cs: seq<Collision>, n: nat, t: string, name: string, norm: bool)
    requires n <= |cs| && Collisions(read, cs) && t in read && forall i :: 0 <= i < |cs| ==> cs[i].source != t
    ensures t in Rows(read, cs, n)
    ensures Lists(Rows(read, cs, n)[t], norm, name) <==> Gathered(read, cs, n, t, name, norm)
  {
    hide Rows, Collisions, Gathered, Lists;
    NothingMerged(read, cs);
    NothingGathered(read, cs, t, name, norm);
    if n > 0 {
      NamesGathered(read, cs, n - 1, t, name, norm);
      RowsNext(read, cs, n);
      GatheredNext(read, cs, n, t, name, norm);
      var c := cs[n - 1];
      if c.target == t {
        WrittenNames(Rows(read, cs, n - 1)[t], read[c.source], read[t], name, norm);
        if Lists(read[t], norm, name) {
          GatheredOwn(read, cs, n - 1, t, name, norm);
        }
      }
    }
  }

  lemma NothingMerged(read: map<string, Fields>, cs: seq<Collision>)
    requires Collisions(read, cs)
    ensures Rows(read, cs, 0) == read
  {
  }

  lemma NothingGathered(read: map<string, Fields>, cs: seq<Collision>, t: string, name: string, norm: bool)
    requires Collisions(read, cs) && t in read
    ensures Gathered(read, cs, 0, t, name, norm) <==> Lists(read[t], norm, name)
  {
  }

  lemma GatheredOwn(read: map<string, Fields>, cs: seq<Collision>, n: nat, t: string, name: string, norm: bool)
    requires n <= |cs| && Collisions(read, cs) && t in read && Lists(read[t], norm, name)
    ensures Gathered(read, cs, n, t, name, norm)
  {
  }

  lemma GatheredNext(read: map<string, Fields>, cs: seq<Collision>, n: nat, t: string, name: string, norm: bool)
    requires 0 < n <= |cs| && Collisions(read, cs) && t in read && cs[n - 1].source in read
    ensures Gathered(read, cs, n, t, name, norm) <==>
      Gathered(read, cs, n - 1, t, name, norm) || (cs[n - 1].target == t && Lists(read[cs[n - 1].source], norm, name))
  {
  }

  lemma RowsNext(read: map<string, Fields>, cs: seq<Collision>, n: nat)
    requires 0 < n <= |cs| && Collisions(read, cs)
    ensures cs[n - 1].source in read && cs[n - 1].target in read && cs[n - 1].target in Rows(read, cs, n - 1)
    ensures var c, now := cs[n - 1], Rows(read, cs, n - 1);
      Rows(read, cs, n) == now[c.target := Written(now[c.target], MergeEntity(read[c.source], read[c.target]), read[c.source])] - {c.source}
  {
    hide Written, MergeEntity;
  }

  lemma WrittenNames(now: Fields, source: Fields, target: Fields, name: string, norm: bool)
    ensures Lists(Written(now, MergeEntity(source, target), source), norm, name) <==>
      Lists(now, norm, name) || Lists(target, norm, name) || Lists(source, norm, name)
  {
  }

  /** The target ends with the better of its own columns and those of one source, and with its own text. */
  ghost predicate BetterOf(source: Fields, target: Fields, f: Fields) {
    && f.canonicalName == target.canonicalName
    && f.confidence >= source.confidence && f.confidence >= target.confidence && (f.confidence == source.confidence || f.confidence == target.confidence)
    && f.firstSeenAt <= source.firstSeenAt && f.firstSeenAt <= target.firstSeenAt && (f.firstSeenAt == source.firstSeenAt || f.firstSeenAt == target.firstSeenAt)
    && f.lastSeenAt >= source.lastSeenAt && f.lastSeenAt >= target.lastSeenAt && (f.lastSeenAt == source.lastSeenAt || f.lastSeenAt == target.lastSeenAt)
    && f.description == if target.description == "" then source.description else target.description
  }

  /** The other columns come from the source merged last alone. */
  lemma {:induction false} LastSets(read: map<string, Fields>, cs: seq<Collision>, n: nat, t: string, k: nat)
    requires n <= |cs| && Collisions(read, cs) && t in read && (forall i :: 0 <= i < |cs| ==> cs[i].source != t)
    requires LastFor(cs, n, t, k)
    ensures t in Rows(read, cs, n) && BetterOf(read[cs[k].source], read[t], Rows(read, cs, n)[t])
  {
    hide BetterOf, Rows, Collisions, Written, MergeEntity;
    RowsNext(read, cs, n);
    if k == n - 1 {
      WrittenBetter(Rows(read, cs, n - 1)[t], read[cs[k].source], read[t]);
    } else {
      LastSets(read, cs, n - 1, t, k);
    }
  }

  lemma WrittenBetter(now: Fields, source: Fields, target: Fields)
    ensures BetterOf(source, target, Written(now, MergeEntity(source, target), source))
  {
  }

  /** Nothing of a source's columns is lost in the target. */
  predicate Covers(f: Fields, source: Fields) {
    f.confidence >= source.confidence && f.firstSeenAt <= source.firstSeenAt && f.lastSeenAt >= source.lastSeenAt
  }

  /** Every source merged into a target is covered by it exactly when each is covered by the target as it
      was read or by the source merged last, column by column. */
  lemma AllCovered(read: map<string, Fields>, cs: seq<Collision>, t: string, k: nat)
    requires Collisions(read, cs) && t in read && (forall i :: 0 <= i < |cs| ==> cs[i].source != t)
    requires LastFor(cs, |cs|, t, k)
    ensures t in Rows(read, cs, |cs|)
    ensures (forall i :: 0 <= i < |cs| && cs[i].target == t ==> Covers(Rows(read, cs, |cs|)[t], read[cs[i].source])) <==>
      forall i :: 0 <= i < |cs| && cs[i].target == t ==>
        var s, last := read[cs[i].source], read[cs[k].source];
        && (s.confidence <= last.confidence || s.confidence <= read[t].confidence)
        && (s.firstSeenAt >= last.firstSeenAt || s.firstSeenAt >= read[t].firstSeenAt)
        && (s.lastSeenAt <= last.lastSeenAt || s.lastSeenAt <= read[t].lastSeenAt)
  {
    hide Rows;
    LastSets(read, cs, |cs|, t, k);
  }

  /** One source is always covered: a key with a session has no second one. */
  lemma OneCovered(read: map<string, Fields>, cs: seq<Collision>, t: string, k: nat)
    requires Collisions(read, cs) && t in read && (forall i :: 0 <= i < |cs| ==> cs[i].source != t)
    requires LastFor(cs, |cs|, t, k) && forall i :: 0 <= i < |cs| && cs[i].target == t ==> i == k
    ensures t in Rows(read, cs, |cs|) && Covers(Rows(read, cs, |cs|)[t], read[cs[k].source])
  {
    hide Rows;
    LastSets(read, cs, |cs|, t, k);
  }

  /** Two sources without a session: the confidence of the one merged first is lost. */
  lemma ConfidenceLost() returns (read: map<string, Fields>, cs: seq<Collision>)
    ensures Collisions(read, cs) && "t" in Rows(read, cs, |cs|)
    ensures exists i :: 0 <= i < |cs| && cs[i].target == "t" && read[cs[i].source].confidence > Rows(read, cs, |cs|)["t"].confidence
  {
    var f := Fields("Anna", [], [], 0.5, 1.0, 1.0, "");
    read := map["a" := f.(confidence := 0.9), "b" := f.(confidence := 0.2), "t" := f];
    cs := [Collision("a", "t"), Collision("b", "t")];
    assert LastFor(cs, 2, "t", 1);
    LastSets(read, cs, 2, "t", 1);
    assert cs[0].target == "t" && read[cs[0].source].confidence == 0.9;
  }
}
