/** The scrub's loops over tables, pages and rows with their saved checkpoint, in a process
    that may die before any of its writes (scripts/source-layer/scrub.ts:139-303, 327-381). */
module SourceLayerScrubs {
  import opened OrderedMap
  import opened ScrubValues
  import opened ScrubRecords
  import opened ScrubRows
  import opened ScrubOrder
  import opened ScrubResume
  import opened ScrubFinal

  datatype Checkpoint = Checkpoint(tableIndex: nat, cursor: string)

  datatype Outcome = Finished | Interrupted | Failed

  /** How many more writes the process survives; None lives forever. */
  type Life = Option<nat>

  predicate Dead(life: Life) {
    life == Some(0)
  }

  function Older(life: Life): Life
    requires !Dead(life)
  {
    if life.Some? then Some(life.value - 1) else None
  }

  lemma EmptyPage(env: Env, db: Db, i: nat, cursor: string, size: nat)
    requires env.Valid() && size > 0 && i < |TABLES| && Page(env, db, TABLES[i], cursor, size) == []
    ensures RunFrom(env, db, i, cursor, size) == RunFrom(env, db, i + 1, "", size)
  {
  }

  lemma FullPage(env: Env, db: Db, i: nat, cursor: string, size: nat)
    requires env.Valid() && size > 0 && i < |TABLES| && Page(env, db, TABLES[i], cursor, size) != []
    ensures var ids := Page(env, db, TABLES[i], cursor, size);
      RunFrom(env, db, i, cursor, size)
      == match Batch(env, db, TABLES[i], ids) case None => None
         case Some(next) => RunFrom(env, next, i, ids[|ids| - 1], size)
  {
  }

  lemma BatchKeys(env: Env, db: Db, t: Table, ids: seq<string>)
    requires env.Valid() && Batch(env, db, t, ids).Some?
    ensures Keys(Batch(env, db, t, ids).value, t) == Keys(db, t)
  {
    StepAllKeys(env, db, t, ids);
  }

  /** Dying inside a page leaves the same work to do. */
  lemma CrashInPage(env: Env, db: Db, i: nat, cursor: string, size: nat, m: nat)
    requires env.Valid() && size > 0 && i < |TABLES| && m <= |Page(env, db, TABLES[i], cursor, size)|
    requires StepAll(env, db, TABLES[i], Page(env, db, TABLES[i], cursor, size)[..m]).Some?
    ensures RunFrom(env, StepAll(env, db, TABLES[i], Page(env, db, TABLES[i], cursor, size)[..m]).value, i, cursor, size)
         == RunFrom(env, db, i, cursor, size)
  {
    hide Page, Step, RunTable;
    if m > 0 {
      PartialPage(env, db, TABLES[i], cursor, size, m);
    } else {
      assert Page(env, db, TABLES[i], cursor, size)[..0] == [];
    }
  }

  class SourceLayerScrub {
    const env: Env
    const batchSize: nat
    var db: Db
    var checkpoint: Option<Checkpoint>

    constructor (e: Env, size: nat, stored: Db)
      ensures env == e && batchSize == size && db == stored && checkpoint == None
    {
      env, batchSize, db, checkpoint := e, size, stored, None;
    }

    ghost predicate Ready()
    {
      env.Valid() && 1 <= batchSize <= 100
    }

    /** What an uninterrupted scrub makes of the database from the saved checkpoint on. */
    function Rest(): Option<Db>
      requires Ready()
      reads this
    {
      match checkpoint
      case None => RunFrom(env, db, 0, "", batchSize)
      case Some(c) => RunFrom(env, db, c.tableIndex, c.cursor, batchSize)
    }

    /** Rewrites the rows of one page in order; `m` of them were written. */
    method UpdateBatch(t: Table, ids: seq<string>, life: Life) returns (outcome: Outcome, left: Life, ghost m: nat)
      modifies this`db
      ensures m <= |ids| && StepAll(env, old(db), t, ids[..m]) == Some(db)
      ensures outcome.Finished? ==> m == |ids|
      ensures outcome.Failed? ==> StepAll(env, old(db), t, ids) == None
      ensures life == None ==> left == None && !outcome.Interrupted?
    {
      hide Step;
      left, m := life, 0;
      var k := 0;
      assert ids[..0] == [];
      while k < |ids|
        invariant 0 <= k <= |ids| && m == k
        invariant StepAll(env, old(db), t, ids[..k]) == Some(db)
        invariant life == None ==> left == None
      {
        assert ids == ids[..k] + ids[k..];
        StepAllAppend(env, old(db), t, ids[..k], ids[k..]);
        var next := Step(env, db, t, ids[k]);
        if next.None? {
          return Failed, left, m;
        }
        if Dead(left) {
          return Interrupted, left, m;
        }
        assert ids[..k + 1] == ids[..k] + [ids[k]];
        StepAllAppend(env, old(db), t, ids[..k], [ids[k]]);
        assert [ids[k]][1..] == [];
        db := next.value;
        left := Older(left);
        k := k + 1;
        m := k;
      }
      assert ids[..k] == ids;
      outcome := Finished;
    }

    /** One table from the saved cursor: pages are rewritten, read back, and only then passed. */
    method ScrubTable(i: nat, life: Life) returns (outcome: Outcome, left: Life)
      requires Ready() && i < |TABLES| && checkpoint.Some? && checkpoint.value.tableIndex == i
      modifies this
      ensures Rest() == old(Rest()) && checkpoint.Some?
      ensures outcome.Finished? ==> checkpoint == Some(Checkpoint(i + 1, ""))
      ensures outcome.Failed? ==> Rest() == None
      ensures life == None ==> left == None && !outcome.Interrupted?
    {
      hide RunFrom, RunTable, Batch, Step, Page, Keys, After, Above;
      var t := TABLES[i];
      var cursor := checkpoint.value.cursor;
      left := life;
      while true
        invariant checkpoint == Some(Checkpoint(i, cursor)) && Rest() == old(Rest())
        invariant life == None ==> left == None
        decreases |Above(env, Keys(db, t), cursor)|
      {
        var ids := Page(env, db, t, cursor, batchSize);
        if ids == [] {
          EmptyPage(env, db, i, cursor, batchSize);
          break;
        }
        ghost var before := db;
        FullPage(env, before, i, cursor, batchSize);
        ghost var m;
        outcome, left, m := UpdateBatch(t, ids, left);
        CrashInPage(env, before, i, cursor, batchSize, m);
        if !outcome.Finished? {
          BatchFails(env, before, t, ids);
          return;
        }
        assert ids[..m] == ids;
        if exists id :: id in ids && !Verified(env, db, t, id) {
          BatchOf(env, before, t, ids, db);
          return Failed, left;
        }
        BatchOf(env, before, t, ids, db);
        if Dead(left) {
          return Interrupted, left;
        }
        left := Older(left);
        BatchKeys(env, before, t, ids);
        PageAdvances(env, before, t, cursor, batchSize);
        cursor := ids[|ids| - 1];
        checkpoint := Some(Checkpoint(i, cursor));
      }
      if Dead(left) {
        return Interrupted, left;
      }
      left := Older(left);
      checkpoint := Some(Checkpoint(i + 1, ""));
      outcome := Finished;
    }

    /** One start of the scrub: from the saved checkpoint to the end, an error or its death. */
    method ApplyScrub(life: Life) returns (outcome: Outcome)
      requires Ready()
      modifies this
      ensures Rest() == old(Rest())
      ensures outcome.Finished? ==> Rest() == Some(db)
      ensures outcome.Failed? ==> Rest() == None
      ensures life == None ==> !outcome.Interrupted?
      ensures outcome.Finished? && old(checkpoint) == None ==> AllScrubbed(env, old(db), db)
    {
      hide RunTable, Batch, Step, Page, Keys, AllScrubbed;
      var left := life;
      if checkpoint.None? {
        if Dead(left) {
          return Interrupted;
        }
        left := Older(left);
        checkpoint := Some(Checkpoint(0, ""));
      }
      while checkpoint.value.tableIndex < |TABLES|
        invariant checkpoint.Some? && Rest() == old(Rest())
        invariant life == None ==> left == None
        decreases |TABLES| - checkpoint.value.tableIndex
      {
        outcome, left := ScrubTable(checkpoint.value.tableIndex, left);
        if !outcome.Finished? {
          return;
        }
      }
      outcome := Finished;
      if old(checkpoint) == None {
        ScrubbedRows(env, old(db), batchSize, db);
      }
    }

    /** Any number of interrupted starts, each dying before any write, then one that is not
        interrupted: it finishes iff the scrub never interrupted would, with its database. */
    method ScrubWithCrashes(lives: seq<nat>) returns (ok: bool)
      requires Ready() && checkpoint == None
      modifies this
      ensures ok <==> RunFrom(env, old(db), 0, "", batchSize).Some?
      ensures ok ==> db == RunFrom(env, old(db), 0, "", batchSize).value
      ensures ok ==> AllScrubbed(env, old(db), db)
    {
      hide RunFrom, AllScrubbed;
      var i := 0;
      while i < |lives|
        invariant 0 <= i <= |lives| && Rest() == old(Rest())
      {
        var crashed := ApplyScrub(Some(lives[i]));
        i := i + 1;
      }
      var outcome := ApplyScrub(None);
      ok := outcome.Finished?;
      if ok {
        ScrubbedRows(env, old(db), batchSize, db);
      }
    }
  }

  lemma BatchFails(env: Env, db: Db, t: Table, ids: seq<string>)
    ensures StepAll(env, db, t, ids) == None ==> Batch(env, db, t, ids) == None
  {
  }

  lemma BatchOf(env: Env, db: Db, t: Table, ids: seq<string>, next: Db)
    requires StepAll(env, db, t, ids) == Some(next)
    ensures Batch(env, db, t, ids) == if exists id :: id in ids && !Verified(env, next, t, id) then None else Some(next)
  {
  }
}
