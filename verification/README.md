# Verified models of Rúnir's durable core

This project states and proves, in Dafny, what Rúnir's most intricate code is relied on for: the
source-turn spool, the merging of entities in the graph, the resumable rewriting of stored data, bounded
reranking and its metrics, the replay of composition decisions, and a few fast algorithms against their
simple forms. Objects that update their fields are classes here, loops are loops, and each method is
proved against a specification function about which the theorems are stated. `dafny verify
dfyconfig.toml` checks everything.

## What is modelled

**Source-turn spool** (`SpoolJournal`, `SpoolStartup`, `SpoolOps`, `SpoolProtocol`, `SpoolSafety`,
`SpoolSteps`, `SpoolTheorems`, `SpoolTurns`, `SpoolSessions`, `SpoolRace`, `SpoolBodies`, `SpoolPass`,
`SpoolAnswers`, `SpoolKnown`, `CaptureCommit`, `ExtractedMarks`, `GroupCommit`, `SourceTurnSpools`). The
journal is a byte file of put, extracted, done and forget lines. `SpoolOps` gives each serialised operation
and its effect on memory, and an attempt to start with its outcomes; `SpoolProtocol` is a state machine in
which every body of `sequence(...)` is one step and captures, append requests, the group-commit writer, one
drain pass, forgets, failing writes, failing rollbacks, crashes, and start-ups that fail and are tried again
over half-filled maps interleave freely; `SpoolSafety` proves its invariants over every run; `SpoolTheorems`,
`SpoolBodies`, `SpoolPass`, `SpoolTurns`, `SpoolAnswers`, `SpoolKnown` and `SpoolSessions` draw the
consequences, told from the journal's lines and from what was given to the operations.
`SourceTurnSpools.SourceTurnSpool` is the object with its fields and loops, each method proved to be the
specified operation.

**Entity graph** (`EntityGraph`, `EntityMerge`, `EntityQuotient`, `EntityFold`, `EntityRows`, `EntityStores`).
The edge table has record ids and the unique index over `(in, out, kind)`, the entities the one over user,
name, kind, scope and session; a statement onto a taken key fails its transaction, deleting an entity cascades
to its edges. Merging is proved to be the quotient of the graph, and told row by row.

**Source-layer scrub** (`ScrubValues`, `ScrubRecords`, `ScrubRows`, `ScrubOrder`, `ScrubResume`,
`SourceLayerScrubs`, `ScrubComplete`, `ScrubVerify`, `ScrubMoves`, `ScrubMeaning`, `ScrubFinal`, `ScrubFails`,
`ScrubReads`). The scrubbing of values and of each table's rows, paging, re-read verification and the saved
checkpoint, in a process that may die before any write, and where the moved text ends up. `ScrubMeaning` and
`ScrubFinal` tell what a scrubbed row holds from the row before, `ScrubFails` and `ScrubReads` when a step and
its re-read fail.

**Canonical-tenant migration** (`TenantTables`, `TenantMigrations`, `TenantOutcome`, `TenantEntities`). The
ordered transactions of `runMigration`, with the unique indexes of entities and project states, and what they
leave of every row.

**Bounded reranking and metrics** (`StableSort`, `HexisRerank`, `HexisFit`, `HarnessMetrics`), over exact
reals.

**Decision replay** (`JsonValues`, `TextOrder`, `StableJsons`, `CanonicalJson`, `JsonReader`, `ClaimText`,
`CompositionLog`, `CompositionMeaning`).

**Fast forms** (`Cosines`, `SupersessionMiner`, `MinedPairs`, `PairSampling`, `SourceChunker`,
`SourceTruncation`, `SourceExcerpts`, `ExcerptBlock`, `ActiveHexisCaches`). `OrderedMap` is JavaScript's
insertion-ordered `Map`; `Sequences` holds what several modules say about lists.

## Where the code does less than it promises

Each of these is a lemma, with the exact condition under which the promise holds.

- A body committed with `commitCapture` while the drain writes an older body of the same id is dropped: the
  done line names only the id (`SpoolRace.ReplacedBodyIsLost`; exact condition for one pass
  `SpoolBodies.FinishKeepsBodies` and `SpoolBodies.CompletesBody`, over every run `SpoolBodies.BodiesKept`).
- `initialize` fills the maps before it truncates and starts over when the stream or the truncation fails. The
  retry ends with the same maps but can list the pending entries in another order (`SpoolStartup.RetryReorders`,
  condition `SpoolStartup.OrderAgrees`).
- `commitCapture` compares each turn with the pending body even when another turn of the same call has
  replaced it, so a body can be left pending that is not the last one given
  (`CaptureCommit.EarlierBodyStays`, condition `CaptureCommit.CommitKeepsLast`).
- `markExtracted` likewise compares each turn with the marker that was there before the call: marking a new body
  and then the marked one again leaves the new one marked (`ExtractedMarks.EarlierMarkStays`, condition
  `ExtractedMarks.MarkCoversLast`).
- `forgetSession` and `forgetUser` read the ids first and wait for the append writer afterwards, so a turn whose
  append request is waiting at the call survives it (`SpoolSessions.WaitingTurnSurvives`; nothing acknowledged
  before the call does, `SpoolSessions.OnlyLaterLeft`).
- `mergeEntities` updates the winner first and deletes the loser last, so giving the winner the `nameNorm` of
  a loser of the same user, kind, scope and session always fails (`EntityQuotient.LoserNameFails`, condition
  `EntityQuotient.MergeRuns`). Called with one id twice it removes that entity and its edges
  (`EntityQuotient.SelfMergeErases`).
- A self-loop the winner already had survives a merge, because only edges that touch the loser are read
  (`EntityQuotient.ClusterEdge`).
- On a table without duplicate keys the fold of two loser edges never happens
  (`EntityFold.OneEdgePerTarget`); where it could, an empty `contextText` is treated differently from
  one-at-a-time moves (`EntityFold.GroupAgrees`, `EntityFold.EmptyTextDiffers`).
- The session_turn pass of the scrub adds rows to a table that is already behind it
  (`ScrubComplete.ChunksEndClean`), and the re-read check also reads strings that scrubbing skips: below derived
  keys, under known keys of a trace, and in noema columns that are no strings. Such a row stops every start at
  the same place (conditions `ScrubVerify.SettledVerifies`, `MemoryVerifies`, `TraceVerifies`, `RejectionVerifies`
  and `NoemaVerifies`).
- A turn header is removed once the turn's existing chunks are clean, whatever they spell
  (`ScrubMoves.HeaderLost`, condition `ScrubMoves.HeadersEndInChunks`). A raw text inside a payload that is legacy
  text is removed without a turn (`ScrubMoves.RawTextSurvives`).
- Project states have two unique indexes but one collision key: a source row that meets a target row on one
  column only makes the last transaction of the migration fail after the earlier ones are committed
  (`TenantMigrations.HalfMeetingExample`, condition in `RunMigration` and `TenantTables.ProjectsMove`). Of several
  source rows without a project key and a path only the one read last is merged
  (`TenantMigrations.OnlyLastMerged`, condition `TenantMigrations.NewestProjectKept`). The fact-key winner is made
  active again, and its own `superseded_by` is kept.
- Of several source entities without a session that collide with one target each is merged with the rows as they
  were read, so the confidence and the times of the earlier ones are overwritten; aliases are not lost
  (`TenantEntities.ConfidenceLost`, condition `TenantEntities.AllCovered`).
- A chunk boundary at a code fence cuts the fence after its first backtick (`SourceChunker.SplitPlace`).
- A singleton decision is replayed as the model's, so its hash is not reproduced
  (`CompositionLog.ReplayReproduces`).

## Assumptions

- `Codec.Valid` (`SpoolJournal`): JSON text of an entry holds no raw newline and parses back to the entry,
  also with its trailing newline. `appendLines` is atomic up to a prefix: a failed or interrupted append leaves
  some prefix of its bytes. An hmac is never the empty text.
- One drain at a time: `inFlight` holds one registration per id. The hook route keeps to this
  (`src/app/routes/hooks/index.ts:142`, `src/app/routes/hooks/index.ts:158-174`).
- Redactions are fixed on their own results and may throw; the empty text is unchanged by the fact redaction;
  `String(value)` of a string is that string; record ids are totally ordered; embedding a text gives the same
  answer each time (`ScrubValues.Env`). Splitting a text loses nothing (`SourceChunker` proves it) and the chunk
  ids of a turn differ (`ScrubMoves.Splits`).
- SHA-256 does not collide (`CompositionLog.Env`). The sigmoid has values in [0, 1] (`HexisRerank.Hexis`).
  `1 / log2(i + 2)` is positive and strictly falling (`HarnessMetrics.Discount`).
- A term that a text mentions is mentioned by every longer text around it (`SourceExcerpts.Env`).
- The clock does not go backwards (`ActiveHexisCaches`). A unique index does not compare rows with a column
  without a value, as `src/storage/surreal/session-turn-store.ts:65-66` says of the database in use.

## Model

| member | source | states |
|---|---|---|
| SpoolSafety.Reachable | src/capture/source-turn-spool.ts:29-399 | after any interleaving of captures, appends, flushes, drains, forgets, I/O failures, crashes, and start-ups that fail and are tried again over half-filled maps: the live maps, offsets included, are those of a replay of the journal, and so is the order of the pending entries unless a retried start-up changed it; recorded offsets address their own put lines, `inFlight` is the running pass's registrations, tombstones stay, no request is lost |
| SpoolSafety.StepKeeps | src/capture/source-turn-spool.ts:158-399 | every single step, with every outcome of its I/O, keeps that whole invariant; a failed attempt to start leaves a state from which the next one can start |
| SpoolOps.EffectIsReplay | src/capture/source-turn-spool.ts:105-156 | the in-memory update of every operation is the replay of the lines it appended, offsets and order included |
| SpoolOps.ExecuteAgrees | src/capture/source-turn-spool.ts:164-198 | an operation keeps log and memory in agreement whatever the file system does; a failed one changes no map; after a failed rollback nothing is accepted and the file carries at most a prefix of that one batch |
| SpoolOps.CrashStarts | src/capture/source-turn-spool.ts:164-198 | a crash after any prefix of an operation's bytes leaves a file from which a process can start |
| SpoolOps.StartAgrees | src/capture/source-turn-spool.ts:200-246 | every attempt to start, over whatever earlier failed ones left in the maps: a failed one can be tried again; one that ends has every acknowledged entry plus whole lines of one batch, and the order of a replay if and only if InOrder holds |
| SpoolStartup.StartEnds | src/capture/source-turn-spool.ts:209-239 | replaying the whole file over the maps of failed attempts ends with the same bodies at the same offsets, known, forgotten and extracted ids as a first start; the entries that lasted through the failed ones come first, the others follow in order |
| SpoolStartup.RetryHalf | src/capture/source-turn-spool.ts:204-239 | another attempt that fails after any number of lines leaves such maps again |
| SpoolStartup.OrderAgrees | src/capture/source-turn-spool.ts:209-239 | a retried start lists the pending entries in the order of a first one if and only if no id completed and put again stands before a never completed one that a failed attempt had read |
| SpoolStartup.RetryReorders | src/capture/source-turn-spool.ts:209-240 | otherwise it fails: after put a, done a, put a, put b a start whose truncation failed lists b before a when it is tried again |
| SpoolStartup.ReadPart | src/capture/source-turn-spool.ts:209-212 | a read stream that breaks off after any byte has replayed the whole lines among the bytes it got |
| SpoolJournal.CrashRecovery | src/capture/source-turn-spool.ts:204-243 | for an acknowledged journal followed by any cut of one batch, start-up parses everything, replays the journal and the whole lines, and truncates to a line boundary |
| SpoolJournal.ReplayAppend | src/capture/source-turn-spool.ts:215-238 | replaying a journal and then a continuation is replaying both at once |
| SpoolJournal.ReplayCoherent | src/capture/source-turn-spool.ts:219-235 | no replay leaves a forgotten id pending or extracted, and everything resident is known |
| SpoolJournal.ReplayForgetsForever | src/capture/source-turn-spool.ts:219-235 | a tombstone survives every later journal line |
| SpoolJournal.ReplaySeeds | src/capture/source-turn-spool.ts:69-78 | seeding known ids after a replay is the same as seeding before it |
| SpoolJournal.ReplayAddresses | src/capture/source-turn-spool.ts:213-237 | every offset a replay records addresses the put line of its own id |
| SpoolJournal.ReadBack | src/capture/source-turn-spool.ts:332-345 | reading at a recorded offset gives a put of that id and hmac |
| SpoolJournal.RecoverLines | src/capture/source-turn-spool.ts:213-240 | whole lines are replayed, a rest without a newline is reported and nothing else |
| SpoolTurns.HandsOverWhole | src/capture/source-turn-spool.ts:332-369 | in every reachable state the turn handed to the writer is the turn of the put line at the drained entry's place, every field of it; and with SpoolSafety.StepKeeps the offset-mismatch error never fires |
| SpoolSafety.ReadMatches | src/capture/source-turn-spool.ts:332-346 | in every reachable state readTurn succeeds for the entry being drained, with its id and hmac; that it returns the whole line is the row above |
| SpoolTurns.ReadWhole | src/capture/source-turn-spool.ts:332-346 | reading at a line's place gives its turn back, every field of it |
| SpoolTurns.LinesPassed | src/capture/source-turn-spool.ts:112-127 | each put line a commitCapture or a flush adds holds one of the turns passed to it, whole, and the moment of the operation |
| SpoolTurns.JournalHoldsGiven | src/capture/source-turn-spool.ts:105-369 | over every run: every acknowledged put line, and every turn handed to the writer, is a whole turn that was given to commitCapture or appendBatch |
| SpoolAnswers.FlushTells | src/capture/source-turn-spool.ts:282-330 | when a flush ends, each request gets a flag for each of its own turns: of an acknowledged flush a turn is accepted if and only if the spool now holds its id with its hmac, and fresh if and only if it has no tombstone, was not pending and no earlier turn of the batch has its id; of a failed one nothing is accepted |
| SpoolAnswers.AcceptedIsLogged | src/capture/source-turn-spool.ts:249-330 | over every run, crashes included: every answer belongs to a submitted request, has a flag for each of its turns, and what it calls accepted has a put line of its id and hmac in the acknowledged journal |
| SpoolKnown.UnknownIsNew | src/capture/source-turn-spool.ts:69-91 | over every run: seenCandidates calls an id unknown if and only if the snapshot was taken, does not have it, and no acknowledged line is about it; forgotten if and only if it has a tombstone; extracted if and only if it has none and the last line that marks it has the turn's user, hmac and key |
| SpoolTheorems.ForgetIsFinal | src/capture/source-turn-spool.ts:390-399 | once forget(ids) has resolved, in every later state, also after crashes, no body of those ids is being read or written and they are neither pending nor extracted |
| SpoolTheorems.ForgetNeverDeadlocks | src/capture/source-turn-spool.ts:390-399 | from every state in which a forget waits for a drain, the pass's own steps, whatever they meet, resolve it |
| SpoolSessions.OnlyLaterLeft | src/capture/source-turn-spool.ts:390-416 | once the tombstones of a forgetSession or forgetUser are synced, in every later state, also after crashes, whatever is pending or marked for that session or user was put or marked by a line acknowledged after the call |
| SpoolSessions.WaitingTurnSurvives | src/capture/source-turn-spool.ts:390-406 | it does happen: a turn whose append request was waiting when its session was forgotten is pending when the call resolves, without any failure |
| SpoolTheorems.PassAdvances | src/capture/source-turn-spool.ts:348-388 | a running pass is never blocked and each of its steps brings its end closer |
| SpoolTheorems.EveryRequestAnswered | src/capture/source-turn-spool.ts:256-330 | the writer hand-off leaves no queued request behind: an idle writer means all are answered, and the writer's own steps answer every submitted request |
| SpoolTheorems.NothingLost | src/capture/source-turn-spool.ts:378-388 | per id, over every run: an id with an acknowledged turn is still pending, or some body of it was written, or its forget was asked for; which body is the subject of the next rows |
| SpoolBodies.BodiesKept | src/capture/source-turn-spool.ts:105-388 | per body, over every run in which each pass completes only ids whose pending body was itself written, or whose forget was asked for: the last body put for an id is pending, or that very body was written, or its forget was asked for |
| SpoolBodies.BodiesKeptUndisturbed | src/capture/source-turn-spool.ts:105-388 | so it is in every run in which no pass completes an id that a commitCapture put since that pass's snapshot |
| SpoolBodies.FinishKeepsBodies | src/capture/source-turn-spool.ts:378-386 | the synced end of a pass keeps every last body if and only if each pending body it completes was itself written or its forget asked for |
| SpoolBodies.CompletesBody | src/capture/source-turn-spool.ts:348-388 | over every pass, whatever interleaves: the body a done line takes out is the written one if and only if the last put of that id acknowledged during the pass, if any, has the written hmac |
| SpoolPass.PassAttempts | src/capture/source-turn-spool.ts:348-358 | a pass that reaches its end, whatever interleaves with it and whichever reads and writes fail, went through the pending entries it started with from the first, at most maxTurns and 1000 of them and 64 MiB, and stopped only at the end of the window, at that count, or before an entry that would exceed the bytes; at least min(window, maxTurns, 256) of them if none exceeds 256 KiB |
| SpoolTheorems.LogGrows | src/capture/source-turn-spool.ts:164-246 | acknowledged lines stay acknowledged through every step and crash |
| SpoolTheorems.PutSurvives | src/capture/source-turn-spool.ts:219-235 | a put leaves the replayed map only through a done or forget line of its id |
| SpoolRace.CompletesWhatItWrote | src/capture/source-turn-spool.ts:348-388 | a done line completes the very journal line that was written if and only if no commitCapture put that id between the pass's snapshot and its end |
| SpoolRace.ReplacedBodyIsLost | src/capture/source-turn-spool.ts:105-137 | a run, without any failure, after which an acknowledged body is neither pending nor written nor forgotten: there the condition of SpoolBodies.FinishKeepsBodies fails |
| CaptureCommit.CommitLeaves | src/capture/source-turn-spool.ts:105-133 | after a synced commitCapture a new id holds the last turn given for it, a pending id the last turn that differs from the body it held, or that body |
| CaptureCommit.CommitKeepsLast | src/capture/source-turn-spool.ts:112-118 | the last turn given for an id is the one left pending if and only if it differs from the pending body or all its turns equal that body |
| CaptureCommit.EarlierBodyStays | src/capture/source-turn-spool.ts:112-118 | otherwise it fails: committing a new body and then the pending one again leaves the new body |
| CaptureCommit.CommitWrites | src/capture/source-turn-spool.ts:110-124 | a commitCapture writes a put line for an id if and only if one of its turns has it, is not forgotten and differs from the pending body, and never two |
| ExtractedMarks.CommitMarks | src/capture/source-turn-spool.ts:119-136 | after a synced commitCapture every completed turn not forgotten is marked with its user, session, hmac and key, of several with one id the last, and no other marker changes |
| ExtractedMarks.MarkMarks | src/capture/source-turn-spool.ts:140-156 | after a synced markExtracted every id not forgotten is marked like the last of its turns that differed from the marker before, if any did, and no other marker changes |
| ExtractedMarks.MarkWrites | src/capture/source-turn-spool.ts:143-149 | a markExtracted writes a line if and only if one of its turns is not forgotten and not marked already with its hmac, user and key |
| ExtractedMarks.MarkCoversLast | src/capture/source-turn-spool.ts:143-153 | after markExtracted the last turn given for an id is the one marked if and only if it differs from the marker before or all turns of that id agree with that marker |
| ExtractedMarks.EarlierMarkStays | src/capture/source-turn-spool.ts:143-153 | otherwise it fails: marking a new body and then the already marked one leaves the new one marked |
| GroupCommit.GroupIsSequential | src/capture/source-turn-spool.ts:282-330 | a synced group commit gives every request the flags it would get alone, in queue order, and leaves the same pending ids, order and hmacs |
| GroupCommit.FreshPerPut | src/capture/source-turn-spool.ts:293-311 | one fresh flag is given out per put line |
| GroupCommit.AcceptedIsHeld | src/capture/source-turn-spool.ts:298-310 | a turn is accepted if and only if afterwards its id is pending with its hmac |
| GroupCommit.VerdictsAppend | src/capture/source-turn-spool.ts:293-310 | judging two requests together is judging the second against what the first staged |
| SourceTurnSpools.SourceTurnSpool.constructor | src/capture/source-turn-spool.ts:29-50 | a new process starts with empty maps over the file it finds, not initialized and not seeded |
| SourceTurnSpools.SourceTurnSpool.AppendLines | src/capture/source-turn-spool.ts:164-198 | the loop over the lines appends their bytes once and returns each line's place; a failed append is rolled back or latches the spool |
| SourceTurnSpools.SourceTurnSpool.Initialize | src/capture/source-turn-spool.ts:200-246 | for every split of the file, or of the part that was read before the stream broke, into chunks, and over maps that earlier attempts filled, the loops compute one attempt of the specified start: it replays, truncates the torn rest, and marks the spool initialized only if all of it succeeded |
| SourceTurnSpools.SourceTurnSpool.ReplayChunk | src/capture/source-turn-spool.ts:213-239 | the lines found in one chunk and the carried-over remainder are what recovery of the joined bytes would do |
| SourceTurnSpools.SourceTurnSpool.ApplyEntry | src/capture/source-turn-spool.ts:219-235 | one parsed line updates the four maps branch by branch as specified |
| SourceTurnSpools.SourceTurnSpool.Reopen | src/capture/source-turn-spool.ts:200-246 | after a crash and any number of failed attempts: a failed one leaves a spool that can be tried again; one that ends keeps every acknowledged entry, accounts for every pending one, and is in replay order if and only if InOrder holds |
| SourceTurnSpools.SourceTurnSpool.SeedKnownIds | src/capture/source-turn-spool.ts:69-78 | the first call adds the ids and keeps log and memory in agreement, a later one adds nothing |
| SourceTurnSpools.SourceTurnSpool.RecordPending | src/capture/source-turn-spool.ts:128-133 | each appended turn becomes pending at the place its own line was written |
| SourceTurnSpools.SourceTurnSpool.CommitCapture | src/capture/source-turn-spool.ts:105-138 | refines its specification: skipped, replaced and new turns, one append, all-or-nothing memory update; on success every completed turn not forgotten is marked, and no other marker changes |
| SourceTurnSpools.SourceTurnSpool.MarkExtracted | src/capture/source-turn-spool.ts:140-156 | refines its specification: only missing or changed markers are written; on success the markers are those of ExtractedMarks.MarkMarks |
| SourceTurnSpools.SourceTurnSpool.JudgeRequest | src/capture/source-turn-spool.ts:295-310 | the verdicts of one request, turn by turn, and the staging map after it; conflicts are counted |
| SourceTurnSpools.SourceTurnSpool.FlushAppends | src/capture/source-turn-spool.ts:282-330 | refines the flush: one append for all requests, all verdicts returned together, all refused and counted when it fails |
| SourceTurnSpools.SourceTurnSpool.Forget | src/capture/source-turn-spool.ts:390-399 | tombstones are synced before any map changes; on success the ids are forgotten and neither pending nor extracted |
| SourceTurnSpools.SourceTurnSpool.Drain | src/capture/source-turn-spool.ts:348-388 | a pass hands over, in order, the turns of the acknowledged put lines at its window's places whose read succeeds, every field of them, completes exactly the written ones, and attempts the whole window, maxTurns or 256 entries unless some body exceeds 256 KiB |
| SourceTurnSpools.SourceTurnSpool.CompleteDone | src/capture/source-turn-spool.ts:378-387 | the end of a pass refines its specification and keeps the accounting of pending entries |
| EntityMerge.ReassignRuns | src/entities/entity-store.ts:638-800 | for distinct ids the reassignment transaction never violates the unique index, and leaves a valid table with no edge touching the loser |
| EntityMerge.RunWrites | src/entities/entity-store.ts:731-797 | the statements emitted per target, run in order against the pre-read table, put each folded bundle onto its target and delete only the loser's edges |
| EntityMerge.FoldTargets | src/entities/entity-store.ts:678-716 | the fold's targets are distinct and avoid the loser, and every edge read is deleted |
| EntityQuotient.ReassignConserves | src/entities/entity-store.ts:706-765 | for any set of keys, weight is the sum and confidence and last sighting the maximum over the rows whose moved key lies in it; only created self-loops are lost |
| EntityQuotient.WeightDropsByLoops | src/entities/entity-store.ts:684-688 | the whole table before equals the table after joined with the collapsed self-loops |
| EntityQuotient.MergeRuns | src/entities/entity-store.ts:822-932 | the merge transaction commits if and only if no other row, the loser's included, holds the winner's new key; deleting the loser last then cascades to no edge |
| EntityQuotient.LoserNameFails | src/entities/entity-store.ts:845-929 | otherwise it fails as a whole: giving the winner its loser's name within one session meets the loser's row, which is deleted last |
| EntityQuotient.MergeKeyed | src/entities/entity-store.ts:105-107 | a merge that commits keeps the unique index over the entities |
| EntityQuotient.ClusterRuns | src/entities/entity-store.ts:822-932 | running the merges of a cluster, some of which may fail, is merging exactly those that commit, and keeps both unique indexes |
| EntityQuotient.SelfMergeErases | src/entities/entity-store.ts:822-932 | merging an entity into itself removes it and all its edges, if its new key is free, and fails otherwise |
| EntityQuotient.ClusterIsQuotient | src/entities/entity-store.ts:822-932 | merging losers one by one is the quotient of the graph by the cluster, for any set of keys |
| EntityQuotient.ClusterEdge | src/entities/entity-store.ts:706-765 | between two classes and per kind there is one edge with summed weight and maximal confidence and sighting; internal edges are gone and the winner's own loops are exactly those it had |
| EntityQuotient.MergeOrder | src/entities/entity-store.ts:822-932 | the order of the merges does not matter |
| EntityQuotient.ClusterMemories | src/entities/entity-store.ts:443-459 | the winner is supported by exactly the memories of all members |
| EntityQuotient.ClusterNames | src/entities/entity-store.ts:880-929 | the winner's aliases, and likewise its normalised aliases, are its own, the updates' and every loser's; only the losers' records go |
| EntityFold.OneAtATime | src/entities/entity-store.ts:618-628 | moving the loser's edges each in its own transaction always goes through and ends in the specified table |
| EntityFold.FoldIsOneAtATime | src/entities/entity-store.ts:612-637 | the in-memory fold with its pre-read gives at every key the same row as moving the edges one at a time |
| EntityFold.OneEdgePerTarget | src/entities/entity-store.ts:690-716 | under the unique index at most one loser edge is bound for a target, so the fold of a second never happens |
| EntityFold.GroupAgrees | src/entities/entity-store.ts:706-716 | for any group of edges bound for one target: same signal and origin, and the same text if and only if a text is there already or no empty text misleads the fold |
| EntityFold.EmptyTextDiffers | src/entities/entity-store.ts:714 | a group of two on which fold and one-at-a-time pick different texts |
| EntityStores.EntityStore.ComposeEdgeReassignment | src/entities/entity-store.ts:638-800 | the loops emit exactly the specified statements |
| EntityStores.EntityStore.FoldByTarget | src/entities/entity-store.ts:674-719 | the by-target map and the self-loop list after the loop over the loser's edges |
| EntityStores.EntityStore.QueryTransaction | src/entities/entity-store.ts:794-819 | all statements take effect, or the first failure restores everything |
| EntityRows.ReassignMoves | src/entities/entity-store.ts:638-800 | row by row, told from the table before: each loser edge whose moved key is no loop arrives at that key, as it was with provenance entity-merge where it had none if the key was free, else joined to the row there, which keeps its id, its origin and its text if it has one; every other row not touching the loser stays, and nothing else is there |
| EntityRows.MergeMoves | src/entities/entity-store.ts:822-932 | a committed merge does the same to the edges |
| EntityRows.MergeCommits | src/entities/entity-store.ts:105-107 | the merge transaction commits if and only if no other entity of the winner's user, kind, scope and session has the name the winner gets; without a session nothing is compared |
| EntityRows.NamesAppended | src/entities/entity-store.ts:880-925 | a merge leaves the winner's aliases in front, in their order, adds the others behind them and repeats nothing |
| EntityStores.EntityStore.ReassignEntityEdges | src/entities/entity-store.ts:807-820 | succeeds for every pair of ids and leaves the reassigned, valid table, in which every edge has moved as EntityRows.ReassignMoves tells |
| EntityStores.EntityStore.MergeEntities | src/entities/entity-store.ts:822-932 | succeeds if and only if the winner's new key is free; distinct ids then give the merged graph, with every edge moved row by row, equal ids erase the entity; a failure changes nothing |
| ScrubValues.ScrubAgain | scripts/source-layer/privacy-inventory.ts:53-74 | scrubbing a scrubbed payload changes nothing, for every JSON value and field path |
| ScrubValues.NoRawField | scripts/source-layer/privacy-inventory.ts:68-73 | a scrubbed object has no raw_source_text |
| ScrubMeaning.ScrubRedacts | scripts/source-layer/privacy-inventory.ts:60-74 | key by key and item by item, outside derived keys: a string becomes its redaction and goes only if redaction throws, raw_source_text goes, an object goes only if it is an emptied rawSpan or rawSpans, and all else, numbers and booleans included, stays in its order |
| ScrubReads.OneRedaction | scripts/source-layer/privacy-inventory.ts:60-74 | a value has only one such redaction |
| ScrubMeaning.EveryLeaf | scripts/source-layer/privacy-inventory.ts:60-74 | wherever a string stands, along keys and items that meet no derived key and no raw_source_text, its redaction stands there afterwards, and every number, boolean and null stays where it is |
| ScrubMeaning.TraceIsRedacted | scripts/source-layer/privacy-inventory.ts:45-51 | scrubTraceValue redacts strings, keeps of an object exactly its known keys with their values, in order, and goes through lists item by item; it throws if and only if redaction of one of those strings does |
| ScrubMeaning.NoemaIsRedacted | scripts/source-layer/scrub.ts:225-260 | each noema column becomes the redaction of what it was; norm and embedding follow the text if and only if it changed |
| ScrubMeaning.RecordIsRedacted | scripts/source-layer/scrub.ts:225-271 | the same for rejection_log and retrieval_trace rows, whose prompt, answer and context are emptied |
| ScrubFails.StepRuns | scripts/source-layer/scrub.ts:106-303 | a row's scrub goes through if and only if its payload can be read, its raw text can become a turn whose chunks have room, its texts can be redacted where that may throw, and the chunks of a turn with a header are clean or can be made |
| ScrubRecords.CleanAgain | scripts/source-layer/scrub.ts:226-271 | scrubbing a scrubbed noema, rejection_log or retrieval_trace row changes nothing, column by column as each is scrubbed |
| ScrubRecords.TraceAgain | scripts/source-layer/privacy-inventory.ts:44-51 | scrubTraceValue is idempotent on every JSON value, values kept under known keys included |
| ScrubResume.SettledStep | scripts/source-layer/scrub.ts:139-303 | processing a settled row again changes nothing |
| ScrubResume.StepSettles | scripts/source-layer/scrub.ts:139-303 | processing a row settles it, keeps the table's ids and unsettles no other row |
| ScrubResume.PartialPage | scripts/source-layer/scrub.ts:327-365 | a crash after any number of rows of a page leaves exactly the same work and result |
| ScrubResume.PageAdvances | scripts/source-layer/privacy-inventory.ts:28-35 | each page moves the cursor strictly forward, to the rest of the listing, and is full unless it is the last |
| ScrubOrder.AfterRest | scripts/source-layer/privacy-inventory.ts:28-35 | the ids after the n-th listed id are the rest of the listing: paging skips and repeats nothing |
| ScrubOrder.AfterDistinct | scripts/source-layer/privacy-inventory.ts:28-35 | the listing is strictly ascending |
| SourceLayerScrubs.SourceLayerScrub.UpdateBatch | scripts/source-layer/scrub.ts:139-303 | the row loop is the step-by-step fold; dying or throwing leaves a prefix of it |
| SourceLayerScrubs.SourceLayerScrub.ScrubTable | scripts/source-layer/scrub.ts:330-379 | paging terminates; whatever happens, what an uninterrupted scrub would still make of the database is unchanged |
| SourceLayerScrubs.SourceLayerScrub.ApplyScrub | scripts/source-layer/scrub.ts:327-381 | one start finishes with the uninterrupted result, or fails only if the uninterrupted scrub fails; a first start that finishes has redacted every row of every table |
| SourceLayerScrubs.SourceLayerScrub.ScrubWithCrashes | scripts/source-layer/scrub.ts:305-381 | after any number of starts that die before any write, a last start finishes if and only if the scrub never interrupted would, with its database, in which every row that was there at first is redacted |
| ScrubFinal.ScrubbedRows | scripts/source-layer/scrub.ts:139-381 | after a finished scrub every row that was there when it began holds the redaction of what it held: semiote and memories payloads as they were read, their norm and embedding following the text, the columns of every other table, chunks with the norm of their redacted text, turn headers emptied |
| ScrubComplete.EveryRowScrubbed | scripts/source-layer/scrub.ts:327-381 | after a finished scrub every row of every table but session_turn_chunk is settled, also rows created on the way |
| ScrubComplete.ChunksEndClean | scripts/source-layer/scrub.ts:272-290 | the chunk table, which the session_turn pass still adds to, ends clean if and only if every turn split by that pass splits into parts that redaction leaves alone |
| ScrubVerify.SettledVerifies | scripts/source-layer/scrub.ts:338-367 | a scrubbed semiote row passes the re-read check if and only if its legacy link holds and no unredacted text sits below a derived key |
| ScrubVerify.MemoryVerifies | scripts/source-layer/scrub.ts:338-345 | a scrubbed memories row, whose whole payload is read, passes if and only if no unredacted text sits below a derived key anywhere in it |
| ScrubVerify.TraceVerifies | scripts/source-layer/scrub.ts:338-345 | a scrubbed retrieval_trace row passes if and only if the values kept under known keys of its receipt and synthesis hold no unredacted text |
| ScrubVerify.RejectionVerifies | scripts/source-layer/scrub.ts:338-345 | a scrubbed rejection_log row passes if and only if no unredacted text sits below a derived key of its text |
| ScrubVerify.NoemaVerifies | scripts/source-layer/scrub.ts:338-345 | a scrubbed noema row passes if and only if the inspected columns and keys that are no strings, which scrubbing skips, hold no unredacted text, and none sits below a derived key of its payload |
| ScrubVerify.OnlySkipped | scripts/source-layer/privacy-inventory.ts:53-117 | in a scrubbed value every string is a fixed point of redaction except those under derived keys |
| ScrubReads.VerifiedReads | scripts/source-layer/scrub.ts:335-367 | a row passes the re-read if and only if no string of an inspected field, however deep, would be changed by redaction, no raw text is left, a memory and a trace are what scrubbing makes of them, a chunk's norm follows its text, a turn has no header, and a legacy link names its emptied turn |
| ScrubMoves.HeadersEndInChunks | scripts/source-layer/scrub.ts:272-290 | after a finished scrub the chunks of a turn that still had a header spell its redacted text in order if and only if it had no chunks before the session_turn pass or they already spelled it |
| ScrubMoves.HeaderMoves | scripts/source-layer/scrub.ts:272-290 | the same for the step of one turn |
| ScrubMoves.HeaderLost | scripts/source-layer/scrub.ts:274-281 | otherwise it fails: existing chunks only have to be clean, so a header they do not spell is gone |
| ScrubMoves.Created | scripts/source-layer/scrub.ts:192-198 | creating chunks succeeds if and only if no id and no position of the turn is taken, and adds exactly the parts in order |
| ScrubMoves.SourceMoves | scripts/source-layer/scrub.ts:164-225 | a migrated raw text leaves the payload; the link names a turn with its owner, hmac and key; a turn made now is spelled by its chunks; evidence is written if and only if the link is proven |
| ScrubMoves.RawTextSurvives | scripts/source-layer/scrub.ts:106-135 | a raw text always leaves its row; it becomes a turn if and only if the payload is an object, not legacy text, and the text is not blank and can be prepared; otherwise no turn, chunk, evidence or link is made of it |
| ScrubMoves.ScrubConsistent | scripts/source-layer/scrub.ts:139-303 | over a whole scrub every legacy link keeps naming its turn and every norm stays the norm of its row's text |
| HexisRerank.WindowTheorem | src/hexis/runtime-hexis.ts:431-446 | after boost and re-sort the first W hits all come from resolveHexisReorderWindow |
| HexisRerank.NoFarSwap | src/hexis/runtime-hexis.ts:380-396 | two hits whose scores differ by more than gate * lambda * 0.25 never swap |
| HexisRerank.WideGapKeepsTop | src/hexis/runtime-hexis.ts:271-289 | a boundary gap wider than the largest boost keeps the first W hits |
| HexisRerank.ClosedGateKeepsRanking | src/hexis/runtime-hexis.ts:311-349 | a closed gate, no signal or a zero lane weight leave the ranking unchanged |
| HexisRerank.ApplyBounds | src/hexis/runtime-hexis.ts:356-396 | a score rises by at least nothing and at most gate * lambda * 0.25, and not at all outside the window |
| HexisRerank.GateBounds | src/hexis/runtime-hexis.ts:271-289 | the gate is in [0, 1], fully open exactly up to epsilon and closed exactly from four epsilon on |
| HexisRerank.GateFalls | src/hexis/runtime-hexis.ts:271-289 | a wider gap never opens the gate |
| HexisRerank.GateIs | src/hexis/runtime-hexis.ts:271-289 | in between the gate falls straight; it is open when nothing lies outside the first W or on a tie, closed without hits, and without an epsilon only a tie opens it |
| HexisRerank.WindowHolds | src/hexis/runtime-hexis.ts:431-446 | the reorder window holds exactly the first W hits and every hit within epsilon of one of them |
| HexisRerank.ApplyIs | src/hexis/runtime-hexis.ts:311-396 | a score rises by exactly a quarter of gate, lambda, calibrated fit and clamped match weight multiplied, in the window of a Hexis with a signal and a lane weight, and else stays |
| HexisRerank.BoostGrows | src/hexis/runtime-hexis.ts:380-396 | a larger calibrated fit or match weight never lowers the boost; at fit zero there is none, at fit and match weight one it is gate * lambda * 0.25 |
| HexisRerank.BetterFitFirst | src/hexis/runtime-hexis.ts:380-396 | in the window reranking never puts a hit with a lower score and a lower calibrated fit ahead of another |
| HexisRerank.ModeTells | src/hexis/runtime-hexis.ts:315-394 | the reported mode tells whether the lane, the signal, the gate or calibration was off |
| HexisFit.ScoreHexisFit | src/hexis/runtime-hexis.ts:196-261 | the overlap and topic loops compute the weighted fit |
| HexisFit.FitBounds | src/hexis/runtime-hexis.ts:235-259 | each part is in [0, 1], so the outer clamp never cuts; full overlap means every token is there |
| StableSort.SortIs | src/hexis/runtime-hexis.ts:281 | the sort orders by falling score and keeps exactly the same elements |
| StableSort.SortStable | src/hexis/runtime-hexis.ts:281 | equal scores keep their order |
| StableSort.RaisedTop | src/hexis/runtime-hexis.ts:350-396 | raising scores and sorting again: each of the first w places holds at least the old w-th score |
| HarnessMetrics.NdcgBounds | src/hexis/harness-metrics.ts:16-38 | nDCG is in [0, 1], and 1 exactly when the first five places are those of the ideal order |
| HarnessMetrics.IdealIsBest | src/hexis/harness-metrics.ts:16-38 | the rearrangement inequality for the first five places and any falling positive discounts |
| HarnessMetrics.FixInversion | src/hexis/harness-metrics.ts:16-38 | exchanging an inverted pair never lowers nDCG and raises it inside the first five |
| HarnessMetrics.NdcgAt5 | src/hexis/harness-metrics.ts:16-38 | the two gain loops compute the specified ratio |
| HarnessMetrics.FlipRateBounds | src/hexis/harness-metrics.ts:40-57 | the flip rate is in [0, 1]; without repeats it is symmetric and 0 exactly for equal windows |
| HarnessMetrics.FlipsCounted | src/hexis/harness-metrics.ts:40-57 | the rate is the number of ids in the reranked window that are not in the baseline's, per place |
| HarnessMetrics.BoundaryFlipRate | src/hexis/harness-metrics.ts:40-57 | the loop counts the ids that entered the window |
| CanonicalJson.StableJsonExact | src/noema/composition-log.ts:129-142 | two JSON values have the same stable text if and only if they are equal up to key order |
| JsonReader.StableJsonReads | src/noema/composition-log.ts:129-142 | a JSON reader (RFC 8259) reads the stable text back as the value it was made of, up to key order, with the keys of every object in the order of their UTF-16 code units |
| StableJsons.PrintPrefix | src/noema/composition-log.ts:129-142 | a printed value followed by a delimiter determines the value and what follows it |
| StableJsons.TailPrefix | src/noema/composition-log.ts:129-142 | an escaped string literal determines its string and what follows it |
| CanonicalJson.SameCanon | src/noema/composition-log.ts:137-140 | equal up to key order is exactly having the same value with sorted keys |
| ClaimText.NormalizeJoins | src/noema/composition-log.ts:125-127 | a normalised text is the words of the given one with one blank between them, and is empty exactly when there is none |
| ClaimText.NormalizeAgain | src/noema/composition-log.ts:125-127 | normalising normalised text changes nothing |
| ClaimText.UniqueSortedClean | src/noema/composition-log.ts:144-146 | the ids are exactly the given ones without white space at their ends, blank ones dropped, in strict order |
| ClaimText.UniqueSortedIs | src/noema/composition-log.ts:144-146 | the list holds exactly the trimmed non-empty values in strict order, and doing it again changes nothing |
| CompositionMeaning.CandidateIsKept | src/noema/composition-log.ts:148-159 | every text field of the logged candidate is the given one with its words joined by one blank, absent exactly when absent or blank; its support and conflict ids are the trimmed non-empty given ones; its status is the given one or active |
| CompositionLog.NormalizeCandidateAgain | src/noema/composition-log.ts:148-159 | the candidate normaliser is idempotent; what it keeps is the row above |
| CompositionMeaning.ChosenIsJudged | src/noema/composition-log.ts:161-230 | the judged candidate is the model's, else, if promotion is allowed and there is one source with a text, that source's text, claim, status and id with nothing superseded and no conflict, else none |
| CompositionMeaning.LogHolds | src/noema/composition-log.ts:198-313 | a log holds the judged candidate, and its decision carries exactly its support, superseded id, conflicts, identity and status, commits or not, and gives the first reason in the order budget, missing candidate, empty text, missing support, first unknown support, status transition, conflict |
| CompositionLog.ReplayReproduces | src/noema/composition-log.ts:340-391 | replay reproduces the commit decision of every log, and its hash if and only if the candidate is not the deterministic singleton |
| CompositionLog.HashBinds | src/noema/composition-log.ts:340-391 | logs with one decision hash have, up to key order, the same printed validation and decision |
| CompositionLog.CommitsExactly | src/noema/composition-log.ts:198-313 | a decision commits if and only if there is a candidate within budget, with text, with known support, allowed by the status machine and without conflict |
| CompositionMeaning.CommitsOnGiven | src/noema/composition-log.ts:148-313 | told from the parsed candidate and the sources: a decision commits if and only if the calls are within budget and the model's candidate, or without one that of the only source, has a text, support ids that are all known once trimmed, an allowed status, and no conflict |
| CompositionLog.AbsorbingForever | src/noema/claim-contract.ts:55-72 | a change is valid exactly when it is none or the state is not absorbing; superseded and rejected are never left |
| CompositionMeaning.ValidateCandidate | src/noema/composition-log.ts:198-270 | the loops collect exactly the specified errors, in order, and return the judged candidate |
| TenantMigrations.CanonicalTenantMigration.RunMigration | scripts/migrate-canonical-tenant.ts:86-231 | every committed state keeps the unique indexes; it completes if and only if applied, free of text collisions and no source project state half-meets a target one, and then no source-tenant row is left |
| TenantOutcome.CompletedMigrates | scripts/migrate-canonical-tenant.ts:86-231 | row by row, told from the tables before a completed migration: only rows of the source change owner; facts of a shared key point to the first of the newest; exactly the source entities with a twin are gone; of the project states for one pair the target's row read last takes up the source's row read last, the newer content and both rows' memories, and no other column of any row changes |
| TenantOutcome.RefusedFor | src/maintenance/semiote-tenant-dedupe.ts:32-54 | a migration is refused if and only if both tenants hold a fact of one text that is not empty |
| TenantMigrations.CanonicalTenantMigration.MergeEntityCollisions | scripts/migrate-canonical-tenant.ts:187-194 | one transaction per colliding entity removes exactly the colliding source rows |
| TenantEntities.TenantEntityMerge.MergeEntityCollisions | scripts/migrate-canonical-tenant.ts:187-194 | the loop writes each target's columns from the two rows as they were read and adds the names to those already there |
| TenantEntities.NamesGathered | src/maintenance/canonical-tenant-migration.ts:128-142 | a target ends with exactly its own aliases and those of every source merged into it |
| TenantEntities.AllCovered | src/maintenance/canonical-tenant-migration.ts:128-142 | a target ends no less confident, no later first seen and no earlier last seen than every source merged into it if and only if each source is covered, column by column, by the target as read or by the source merged last |
| TenantEntities.ConfidenceLost | scripts/migrate-canonical-tenant.ts:187-194 | otherwise it fails: of two sources without a session the confidence of the one merged first is overwritten |
| TenantMigrations.CanonicalTenantMigration.MergeProjectCollisions | scripts/migrate-canonical-tenant.ts:134-156 | each colliding project state is merged into its target's row, both as they were read, and is removed; uniqueness holds after each transaction |
| TenantMigrations.NewestProjectKept | src/maintenance/canonical-tenant-migration.ts:144-166 | a target project state keeps the newest content and the memories of all rows that go into it if and only if the source rows read before the last one add nothing; with a project key or a path it always does |
| TenantMigrations.OnlyLastMerged | scripts/migrate-canonical-tenant.ts:196-210 | otherwise it fails: each merge writes the target anew as it was read, so of two source rows without key and path only the last is kept |
| TenantMigrations.CanonicalTenantMigration.DedupeFacts | src/maintenance/semiote-tenant-dedupe.ts:90-128 | the group loops deduplicate exactly the shared fact keys |
| TenantMigrations.CanonicalTenantMigration.MoveOwners | src/maintenance/canonical-tenant-migration.ts:100-126 | the owner change commits if and only if no project state half-meets, and then moves all four tables |
| TenantMigrations.BuildSemioteDedupeGroups | src/maintenance/semiote-tenant-dedupe.ts:55-88 | the groups are those of all fact keys both tenants hold, each once |
| TenantTables.OneActivePerFact | src/maintenance/semiote-tenant-dedupe.ts:76-128 | for every shared fact key the newest row is the one active row and every other one points to it |
| TenantTables.ProjectsMove | src/storage/surreal/project-state-store.ts:45-46 | changing the owner keeps both project indexes if and only if no source row meets a target row on one column only |
| TenantTables.EntitiesMove | src/entities/entity-store.ts:105-107 | changing the owner keeps the entity index, which does not compare rows without a session, once no source key is a target key |
| TenantMigrations.HalfMeetingExample | src/maintenance/canonical-tenant-migration.ts:96-98 | two rows, one project under two paths, that stop a migration although their collision keys differ |
| SupersessionMiner.MineTops | scripts/judge-benchmark/mine-supersession-pairs.ts:149-174 | the sliding window with its one forward-moving start finds what brute force over all rows finds |
| SupersessionMiner.ScanWindow | scripts/judge-benchmark/mine-supersession-pairs.ts:159-171 | one scan, from the window's start to the first row that is not older, is the scan of all rows |
| SupersessionMiner.BestIs | scripts/judge-benchmark/mine-supersession-pairs.ts:161-171 | the result is the earliest eligible, not contained row of the highest cosine at or above the floor, or none exists |
| SupersessionMiner.EveryTopHasBand | scripts/judge-benchmark/mine-supersession-pairs.ts:197 | every mined cosine falls into a band, so the lookup never fails |
| MinedPairs.MinedExactly | scripts/judge-benchmark/mine-supersession-pairs.ts:85-174 | told from the rows: every mined pair is the earliest of the best pairs of its new row, and every new row with a pair gets one; a pair is a usable older row at most 72 hours back, in scope, not contained, of cosine at least 0.7 |
| Cosines.CauchySchwarz | scripts/judge-benchmark/mine-supersession-pairs.ts:93-97 | a product of two vectors never exceeds the product of their lengths |
| Cosines.SimilarityBounds | src/shared/cosine.ts:2-23 | similarity is in [-1, 1], symmetric, and 1 of a vector with itself |
| Cosines.CosineSimilarity | src/shared/cosine.ts:2-23 | the loop computes that similarity |
| PairSampling.PartsShareNoNewRow | scripts/judge-benchmark/mine-supersession-pairs.ts:199-216 | the probability and challenge parts use no new row twice, in either or across, and keep their sizes |
| MinedPairs.BandFills | scripts/judge-benchmark/mine-supersession-pairs.ts:207-216 | a band of the challenge set takes as many cue pairs as there are, up to 50, and fills up to 50 with others behind them |
| MinedPairs.ProbabilityFills | scripts/judge-benchmark/mine-supersession-pairs.ts:200-202 | the probability sample takes as many pairs of cosine at least 0.85 as there are, up to 200 |
| PairSampling.MinedOncePerNew | scripts/judge-benchmark/mine-supersession-pairs.ts:149-174 | mining gives each new row at most one pair |
| SourceTruncation.ShortenFits | src/capture/source-turn-identity.ts:59-66 | the stored text never exceeds 256 KiB, keeps every whole code point of the front that fits except U+FFFD right before the cut, is marked if and only if the text was too large, and storing it again changes nothing |
| SourceTruncation.WellFormedBytes | src/capture/source-turn-identity.ts:64 | encoding and decoding keeps the byte length, lone surrogates included |
| SourceTruncation.WellFormedAt | src/capture/source-turn-identity.ts:64 | encoding and decoding replaces exactly the surrogates without their other half |
| SourceChunker.SplitPlace | src/capture/source-turn-identity.ts:106-108 | a cut before the end of the prefix is right after a blank line, or, when a fence is the later boundary, it leaves one backtick of the fence in the chunk and two in the next |
| SourceChunker.SplitAtBreak | src/capture/source-turn-identity.ts:106-108 | the cut lies two units behind the last blank line or fence that starts in the second half of the prefix, and at its end when none does |
| SourceChunker.ChunkSourceTurn | src/capture/source-turn-identity.ts:96-113 | for maxBytes >= 4 and any UTF-16 text: the chunks concatenate to it, each is non-empty and fits, none cuts a surrogate pair, all but the last exceed (maxBytes - 3) / 6 bytes |
| SourceChunker.BytesCut | src/capture/source-turn-identity.ts:96-113 | UTF-8 size adds up over every cut that keeps surrogate pairs whole |
| SourceChunker.SplitFills | src/capture/source-turn-identity.ts:103-109 | the chosen cut keeps pairs whole and more than half of the prefix |
| SourceExcerpts.BestWindow | src/recall/source-excerpts.ts:19-36 | the search with its early exit finds the best window over all starts |
| SourceExcerpts.EarlyExit | src/recall/source-excerpts.ts:32 | once a window reaches the last word no later start changes the best |
| SourceExcerpts.ScanIsBest | src/recall/source-excerpts.ts:23-33 | the best window fits the token limit and no start's longest window mentions more fact tokens, or as many and is longer |
| ExcerptBlock.ScoreCounts | src/recall/source-excerpts.ts:29 | a window's score is the number of fact tokens it mentions |
| SourceExcerpts.WordsAre | src/recall/source-excerpts.ts:21 | the words of a source are in order and apart, and a place lies in one exactly when it holds no white space |
| SourceExcerpts.TokensGrow | src/recall/source-excerpts.ts:38-43 | a text needs at least the tokens of every piece of it, once angle brackets are escaped and white space is joined |
| SourceExcerpts.ExcerptWindow | src/recall/source-excerpts.ts:20-36 | the shown text is the best window, within the token limit, and marked truncated if and only if it is not the whole source |
| SourceExcerpts.AnnotatedIs | src/recall/source-excerpts.ts:81-103 | at most 3 excerpts of at most 120 tokens in a block within its room, each a contiguous piece of its fact's source, marked truncated if and only if the turn was or the piece is not all of it |
| ExcerptBlock.ShorterIs | src/recall/source-excerpts.ts:99-100 | shortening drops exactly the last word and the white space before it; without both nothing is left |
| ExcerptBlock.LongestQuoted | src/recall/source-excerpts.ts:90-101 | the longest leading run of words that fits the excerpt and the block is quoted, and nothing only when none fits |
| ExcerptBlock.EmptyBlock | src/recall/source-excerpts.ts:81-103 | the block is empty if and only if there is no room or of no fact's window any leading run of words fits |
| ExcerptBlock.SeparateCollapses | src/recall/source-excerpts.ts:42 | joining white space is collapsing each run into one separator |
| ExcerptBlock.BlockReads | src/recall/source-excerpts.ts:45-59 | a block tells what it quotes: equal blocks hold as many excerpts, in the same order, naming the same turns, with the same texts and marks |
| SourceExcerpts.AnnotateSelectedFacts | src/recall/source-excerpts.ts:81-103 | the loops compute the specified excerpts for min(360, what the budget leaves) tokens, with each fact's window found by the search; the tags are counted |
| SourceExcerpts.BlockTags | src/recall/source-excerpts.ts:45-59 | the block has exactly two tags per excerpt plus one opener and one closer |
| ActiveHexisCaches.ActiveHexisCache.Call | src/hexis/active-hexis-cache.ts:111-132 | an answer from the map is a value that key's resolver returned less than 5000 ms ago and moves to the end; a resolver starts only when none runs for the key |
| ActiveHexisCaches.ActiveHexisCache.Resolve | src/hexis/active-hexis-cache.ts:134-143 | the value is stored in place or last, a 257th entry evicts the head of the touch order, no other entry changes |
| ActiveHexisCaches.ActiveHexisCache.Fail | src/hexis/active-hexis-cache.ts:134-150 | a failed resolver leaves the cache as it was |
| ActiveHexisCaches.ActiveHexisCache.PruneExpired | src/hexis/active-hexis-cache.ts:58-64 | the loop removes exactly the expired entries and keeps the order |
| ActiveHexisCaches.ActiveHexisCache.EnforceMaxEntries | src/hexis/active-hexis-cache.ts:66-72 | the loop drops the head until 256 entries are left |
| ActiveHexisCaches.StoredIs | src/hexis/active-hexis-cache.ts:134-142 | what storing a value does to the order: in place, appended, or appended with the head evicted |

## Left out

- SpoolSafety.Reachable: two drains at once, `reserveCapture` and the snapshot counters; the serial queue is atomic steps, so promises and microtasks are not modelled.
- SpoolTheorems.ForgetNeverDeadlocks: assumes that each database write a pass has started ends, well or badly.
- SourceTurnSpools.SourceTurnSpool.AppendLines: a rollback takes effect at once; a truncation that a crash undoes, file modes and directories are not modelled, nor a close that fails.
- SourceTurnSpools.SourceTurnSpool.Drain: the class method is one uninterrupted pass; interleaved passes are in the state machine (`SpoolPass.PassAttempts`). The count of conflicts by error name is left out.
- EntityQuotient.ClusterIsQuotient: weight, confidence and last sighting are always there, as the schema demands (`src/entities/entity-store.ts:124-146`), so the defaults for missing ones are not modelled; `updatedAt` of edges and the winner's updated fields besides `nameNorm`, `aliases` and `aliasesNorm` are left out, since no index and no edge depends on them.
- EntityFold.FoldIsOneAtATime: rows are compared without their record ids, which the database draws at random.
- SourceLayerScrubs.SourceLayerScrub.ScrubWithCrashes: all starts use one batch size; vault files, counts, the inventory hash, options and retention dates are left out.
- ScrubVerify.SettledVerifies: the read-back comparison of a norm and an embedding just written holds trivially in the model and is not stated. Columns of noema and retrieval_trace that scrubbing neither reads nor writes are left out.
- HexisRerank.WindowTheorem: `poolRank`, `boundaryGap`, score stages and explanations are left out; floating-point rounding is not modelled anywhere.
- HexisFit.ScoreHexisFit: tokenising is left out; the token lists are inputs.
- HarnessMetrics.NdcgAt5: the ids of a ranking play no part and are left out; `top1CurrentStateAccuracy` and `stalePickRate` would only add easy members.
- CompositionLog.ReplayReproduces: how validation and decision are laid out as JSON and how claim keys are hashed are parameters; prompt, input and output hashes are left out, since replay does not compare them.
- CanonicalJson.StableJsonExact: strings are Unicode scalar values, so lone surrogates and their escapes are left out.
- TenantMigrations.CanonicalTenantMigration.RunMigration: edges moved by an entity merge are in the entity modules and the other columns of a merged entity in `TenantEntities`; `user_id` is taken to agree with `payload.userId`; the service check and the printed summary are left out.
- SupersessionMiner.MineTops: normalisation and containment of texts are one arbitrary function; counters, the manifest and text hashes are left out.
- SourceChunker.ChunkSourceTurn: below 4 bytes a single code point may not fit and the loop would not end, so the limit is at least 4.
- SourceExcerpts.AnnotateSelectedFacts: looking sources up, its timeout, the modes and the metrics are left out; how a nonce in a text is broken is a parameter; lengths count Unicode scalar values, so one outside the basic plane counts once where the original counts two code units.
- ActiveHexisCaches.ActiveHexisCache.Call: a resolver that calls the cache for its own key before it returns, key hashing and cloning are left out.
- HTTP routes, server start-up, command lines, model and embedding calls, and the redaction rules themselves are outside the models.
