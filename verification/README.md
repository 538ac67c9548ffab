# Verified model of the iPredict off-chain machinery

This project models, in Dafny 4.11, the parts of the iPredict repository that have to stay correct across
crashes, replays and interleavings, and proves what they guarantee. `dafny verify dfyconfig.toml` checks all of it.

| file | what it models |
|---|---|
| `Ingestion.dfy` | checkpointed polling over transactional tables, with a fault possible at every statement |
| `EventRouter.dfy` | the schema-validated router and its batching of bets |
| `Backfill.dfy` | the replay path (deduplicate, then accumulate) and the two recompute jobs |
| `Leaderboard.dfy`, `LeaderboardLog.dfy` | the leaderboard fold, its order, and the batched insert; its rows from the event log |
| `DeadLetter.dfy` | dead-letter storage, replay and batches |
| `Schemas.dfy`, `SchemaForms.dfy` | the payload schemas on JavaScript values, and the payloads they accept |
| `IndexerLock.dfy` | the advisory-lock singleton, its heartbeat and its release, over any number of sessions |
| `CacheAside.dfy` | the read-through cache with single flight, over any number of concurrent calls |
| `HitRate.dfy` | cache keys, their namespaces, and the hit-rate registry |
| `CircuitBreaker.dfy` | the Redis circuit breaker |
| `Migrations.dfy`, `MigrationFiles.dfy` | the lock-guarded migration runner, over any number of runners; the accepted listings |
| `Retry.dfy` | the retry engine: attempts, deadlines, delays |
| `Dotenv.dfy` | the dotenv reader |
| `Der.dfy` | the DER reader of the certificate monitor |
| `CertAlerts.dfy`, `Synthetic.dfy` | the two alert state machines |
| `JsText.dfy`, `Sequences.dfy`, `Wrappers.dfy` | shared definitions |

Concurrent protocols are transition systems: a state, the enabled steps, an inductive invariant, and theorems about
every run. Where the source updates an object in place, the model is a class whose methods are proved against a
function of the old state, and the theorems are about that function. Network, Redis, PostgreSQL, clocks and random
sources are parameters or adversarial steps.

## What the code does not do

Where a natural claim about the code is false, the code is modelled as it is, and the lemmas named below give an input on
which it fails, the exact condition under which it holds, or both.

- Many migration files end with a COMMIT of their own, which ends the transaction that `applyMigration` opened: a crash, a
  failing INSERT or a lost answer right after it leaves the file committed and unrecorded, and it is applied again
  (`Migrations.SelfCommittingFileCommitsTwice`). A run is exact if and only if this never struck (`Migrations.ExactIffNoTear`),
  and every run is if and only if no pending file commits itself (`Migrations.EveryRunIsExactIff`).
- A dry run of the migrations still creates the bookkeeping table, although `db/migrate.ts` documents it as executing no DDL
  (`Migrations.TableIffEntered`, `Migrations.DryRunCreatesTheTable`).
- A lock grant that the client never hears of stays on the pooled client; a holder's count is off by the number of such
  grants (`IndexerLock.HolderIsUniqueAndExact`, `IndexerLock.LostGrantBreaksTheCount`).
- The fallback ingestion branch applies events at least once, not once (`Ingestion.FallbackCanApplyTwice`): a run is exact if
  and only if no poll is torn between an effect and the checkpoint (`Ingestion.RunIsExactIff`). With several pollers at once
  it is exact if and only if no commit stores an event again and the last checkpoint has all events of the highest
  (`Ingestion.PollersExactIff`).
- A position's later bets are counted on the side of its first bet, so a position is right if and only if its bets are all
  on one side (`Backfill.PositionSideExactIff`, `Backfill.TotalOnTheWrongSide`).
- Outside a transaction a failing batch can leave fewer events behind than writing one by one would
  (`EventRouter.BatchingCanWriteLess`): the two states agree if and only if there is no failure or the failing event is the
  first of its group (`EventRouter.StatesAgreeIff`).
- A success recorded while the circuit is open cuts the backoff to a 1500th of the base
  (`CircuitBreaker.SuccessWhileOpenCutsTheBackoff`); with the default options the circuit stays open for 300 seconds, not
  for the documented `resetTimeoutMs` (`CircuitBreaker.DefaultBackoff`); probes in flight are not bounded although the
  documentation promises a single one (`CircuitBreaker.ProbesAreNotCounted`).
- A name `__proto__` is dropped by the dotenv reader, and U+2028 or U+2029 in a quoted value makes its line malformed
  (`Dotenv.DoubleQuotedRoundTripIff`).
- In an unquoted dotenv value only spaces before a `#` start a comment, not any white space as the source's comment says: the
  value is cut where that comment promises if and only if the white space is a space (`Dotenv.CommentIff`, `Dotenv.TabsStartNoComment`).
- A bigint event index does not survive the dead-letter queue (`DeadLetter.IdentityKeptIff`). A payload that a schema refused
  may be accepted once stored (`Schemas.RefusedMayBecomeAccepted`), but not if it is stored as it is, which holds exactly
  without bigints, undefined parts and non-finite numbers (`Schemas.StoredAsIsIff`, `Schemas.PlainStaysRefused`); for
  resolutions the exact condition is `Schemas.ResolvedOnceStoredIff`. A parsed registration does not parse back to itself
  unless its referrer points are the default (`Schemas.FixedPointIff`). Batches that overlap on a row pass the attempt cap if
  and only if there are more of them than tries left (`DeadLetter.OverlapPassesTheCapIff`).
- The certificate monitor never reports "condition cleared" (`CertAlerts.NoticeIff`), so the end of an outage is silent
  (`CertAlerts.OutageEndsSilently`); a renewal that improves the level without reaching `ok` does not alert, although
  `infra/README.md` says so (`CertAlerts.ReplacementAlertsIff`).
- The synthetic monitor's "critical exactly when the failed run reaches `fail_after`" needs `fail_after` to be at least
  one or the last probe to have failed (`Synthetic.CriticalIff`).
- A colon inside a cache-key part collides with the separator (`CacheKeys.ColonsCollide`).
- Jittered draws stay below their ceiling only if it is positive, and exponential ceilings grow only if the base is not
  negative (`Retry.FullJitterRange`, `Retry.EqualJitterRange`, `Retry.CeilingsGrowIff`).

## Model

| member | source | states |
|---|---|---|
| Ingestion.Database.ProcessLedgerBatchWithCheckpoint | indexer/src/db.ts:61-130 | effects and checkpoint become durable together or not at all, whichever statement fails; the client goes back; a transaction stays open exactly if one was open and the ROLLBACK fails too |
| Ingestion.Database.PollOnce | indexer/src/poll-loop.ts:51-142 | one poll moves the tables as its specification says, on the atomic, fallback and recovery branches and for every fault |
| Ingestion.Database.RunPollLoop | indexer/src/poll-loop.ts:176-202 | the loop is the sequence of its polls, each starting from the durable tables |
| Ingestion.RefusedIff | indexer/src/poll-loop.ts:59-101 | without a hook a poll is refused, and changes nothing, if and only if the RPC reports a gap, some event's ledger is at most the checkpoint (or below the default start), or the tip is behind what is known |
| Ingestion.PollOutcome | indexer/src/poll-loop.ts:103-127 | otherwise it succeeds if and only if no statement of it fails, storing all events and the tip; what is stored when one fails, on either branch |
| Ingestion.RunAddsNewEvents | indexer/src/poll-loop.ts:68-127 | whatever the RPC answers and wherever faults strike, on either branch, a hookless run only adds events, none at or below the checkpoint it began with |
| Ingestion.StoredByOnePoll | indexer/src/poll-loop.ts:104-112 | on the atomic branch, if no answer goes beyond its own tip, whatever later polls store is later than everything stored before |
| Ingestion.EarliestBefore | indexer/src/poll-loop.ts:68-86 | finds the smallest ledger below the requested start, exactly when the answer holds one |
| Ingestion.CheckpointNeverDecreases | indexer/src/poll-loop.ts:88-127 | over any polls, faults and restarts outside the recovery hook the checkpoint never goes back |
| Ingestion.OnlyTheHookMovesBack | indexer/src/poll-loop.ts:144-170 | with the hook, a poll moves the checkpoint back exactly when the answer was suspicious and the hook left it behind; success means the hook named that checkpoint |
| Ingestion.AtomicRunIsExact | indexer/src/poll-loop.ts:104-127 | on the atomic branch, after any run, the stored effects are the chain's events from the first ledger through the checkpoint, in order |
| Ingestion.AtomicRunAppliesOnce | indexer/src/db.ts:102-130 | each event at or below the checkpoint is stored as often as the chain has it, each event above it not at all |
| Ingestion.EveryRunCovers | indexer/src/poll-loop.ts:113-123 | on either branch, and mixing them, every event at or below the checkpoint was applied before the checkpoint got there, and nothing else was |
| Ingestion.RunIsExactIff | indexer/src/poll-loop.ts:104-127 | a run on either branch, mixing them, ends exact if and only if no accepted poll failed between a stored effect and its checkpoint |
| Ingestion.FallbackCanApplyTwice | indexer/src/poll-loop.ts:113-123 | a run on which the fallback branch applies an event twice |
| Ingestion.LateCommitIsExactIff | indexer/src/db.ts:61-75 | a commit by a poller that was overtaken keeps the tables exact if and only if no event lies in between, and moves the checkpoint back if and only if its tip is behind |
| Ingestion.PollersExactIff | indexer/src/poll-loop.ts:51-112 | with any number of concurrent pollers a run ends exact if and only if no commit stored an event again and no event lies between the last checkpoint and the highest |
| Ingestion.OneAtATimeIsExact | indexer/src/poll-loop.ts:51-112 | if each poll starts with no other in flight the run ends exact and stores nothing again |
| Ingestion.UndisturbedPollIsAPoll | indexer/src/poll-loop.ts:51-112 | a poll of the concurrent system that runs through on its own is a poll of the atomic branch |
| EventRouter.Router.WriteEventsToDb | indexer/src/event-router.ts:223-268 | terminates, performing the groups of the plan in order up to the first failure |
| EventRouter.CollectBatch | indexer/src/event-router.ts:239-254 | collects the longest run of adjacent valid bets of one ledger |
| EventRouter.FindRouteIff | indexer/src/event-router.ts:62-130 | an event goes to a route if and only if its topics are the route's |
| EventRouter.RoutesAreDisjoint | indexer/src/event-router.ts:62-130 | no two routes accept the same topics |
| EventRouter.PlanPartitions | indexer/src/event-router.ts:223-268 | the groups, flattened, are the input; each batch is one ledger, all valid bets, and maximal; everything else goes alone |
| EventRouter.BulkRefinesSingles | indexer/src/event-router.ts:256-261 | a bulk write and its events one by one have the same error, and without one the same state and counters |
| EventRouter.BatchingRefinesOneByOne | indexer/src/event-router.ts:223-268 | the batched write fails exactly when one by one fails, with the same error, and otherwise ends in the same state |
| EventRouter.SameTablesInTransaction | indexer/src/event-router.ts:216-268 | inside a transaction, which a failing dead-letter insert aborts too, both leave the same tables in every case |
| EventRouter.FailureKeepsWholeGroups | indexer/src/event-router.ts:223-268 | outside one, a failing batched write leaves exactly the groups before the failing one |
| EventRouter.StatesAgreeIff | indexer/src/event-router.ts:223-268 | the batched and the one-by-one write leave the same state if and only if neither fails or the failing event is the first of its group |
| EventRouter.BatchingCanWriteLess | indexer/src/event-router.ts:256-261 | two bets of which the batched write stores neither and the one-by-one write the first |
| EventRouter.EveryEventIsCounted | indexer/src/event-router.ts:174-214 | without a handler error, processed plus dead-lettered grows by the number of events, and the stored dead letters by no more than those counted |
| EventRouter.TypesAreCounted | indexer/src/event-router.ts:174-214 | without a handler error each route's counter grows by the number of valid events with its topics |
| Backfill.Database.WriteEventToDb | indexer/src/backfill.ts:230-292 | an event on record changes nothing; a bet for a missing market is refused; any other is recorded and applied |
| Backfill.Database.ProcessEventsInChunks | indexer/src/backfill.ts:197-214 | chunking does not matter: each event once, in order, up to the first failure |
| Backfill.PageStopsAtTheFirstBadBet | indexer/src/backfill.ts:197-292 | a page is the replay of its events up to the first new bet on a missing market, and fails exactly if there is one |
| Backfill.UpsertRow | indexer/src/backfill.ts:280-291 | the conflict branch adds to the row of the same market and bettor and keeps its side |
| Backfill.Database.RecomputeTotals | indexer/src/recomputeTotals.ts:45-77 | every market row gets the sums of its bets per side; exactly the rows that were off are counted as corrected |
| Backfill.Database.RecomputeBetCounts | indexer/src/recomputeBetCounts.ts:17-41 | every market row gets the number of its bet rows; exactly the rows that were off are counted |
| Backfill.ReplayAddsUp | indexer/src/backfill.ts:230-292 | replaying any consistent list adds each distinct new bet's net amount once, and its bettor once |
| Backfill.CountIsBettors | indexer/src/recomputeBetCounts.ts:17-41 | with one row per position the row count is the number of distinct bettors |
| Backfill.AggregatesAfterReplay | indexer/src/recomputeTotals.ts:49-75 | after any replay and the recomputes, every market row has totals that sum to the net amounts of the distinct bets on it, and the count of its distinct bettors |
| Backfill.DeliveryOrderDoesNotMatter | indexer/src/recomputeTotals.ts:49-75 | neither aggregate depends on the order of delivery or on duplicates |
| Backfill.ReplayIsIdempotent | indexer/src/backfill.ts:230-292 | replaying the whole list again changes no bet |
| Backfill.MarketAfterReplay | indexer/src/backfill.ts:230-292 | after any replay a market is cancelled or resolved exactly if it was or the list newly says so, its outcome is that of the last new resolution, and nothing else in its row changes |
| Backfill.MarketsAreCreated | indexer/src/backfill.ts:230-292 | a market exists after a replay exactly if it did or the list newly creates it, and a new one starts open and empty |
| Backfill.KeysAfterReplay | indexer/src/backfill.ts:230-292 | the audit keys after a replay are the old ones and those of the events about an existing market or about none |
| Backfill.RecomputeIsIdempotent | indexer/src/recomputeTotals.ts:45-77 | a second recompute finds no row off and changes nothing |
| Backfill.CorrectedIff | indexer/src/recomputeTotals.ts:45-77 | the rows counted as corrected are exactly those a recompute changes |
| Backfill.PositionSides | indexer/src/backfill.ts:280-291 | after a replay a position is counted on its bets' own sides if and only if those on the other side than its row's add up to nothing; its row's side is that of one of its bets |
| Backfill.PositionSideExactIff | indexer/src/backfill.ts:287-290 | for positive bets: if and only if all its distinct bets are on one side |
| Backfill.OneSidedTotals | indexer/src/recomputeTotals.ts:45-77 | after replay and recompute, a market with one-sided positions has on each side the sum of the distinct bets on that side |
| Backfill.TotalOnTheWrongSide | indexer/src/recomputeTotals.ts:45-77 | a replay and recompute after which a market's yes total holds a bet on no |
| Leaderboard.Board.Touch | indexer/src/leaderboard-rebuild.ts:184-209 | finds or creates the player and applies one visit, leaving all others alone |
| Leaderboard.Board.Fold | indexer/src/leaderboard-rebuild.ts:280-314 | the loop over the log is the fold of all visits, two for a registration with a referrer |
| Leaderboard.BuildLeaderboardSnapshot | indexer/src/leaderboard-rebuild.ts:280-330 | the snapshot is the sorted fold, with the event count and the last ledger |
| Leaderboard.FoldAddsUp | indexer/src/leaderboard-rebuild.ts:184-278 | after any visits a player's points, wins and losses are the sums over the visits of that address |
| Leaderboard.SnapshotIsExact | indexer/src/leaderboard-rebuild.ts:280-330 | strictly sorted by points, wins, losses and address; one row per visited address, with that address's sums |
| LeaderboardLog.RowsFromTheLog | indexer/src/leaderboard-rebuild.ts:175-330 | from the log itself: one row for each address some event counts for; its points are the payloads' or else 30, 10, 5 or 3 by class, plus the referrer's; its wins are its claims that say so, its losses its other claims |
| LeaderboardLog.NamesAreLast | indexer/src/leaderboard-rebuild.ts:211-278 | a display name is the last one that is not empty |
| LeaderboardLog.FlagIff | indexer/src/leaderboard-rebuild.ts:136-149 | which values read as true and which as false |
| Leaderboard.SnapshotIsOrderIndependent | indexer/src/leaderboard-rebuild.ts:280-330 | permuting the log gives the same rows, up to display names |
| Leaderboard.PointsAreConserved | indexer/src/leaderboard-rebuild.ts:207-278 | the points on the board are the points the events give |
| Leaderboard.InsertInBatches | indexer/src/leaderboard-rebuild.ts:472-505 | the statements partition the rows in order, none is empty, none passes 65535 parameters, and all but the last are full |
| Schemas.AcceptedSurvivesJson | indexer/src/schemas.ts:100-430 | a payload any of the six schemas accepts is accepted with an equal result after bigints become decimal strings and undefined fields are dropped |
| Schemas.StoredAsIsIff | indexer/src/event-router.ts:152-155 | a value is stored as it is if and only if it has no bigint, no undefined part and no non-finite number |
| Schemas.PlainStaysRefused | indexer/src/schemas.ts:100-430 | a refused payload that is accepted once stored has such a part |
| Schemas.ResolvedOnceStoredIff | indexer/src/schemas.ts:137-173 | a stored resolution is accepted if and only if the schema accepts it as it was, up to outcomes 0n and 1n and further undefined fields |
| Schemas.RefusedMayBecomeAccepted | indexer/src/schemas.ts:137-152 | a resolution with the outcome 1n is refused, its stored form accepted |
| Schemas.ResultsAreCanonical | indexer/src/schemas.ts:199-306 | every result is in range: safe ids, addresses, canonical positive amounts, net plus fee at most the gross amount |
| Schemas.FixedPointIff | indexer/src/schemas.ts:252-430 | a result parses back to itself, except a registration whose referrer points are not the default |
| SchemaForms.ParseIff | indexer/src/schemas.ts:100-430 | each schema accepts a payload with a result if and only if the payload presents it: by place in a tuple, by the first of the accepted names in an object, each value in any of its spellings, within the bounds between fields |
| SchemaForms.TupleRoundTripIff | indexer/src/schemas.ts:100-340 | every result reads back from the tuple a contract emits, except a registration with points other than the defaults |
| SchemaForms.AddressIff | indexer/src/schemas.ts:69-69 | an address is G or C and 55 characters of base 32 |
| DeadLetter.DeadLetterQueue.ReprocessDeadLetterEvent | indexer/src/deadLetter.ts:192-238 | counts the attempt before the replay, resolves the row exactly if the replay did not throw, and reports the new attempt number |
| DeadLetter.DeadLetterQueue.ReprocessDeadLetterBatch | indexer/src/deadLetter.ts:250-272 | replays each listed row once, in order, and sums up |
| DeadLetter.ReplayIsFaithful | indexer/src/deadLetter.ts:157-178 | what a schema accepted before storage it accepts with an equal result on replay |
| DeadLetter.IdentityKeptIff | indexer/src/deadLetter.ts:172-177 | the rebuilt event has the stored one's transaction and index if and only if the index was absent, a finite number, or a zero bigint |
| DeadLetter.BatchStep | indexer/src/deadLetter.ts:250-272 | a batch tries each listed row exactly once, resolves it exactly if its replay succeeded, leaves the others alone, and new rows start at zero |
| DeadLetter.BatchCounts | indexer/src/deadLetter.ts:250-272 | a batch adds one row for each refused event it stored again, and its summary counts the rows it resolved |
| DeadLetter.ListingExists | indexer/src/deadLetter.ts:84-99 | every table has a listing for every limit |
| DeadLetter.ListingSize | indexer/src/deadLetter.ts:84-99 | a listing has all pending rows, up to the limit |
| DeadLetter.ListedAtIff | indexer/src/deadLetter.ts:84-99 | with distinct times, a pending row is listed if and only if fewer than `limit` pending rows are older, at the place their number says |
| DeadLetter.AttemptsAreCapped | indexer/src/deadLetter.ts:84-146 | over any arrivals and sequential batches, cut short or not, attempts grow by one per batch that got to the row and never pass the cap; resolved rows stay resolved |
| DeadLetter.SettledRowsAreLeftAlone | indexer/src/deadLetter.ts:84-99 | a resolved or capped row is tried by no later batch |
| DeadLetter.OverlapAddsUp | indexer/src/deadLetter.ts:123-133 | a row with a attempts that k overlapping batches have listed is left with a + k |
| DeadLetter.OverlapPassesTheCapIff | indexer/src/deadLetter.ts:84-133 | so it passes the cap if and only if more batches overlap on it than it had tries left |
| IndexerLock.StepKeepsInv | indexer/src/lock.ts:57-157 | every step of acquiring, heartbeat, loss, release, late execution on the server and session death keeps the invariant |
| IndexerLock.AtMostOneHolder | indexer/src/lock.ts:57-157 | in every run at most one live session has a positive lock count |
| IndexerLock.HolderIsUniqueAndExact | indexer/src/lock.ts:97-126 | a held handle on a live session is the only one; its session's count is 1 outside a heartbeat and 2 inside, plus the number of grants the run lost on that session |
| IndexerLock.ClientGivenBackOnce | indexer/src/lock.ts:82-95 | each call hands its client back at most once, and has exactly when it was refused, released or lost the lock; `onLost` fires at most once and never on a holder |
| IndexerLock.PooledClientsAreClean | indexer/src/lock.ts:134-157 | a pooled live client has as many locks as the run lost grants on it, and no live client is ever lost |
| IndexerLock.WhereClientsGo | indexer/src/lock.ts:57-157 | a live client goes back to the pool after a refusal, a failed acquisition or an ordinary release, and is destroyed after a heartbeat or a release that failed; an ordinary release leaves only lost grants on it |
| IndexerLock.HeartbeatIsNeutral | indexer/src/lock.ts:97-126 | in every run a heartbeat in which nothing fails leaves the state as it was |
| IndexerLock.ReleaseGivesBack | indexer/src/lock.ts:134-157 | in every run a release in which nothing fails gives back one lock and the client, and ends the call |
| IndexerLock.LostOnlyByFault | indexer/src/lock.ts:88-126 | a handle is lost only if a query of its heartbeat failed or its session died |
| IndexerLock.LeakedIsCounted | indexer/src/lock.ts:57-74 | the leaked locks of a live session are exactly the grants the run lost on it: acquisitions that failed after the grant, or before a late one |
| IndexerLock.LostGrantBreaksTheCount | indexer/src/lock.ts:57-74 | a run in which a holder has count 2 outside any heartbeat |
| IndexerLock.TwoHandlesReportHeld | indexer/src/lock.ts:88-126 | a run in which two handles report themselves held, one on a dead session |
| CacheAside.StepKeepsInv | backend/src/cache/cacheAside.ts:117-249 | every step of every call and run keeps the invariant |
| CacheAside.SingleFlight | backend/src/cache/cacheAside.ts:231-249 | at most one load-and-store runs per key; `inFlight` has the key exactly from its start until it settles, and names that run |
| CacheAside.CoalescedCallsAgree | backend/src/cache/cacheAside.ts:163-206 | calls on one run settle with that run's outcome, and for its key |
| CacheAside.ReturnedValuesWereProduced | backend/src/cache/cacheAside.ts:117-206 | every returned value was produced for that key by an earlier step: a loader, or another instance that stored it |
| CacheAside.HitIff | backend/src/cache/cacheAside.ts:130-176 | an answered read is a hit with a value, starting no run, if and only if the last step that touched the key stored that value; otherwise the call goes on to the loader |
| CacheAside.RunsOfferWhatTheyLoad | backend/src/cache/cacheAside.ts:163-183 | a run settles with what its loader said, and offered it to Redis if and only if it is a value other than `undefined` |
| CacheAside.AnsweredIff | backend/src/cache/cacheAside.ts:85-101 | of the settled calls exactly those Redis gave an answer are counted |
| CacheAside.AccountingIsExact | backend/src/cache/cacheAside.ts:85-101 | each settled call that Redis answered is counted once, in its own family, and no other call anywhere |
| CacheAside.FamiliesPartition | backend/src/cache/cacheAside.ts:85-206 | the four counters sum to the number of settled calls that Redis answered |
| CacheKeys.JoinOfSplit | backend/src/cache/cacheKeys.ts:40-44 | joining the segments of a key gives the key |
| CacheKeys.KeysAgreeIff | backend/src/cache/cacheKeys.ts:40-44 | two keys are the same if and only if their versions are and their parts have the same colon-separated segments |
| CacheKeys.KeysAreInjective | backend/src/cache/cacheKeys.ts:40-98 | colon-free parts are determined by the key |
| CacheKeys.ColonsCollide | backend/src/cache/cacheKeys.ts:62-78 | a colon moved from one part to the next leaves the key unchanged |
| CacheKeys.BuiltKeyNamespace | backend/src/cache/cacheKeys.ts:226-230 | a built key is counted under the first segment of its entity if that is known, else under `other`, for every version and parts |
| CacheKeys.BuiltKeyCountedUnderItsEntityIff | backend/src/cache/cacheKeys.ts:193-230 | it is counted under its own entity if and only if that is a known namespace |
| HitRate.Registry.Record | backend/src/cache/hitRate.ts:97-123 | a lookup adds one to the totals and to its namespace's bucket, and the registry stays a function of its lookups |
| HitRate.NamespacesSumToTotals | backend/src/cache/hitRate.ts:94-123 | over any lookups the namespaces' hits and misses sum to the totals |
| HitRate.RegistrySums | backend/src/cache/hitRate.ts:94-138 | in every state the buckets sum to the totals and none is outside the known namespaces |
| HitRate.RegistryCounts | backend/src/cache/hitRate.ts:94-138 | the totals are the numbers of hits and misses there were, and each bucket has those of its namespace's lookups |
| CircuitBreaker.AfterIsExact | backend/src/cache/circuitBreaker.ts:96-204 | after any calls, each field is a function of the calls: closed exactly when `openedAt` is null, closed counts the failures since the last success or reset, probe successes only while half open and below their threshold |
| CircuitBreaker.BoundsHoldIff | backend/src/cache/circuitBreaker.ts:129-196 | the documented bounds hold exactly when the thresholds are at least one |
| CircuitBreaker.TripsExactly | backend/src/cache/circuitBreaker.ts:189-195 | a closed circuit opens on exactly the failure that completes the threshold |
| CircuitBreaker.ClosesExactly | backend/src/cache/circuitBreaker.ts:160-166 | an open or half-open circuit closes on exactly a reset or the success that completes the half-open threshold |
| CircuitBreaker.PassesIff | backend/src/cache/circuitBreaker.ts:134-143 | an open circuit passes a call exactly from its opening time plus the backoff of its count |
| CircuitBreaker.AttemptIff | backend/src/cache/circuitBreaker.ts:129-149 | over any calls: a closed circuit passes everything, a half-open one while probe successes are short, an open one from its backoff on, and then becomes half open; nothing else changes |
| CircuitBreaker.ProbesNeeded | backend/src/cache/circuitBreaker.ts:157-166 | a half-open circuit closes on the configured number of successes, one by default |
| CircuitBreaker.NothingPassesBeforeBackoff | backend/src/cache/circuitBreaker.ts:58-64 | with no success or reset recorded meanwhile no call passes before the opening time plus the capped backoff |
| CircuitBreaker.BackoffBounds | backend/src/cache/circuitBreaker.ts:58-64 | the backoff is at most the cap and least after a success while open |
| CircuitBreaker.BackoffValues | backend/src/cache/circuitBreaker.ts:58-64 | the pause for each number of failures, up to the cap |
| CircuitBreaker.DefaultBackoff | backend/src/cache/circuitBreaker.ts:48-64 | with the default options the backoff is the whole cap |
| CircuitBreaker.SuccessWhileOpenCutsTheBackoff | backend/src/cache/circuitBreaker.ts:157-170 | a run in which a call passes four milliseconds after opening |
| CircuitBreaker.ProbesAreNotCounted | backend/src/cache/circuitBreaker.ts:145-148 | any number of attempts pass while half open |
| MigrationFiles.ListMigrationFiles | db/migrate.ts:12-40 | a listing is accepted, unchanged, exactly when names are well formed, numbers leave no gap, and shared numbers are legacy groups |
| MigrationFiles.WellNamedIff | db/migrate.ts:18-21 | a name is accepted if and only if it is four digits, an underscore, words between single underscores, and `.sql` |
| MigrationFiles.CountedIff | db/migrate.ts:33-38 | the distinct numbers are 1, 2, 3, ... if and only if along the sorted listing they start at 1 and rise by at most one |
| MigrationFiles.AscendingIsDistinct | db/migrate.ts:12-15 | a sorted listing has no name twice |
| Migrations.Client.ApplyMigration | db/migrate.ts:93-105 | a file is applied and recorded together or not at all, unless its text commits itself and the fault strikes between that COMMIT and the INSERT |
| Migrations.Client.Run | db/migrate.ts:151-204 | an undisturbed run succeeds exactly when no applied file has drifted, applies exactly the pending files in order, and stops at the first drifted one |
| Migrations.StepKeepsInv | db/migrate.ts:120-217 | every step of any number of runners, with crashes, failures and lost answers, in the gap of a self-committing file too, keeps the invariant |
| Migrations.CommittedDdlIsAPrefix | db/migrate.ts:93-105 | the committed files are the pending ones of a prefix of the list, in order, repeats adjacent; the rows are those from the start and the pending ones of a prefix that is the same or one file shorter |
| Migrations.AppliedFilesStayAPrefix | db/migrate.ts:151-204 | the applied non-redundant files stay a prefix of the non-redundant files |
| Migrations.RunnersExclude | db/migrate.ts:126-145 | two real runners are never inside together |
| Migrations.EnterIff | db/migrate.ts:126-145 | a real runner gets in exactly if nobody has the lock, and waits otherwise |
| Migrations.RunnerSucceeds | db/migrate.ts:120-217 | from every table an undisturbed run succeeds, settles every file, commits every pending one once and frees the lock |
| Migrations.SuccessLasts | db/migrate.ts:151-217 | after a successful real run every applied file's stored checksum is the file's own and every pending file has committed; nothing later changes that or commits more |
| Migrations.CommitsAreCounted | db/migrate.ts:93-105 | commits number the recorded pending files, plus one per tear, plus one while a runner is between a file's own COMMIT and its INSERT |
| Migrations.ExactIffNoTear | db/migrate.ts:93-105 | after any run every committed file is on record and none committed twice if and only if no crash, failed INSERT or lost answer struck in that gap and no runner is in it |
| Migrations.EveryRunIsExactIff | db/migrate.ts:93-105 | every run is so if and only if no pending file commits itself |
| Migrations.SelfCommittingFileCommitsTwice | db/migrations/0002_markets_indexes.sql:1-16 | a crash and a second runner commit this file twice |
| Migrations.TableIffEntered | db/migrate.ts:143-147 | the bookkeeping table exists after a run exactly if some runner, real or dry, got past the lock |
| Migrations.DryRunCreatesTheTable | db/migrate.ts:57-69 | a single dry run creates the table and changes no row |
| Retry.WithRetry | shared/src/retry.ts:588-659 | the loop is the run of its specification: calls, sleeps, end time and result |
| Retry.WithRetryIsOk | shared/src/retry.ts:588-659 | every run makes at most maxRetries + 1 calls, each before the deadline and after retryable failures only; each sleep is the pause that the last failure before it calls for: exactly the one asked for, the lesser of that and the cap, or one on the curve; it ends for one of the documented reasons and not earlier; with both timeouts and exact timers it settles by the deadline |
| Retry.SleepsAreCapped | shared/src/retry.ts:667-682 | no sleep of a run exceeds maxDelayMs, for every backoff and jitter, except under `strict` one that the peer asked for exactly |
| Retry.AttemptOnTime | shared/src/retry.ts:690-733 | a timed attempt that starts before the deadline ends by it |
| Retry.TimedAttempt | shared/src/retry.ts:690-733 | when a timed attempt ends as the operation does, when by its timer, and which timeout that reports |
| Retry.FullJitterRange | shared/src/retry.ts:363-365 | a full-jitter draw is in [0, ceiling) if and only if the ceiling is positive |
| Retry.EqualJitterRange | shared/src/retry.ts:373-403 | an equal-jitter draw is in [half, ceiling) if and only if the ceiling is positive |
| Retry.CeilingsGrowIff | shared/src/retry.ts:373-403 | exponential ceilings never decrease if and only if the base is not negative |
| Retry.TotalBackoffBound | shared/src/retry.ts:667-682 | the backoff of n retries is at most n * maxDelay and what the curve adds up to, for every backoff and jitter |
| Retry.CurveTotals | shared/src/retry.ts:373-389 | what each curve adds up to: base * (2^n - 1), base * n (n + 1) / 2, base * n |
| Dotenv.ParseEnvFile | shared/src/secrets.ts:226-243 | the loop reads the lines into the map of its specification, or reports the first malformed line |
| Dotenv.FindClosingQuote | shared/src/secrets.ts:267-276 | the index of the first quote that is not escaped, or -1 |
| Dotenv.EitherLineEnd | shared/src/secrets.ts:228-228 | lines end with a line feed, with or without a carriage return, in any mix |
| Dotenv.AssignmentIff | shared/src/secrets.ts:198-198 | the reader matches a line as a name and a value if and only if the pattern does, and so in one way at most |
| Dotenv.CommentIff | shared/src/secrets.ts:261-264 | an unquoted value with white space before a `#` is cut before it, as documented, if and only if that white space is a space |
| Dotenv.TabsStartNoComment | shared/src/secrets.ts:261-264 | `a #b` reads as `a`, and `a` with a tab and `#b` as it stands |
| Dotenv.ClosingQuoteIsTheTrueOne | shared/src/secrets.ts:267-276 | after an escaped value the closing quote found is the one that closes it |
| Dotenv.UnescapeEscape | shared/src/secrets.ts:278-291 | unescaping inverts escaping |
| Dotenv.UnescapeIff | shared/src/secrets.ts:278-291 | only the listed escapes are undone; any other backslash stays |
| Dotenv.UnquotePrinted | shared/src/secrets.ts:246-265 | double-quoted, single-quoted and bare values that fit their style read back as printed |
| Dotenv.ParsePrinted | shared/src/secrets.ts:200-243 | any list of bindings in any mix of styles, with or without `export`, reads back as the last-wins map less `__proto__` |
| Dotenv.RoundTripIff | shared/src/secrets.ts:226-243 | so it reads back as the last-wins map if and only if no name is `__proto__` |
| Dotenv.DoubleQuotedRoundTripIff | shared/src/secrets.ts:226-291 | in double quotes, with any values: if and only if no name is `__proto__` and no value has a line or paragraph separator |
| Der.ReadChildren | infra/cert-monitor/check-certs.py:138-144 | the loop reads the list of its specification or fails with its error |
| Der.ReadTlvIff | infra/cert-monitor/check-certs.py:117-135 | a TLV is read if and only if the buffer starts with a definite-length encoding of it, in the short or the long form |
| Der.ChildrenIff | infra/cert-monitor/check-certs.py:138-144 | a list is returned if and only if the buffer is the concatenation of encodings of exactly that list |
| Der.ChildrenRoundTrip | infra/cert-monitor/check-certs.py:117-144 | reading back encoded TLVs gives exactly the list |
| Der.ParseCert | infra/cert-monitor/check-certs.py:156-179 | succeeds exactly on certificates of the standard's shape, with their validity window and issuer |
| Der.CertFieldsFound | infra/cert-monitor/check-certs.py:156-179 | validity and issuer are found in every certificate of the standard's shape, with or without a version |
| Der.CertFieldsOnlyThere | infra/cert-monitor/check-certs.py:156-179 | and in nothing else |
| CertAlerts.DecideAlerts | infra/cert-monitor/check-certs.py:439-492 | the loop gives the alerts, the notices and the state of its specification |
| CertAlerts.CriticalCarriesAlert | infra/cert-monitor/check-certs.py:480-490 | a stored rank-3 level always has `last_alert`, so the branch without one is never taken, and it is never in the future |
| CertAlerts.RankGrowsWithAge | infra/cert-monitor/check-certs.py:301-310 | a certificate's level never improves by ageing |
| CertAlerts.LevelIff | infra/cert-monitor/check-certs.py:301-310 | each level of a valid certificate is an interval of the time it has left, bounded by 8, 15 and 31 days |
| CertAlerts.AlertsIff | infra/cert-monitor/check-certs.py:439-490 | over any history, exactly when an observation alerts, from the observation, the one before and the time of the last alert |
| CertAlerts.EntryFields | infra/cert-monitor/check-certs.py:441-449 | what is stored of the last observation |
| CertAlerts.CriticalAlertsAreSpaced | infra/cert-monitor/check-certs.py:480-490 | with certificate and error unchanged two critical alerts are at least `re_alert_hours` apart |
| CertAlerts.AgeingAlertsOnEntry | infra/cert-monitor/check-certs.py:456-487 | a certificate that only ages alerts, repeats aside, exactly when it enters a higher level |
| CertAlerts.AgeingAlertsOncePerLevel | infra/cert-monitor/check-certs.py:439-492 | so at most three such alerts, no more than the rank reached, and at least one once any level is entered |
| CertAlerts.NoticeIff | infra/cert-monitor/check-certs.py:465-479 | "condition cleared" is never reported; a renewal notice comes exactly when two successive reads differ and the level fell |
| CertAlerts.OutageEndsSilently | infra/cert-monitor/check-certs.py:471-473 | a failed check followed by a certificate in good standing sends nothing |
| CertAlerts.ReplacementAlertsIff | infra/cert-monitor/check-certs.py:465-470 | a replacement that is not fine alerts if and only if its level is no better than the old one's |
| CertAlerts.EndpointsAreIndependent | infra/cert-monitor/check-certs.py:439-492 | each endpoint's stored state is a function of its own observations, over any runs |
| Synthetic.Decide | infra/synthetic-monitor/check-synthetic.py:425-530 | the loop gives the alerts, the recoveries and the state of its specification |
| Synthetic.DecideOne | infra/synthetic-monitor/check-synthetic.py:436-529 | the branches for one observation give the entry, the reason and the recovery of its specification |
| Synthetic.MedianSplits | infra/synthetic-monitor/check-synthetic.py:478-478 | at least half of the samples are at most the baseline and at least half are at least it |
| Synthetic.StateIsHistory | infra/synthetic-monitor/check-synthetic.py:436-500 | failures and slow are the lengths of the trailing failed and slow runs, samples the last at most 20 successful latencies, p50 their median |
| Synthetic.LevelIsHistory | infra/synthetic-monitor/check-synthetic.py:464-484 | each level is a condition on the two trailing runs |
| Synthetic.SlowIff | infra/synthetic-monitor/check-synthetic.py:436-470 | an ok observation is slow if and only if it is over its limit, or after ten latencies over the floor and over the factor times the median of the last 20 |
| Synthetic.FieldsAreHistory | infra/synthetic-monitor/check-synthetic.py:436-500 | condition, signature and time of the last success, from the history |
| Synthetic.Round1Nearest | infra/synthetic-monitor/check-synthetic.py:472-478 | the stored latency is the nearest tenth, of two the even one |
| Synthetic.CriticalIff | infra/synthetic-monitor/check-synthetic.py:484-484 | critical is "the failed run reaches fail_after" exactly when fail_after is at least one or the last probe failed |
| Synthetic.AlertsIff | infra/synthetic-monitor/check-synthetic.py:502-529 | over any history, exactly when an observation alerts |
| Synthetic.AlertsAreSent | infra/synthetic-monitor/check-synthetic.py:502-529 | `last_alert` is the last alert since the level last fell; no degraded check is unannounced; critical always carries one |
| Synthetic.SteadyAlertsAreSpaced | infra/synthetic-monitor/check-synthetic.py:518-525 | while level, condition and signature stay, alerts come only at high or critical and at least `re_alert_hours` apart |
| Synthetic.ChecksAreIndependent | infra/synthetic-monitor/check-synthetic.py:1187-1194 | each check's stored state is a function of its own observations since the last full run without it, over any full and partial runs |

## Left out

- Network, Redis, PostgreSQL and HTTP clients, SDK decoding, logging, message texts and metrics output: adversarial steps or parameters.
- The bulk bet handler of `indexer/src/handlers/bet_placed.ts`: assumed to be the fold of the single one, all or nothing; the file holds unresolved merge-conflict markers.
- The other event handlers, and the reconciliation of bet payloads with topic values.
- `Indexer.indexOnce`, `startLivePolling`, `runBackfill` and `runFullReindex`: their coverage depends on what an RPC page means.
- The optional comparison of recomputed totals with the chain in `indexer/src/recomputeTotals.ts`: a read-only report after the rewrite.
- Crashes between the audit insert and the effect in `backfill.ts`, and the branch without an audit table.
- Resuming the leaderboard rebuild from its checkpoint, and its display names across permutations.
- `classifyFailure` and `getStatusCode`: a table of error names and status codes; the retry engine is proved for every classifier.
- `jitteredTtl` and key expiry times: any key may expire at any step.
- `runMigrations` outside the loop: computing checksums; directory listing and sorting are given. Whether a file commits itself is part of the file; its later statements, and several COMMITs in one file, are not told apart.
- `loadSecrets`, file indirection and the other backends of `shared/src/secrets.ts`.
- Escaped-value rules other than those the reader implements: no multi-line values, no interpolation.
- Time text in certificates, the SHA-256 fingerprint, and host verification.
- Storage limits of JSONB (NUL characters, lone surrogates), negative zero, and objects that override `toString`; conversions between numbers and text are a parameter with the laws that are used.
- The purge of old dead letters, and draining of the queue as a whole: a replay that is refused stores a new row.
- Floating-point rounding: reals and integers throughout.
- Leaderboard.InsertInBatches: states the statements, not the transaction around them.
- CacheAside.ReturnedValuesWereProduced: does not say how fresh the value is, because a key may be overwritten or kept for any time.
- CacheAside.SingleFlight: leaves out a loader that calls `getOrSet` for its own key before its first await while the circuit is open; that inner call starts a second run, because the entry in `inFlight` is made after the loader is entered.
- Ingestion.Database.PollOnce: the ROLLBACK of a failed transaction works; a failing one is in Ingestion.Database.ProcessLedgerBatchWithCheckpoint, and what the pooled client's open transaction does to later polls is not modelled.
- Ingestion.PollersExactIff: is about the atomic branch, honest answers and no recovery hook.
- DeadLetter.ReplayIsFaithful: is about the payload; the topic that routes the rebuilt event is not modelled.
- Leaderboard.SnapshotIsExact: takes `localeCompare` as the order of characters, as it is on the alphabet of Stellar addresses, A to Z and 2 to 7; other strings may compare equal although they differ.
- Schemas.PlainStaysRefused: one direction for all payloads; the exact condition is proved for resolutions. For the others it is a list of cases by field (a bigint where text is read, a number that is not finite where nothing may stand).
- Backfill.PositionSideExactIff: bets have positive net amounts, as the contract emits them; Backfill.PositionSides has no such condition.
