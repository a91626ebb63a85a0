# SmartDrop backend: coordination protocols in Dafny

The SmartDrop backend coordinates replicas through one Redis store and keeps several in-process state machines.
This project models those protocols and proves what they promise over every run.

How the models are built:

- A Redis command, Lua script or `MULTI/EXEC` is one atomic step. Replicas, workers and calls interleave freely
  between steps, answers may be late or lost, and a clock only moves forward. A run is a sequence of states joined
  by such steps; the main results hold in every state of every run.
- In-process objects that update their fields are classes. Each method is proved equal to a function on values, and
  the run theorems are about that function: what it keeps, and what it does in terms of the inputs and the history alone.
- The network, the chain, random draws and the clock are parameters of the steps.

Where the code does not meet its promise, the model keeps the code, shows a concrete run that breaks the promise and
proves the exact condition under which it holds:

- A truncated poll that cuts through a ledger loses the events it cut off, for good
  (`IndexerCursor.NoGapKeptIffNothingSplitOff`, `SplitLedgerLosesAnEvent`, `LostIsForever`).
- A stretch of `pollLimit` or more unrecognised events with no recognised one among them stops the cursor, for as long
  as fetches see all of it (`IndexerCursor.StretchBlocksTheCursor`); within one ledger it stops the cursor for ever,
  whatever fetches see (`BurstBlocksTheCursor`). `CursorMovesIff` is the exact condition for one advance.
- A claim behind the cursor is no longer counted, or no longer listed, when another poller's stale write of the same
  record lands after it, and only then (`IndexedClaims.DueClaimShowsIffNotUndone`, `LeftBehindForever`,
  `ClaimRaces.RacedClaimIsLost`, `RacedListLosesAClaim`).
- A batch saved again after a later one moves an airdrop record back exactly when both touched it, and its status when
  the earlier effect overrides the later one (`EventProjection.StaleSaveHarmlessIff`, `StaleSaveMovesStatusIff`). The
  string key that deduplicates claims stands for two pairs exactly when an id holds a colon (`HasRivalIffColon`), and a
  claims list holds each pair once exactly when no keys collide (`ClaimsListIsFirstSeenPairsIff`).
- A stop that overtakes an acquire in flight leaves a leader nobody releases (`LeaderLease.StopLeavesLeaderIffLateGrant`).
  Instances that keep time exclude each other exactly when the lease outlasts a renewal period and two cycle delays
  (`ExclusiveIffLeaseOutlasts`).
- Keyset pagination returns an id once, and returns an id that is always there, exactly when its sort value cannot
  change (`StablePagination.ReturnedOnceIffKeyFixed`, `AlwaysReturnedIffKeyFixed`).
- A retry that becomes due before its record is written is attempted twice (`DeliveryLifecycle.StepKeepsInvIff`,
  `EarlyPopDoublesTheAttempt`). A delivery whose attempter lets go of it, by dying or by an error the worker swallows, is
  stranded for good exactly when its retry was not queued yet (`StrandedIffLetGo`, `StrandedForever`).
- A status index is one short of the newest 100 after a removal exactly when more than 100 deliveries shared the status
  (`DeliveryRepository.RemovalKeepsNewestIffWithinCap`). Two overlapping updates can put one delivery in two status
  indexes (`OverlappingUpdates.CommitKeepsHonestIff`, `OverlappingUpdatesShareAnId`).
- Presenting a used refresh token leaves its family without a usable token exactly as long as no refresh that had marked
  its token before then issues the successor (`TokenFamily.ReuseHoldsIffNoneIssuesAfter`, `ReuseBetweenTheStores`). A mark
  doubles or revives what the family has in play unless the record it was read from is still stored unused
  (`MarkIsSafeIffInTime`, `TwoReadersGetTwoTokens`). With lifetimes under 60 seconds a used record can outlive its
  family's set (`TrackedAfterRotationIff`).
- A client whose address is the empty string is counted under one name and uncounted under another, so its count
  grows for ever (`PriceSubscriptions.CountsAgreeIffNoEmptyAddressLeft`, `LeakedAddressIsRefusedForever`).
- A permit released twice over-admits (`TimedSemaphore.StepKeepsInvIff`, `DoubleReleaseOverAdmits`).
- An address is refused for ever, without being listed, when its caller dies between the two writes
  (`AirdropRecipients.StoredIsListedOrPendingIffNobodyDied`, `LostIsForever`).
- A leadership checker left over from an earlier `start()` can start a running job again, and a check during an
  awaited `job.stop()` can stop it twice (`LeaderAwareJob.StepAlternatesIff`, `StaleCheckerStartsTwice`,
  `CheckDuringStopStopsTwice`).

One comment in the source disagrees with its code, and the model follows the code: the comment on truncated polls
(`src/indexer/eventPoller.js:221-228`) says the next poll picks up where this one left off, while it starts one ledger
later.

Each module stands in the file of its name; `Prelude.dfy` and `Sorting.dfy` hold shared vocabulary.
`dafny verify dfyconfig.toml` checks the whole project.

## Model

| member | source | states |
|---|---|---|
| IndexerCursor.StepKeepsInv | src/indexer/eventPoller.js:171-256 | every step of every poller keeps what the protocol relies on: no poller's read value is ahead of the cursor, and everything a poller counts as saved is stored |
| IndexerCursor.RunKeepsInv | src/indexer/eventPoller.js:171-256 | the same over every run, crashes included |
| IndexerCursor.CursorOnlyAdvances | src/indexer/eventStore.js:12-32 | the cursor never decreases, and each change was computed from exactly the value it replaces |
| IndexerCursor.CoveredOrSplitOff | src/indexer/eventPoller.js:229-233 | what an advance newly covers is in its batch, or shares the batch's last recognised ledger and was cut off |
| IndexerCursor.NoGapKeptIffNothingSplitOff | src/indexer/eventPoller.js:229-256 | a step keeps "nothing at or below the cursor is missing" if and only if it does not move the cursor over an unsaved event that its own truncated batch split off |
| IndexerCursor.NothingBelowCursorIsMissing | src/indexer/eventPoller.js:171-256 | in every interleaving without such a step, every recognised event from the start ledger to the cursor is stored |
| IndexerCursor.AlignedFetchesStayAligned | src/indexer/eventPoller.js:229-233 | an answer that split no ledger when fetched splits none later, however the chain grows |
| IndexerCursor.AlignedNodeNeverLeavesAGap | src/indexer/eventPoller.js:171-256 | the no-gap promise from a hypothesis on the node's answers alone |
| IndexerCursor.LostIsForever | src/indexer/eventPoller.js:171-174 | an unsaved event behind the cursor and in nobody's hands is never saved later |
| IndexerCursor.SplitLedgerLosesAnEvent | src/indexer/eventPoller.js:229-233 | a concrete run that loses an event: one poller, limit 1, two events in a ledger |
| IndexerCursor.CursorMovesIff | src/indexer/eventPoller.js:229-256 | an advance moves the cursor up if and only if the cursor is still the one read and the batch holds a recognised event past it, or is complete and its node has seen further |
| IndexerCursor.AdvanceSetsTheHighest | src/indexer/eventPoller.js:229-256 | an advance nobody disturbed sets the cursor to the highest of the recognised ledgers of the reply and, when the batch is complete, the ledger the node reports, else the old cursor; a lower value is refused |
| IndexerCursor.CompletePollReachesTheTip | src/indexer/eventPoller.js:229-256 | in every run, a complete poll whose node has seen the tip and reports it leaves the cursor at the tip |
| IndexerCursor.UndisturbedPollCatchesUp | src/indexer/eventPoller.js:152-258 | from any reachable state, a poller in the middle of another poll included, one undisturbed poll of such a node ends with the cursor at the tip |
| IndexerCursor.StretchStopsOneAdvance | src/indexer/eventPoller.js:229-233 | a fetch that has seen `pollLimit` unrecognised events past the cursor, over any ledgers and with no recognised one among them, computes the old cursor again |
| IndexerCursor.StretchBlocksTheCursor | src/indexer/eventPoller.js:171-256 | in every run the cursor then stands still for as long as fetches see the whole stretch |
| IndexerCursor.BurstStopsOneAdvance | src/indexer/eventPoller.js:216-233 | a poll that starts at or before a single ledger full of unrecognised events computes a cursor below that ledger, whatever its node has seen |
| IndexerCursor.BurstBlocksTheCursor | src/indexer/eventPoller.js:216-233 | in no run does any poller move the cursor to such a ledger, even over nodes that lag |
| IndexerCursor.ServeIsHonest | src/indexer/eventPoller.js:183-194 | a node that filters an ordered log by start ledger and cuts at the limit meets the hypothesis on answers |
| IndexerCursor.IndexerStore.AdvanceLastLedger | src/indexer/eventStore.js:100-116 | writes exactly when the cursor still equals the expected value and would not move back |
| IndexerCursor.IndexerStore.SaveEvents | src/indexer/eventStore.js:292-308 | the store after a batch is the fold of the recognised events over it |
| IndexerCursor.EventPoller.PollOnce | src/indexer/eventPoller.js:152-267 | outcome, cursor, store, counters and reported ledgers of one undisturbed cycle, with both guards and the retry loop: when indexed the cursor is the highest ledger as above, and the advance is refused exactly when a complete reply lies wholly below the cursor |
| IndexerCursor.PollOnceIsAPath | src/indexer/eventPoller.js:152-258 | that cycle is a path of the protocol, so the run theorems speak of it |
| IndexedClaims.RunKeepsInv | src/indexer/eventStore.js:292-308 | in every run, with reads and writes of upserts as separate steps, what a poller counts as projected is written and it works on an event only when its turn has come |
| IndexedClaims.NoKeyListedTwice | src/indexer/eventStore.js:243-260 | however pollers race, no claims list ever has two entries with one key |
| IndexedClaims.DueIsWritten | src/indexer/eventPoller.js:216-256 | over a node that splits no ledger, every recognised event up to the cursor has been projected by some poller |
| IndexedClaims.LastWriteDecides | src/indexer/eventStore.js:206-262 | a recipient counts as claimed, or a claim is listed, if and only if the last write of that record or list was that claim, or was made over a value read with it |
| IndexedClaims.DueClaimShowsIffNotUndone | src/indexer/eventStore.js:206-262 | with any number of pollers, crashes and repeats, a claim up to the cursor is counted, and listed, if and only if no other event was written over a value read without it after the last write that carried it |
| IndexedClaims.UndoingWriteReadEarlier | src/indexer/eventStore.js:213-260 | a write that undoes a claim is not that claim, and its poller read the value at a time when the claim did not show |
| IndexedClaims.ShownHasClaimed | src/indexer/eventStore.js:206-262 | whatever is counted or listed has a claim event on the chain from the start ledger on |
| IndexedClaims.UncontestedClaimsShow | src/indexer/eventStore.js:206-262 | when no upsert is overtaken between its read and its write, every claim up to the cursor is counted and listed |
| IndexedClaims.LeftBehindForever | src/indexer/eventPoller.js:171-174 | a claim that does not show after the cursor passed it, with no poller holding it, never shows again without a new claim |
| ClaimRaces.RacedClaimIsLost | src/indexer/eventStore.js:213-236 | a run over a well-behaved node that ends so: one poller reads, another counts the claim and moves the cursor, the first one writes |
| ClaimRaces.RacedListLosesAClaim | src/indexer/eventStore.js:243-260 | a run over a well-behaved node in which one poller writes back a claims list that another had extended, and that claim is off the list for good |
| IndexedClaims.CaughtUpIndexIsExact | src/indexer/eventStore.js:310-325 | once the cursor is at the tip, exactly the claims on the chain that were not undone are counted and listed |
| EventProjection.AirdropBatchMeansTheFold | src/indexer/eventStore.js:118-175 | saving a batch event by event acts on an airdrop record as one composed transformer |
| EventProjection.AirdropEffectIsIdempotent | src/indexer/eventStore.js:118-175 | every such transformer applied twice is applied once |
| EventProjection.RecipientBatchMeansTheFold | src/indexer/eventStore.js:206-237 | the same for recipient records |
| EventProjection.SavingTwiceIsSavingOnce | src/indexer/eventStore.js:292-308 | saving any batch twice, from any prior state, gives the state of saving it once |
| EventProjection.ReplayRepairsACrash | src/indexer/eventStore.js:292-308 | a save that died anywhere, each projection at its own point, is repaired by saving the batch again |
| EventProjection.SaveConcat | src/indexer/eventStore.js:303-307 | saving a log in two batches is saving it in one |
| EventProjection.StaleSaveHarmlessIff | src/indexer/eventStore.js:118-175 | saving a batch again after a later one leaves an airdrop alone if and only if not both batches touched it |
| EventProjection.StaleSaveMovesStatusIff | src/indexer/eventStore.js:146-165 | saving a batch again after any other moves the status of an airdrop if and only if its status effect overrides the other's: a creation does a later claim or expiry, a claim a later creation, an expiry anything else that sets it |
| EventProjection.RecordIsTheLastSaved | src/indexer/eventStore.js:295-301 | the raw record of an id is the last saved event with that id |
| EventProjection.ClaimedExactlyByClaimEvents | src/indexer/eventStore.js:206-237 | a recipient is claimed after a log if and only if it was before or the log holds a claim of it; a claimed one never becomes unclaimed |
| EventProjection.ClaimedCountIsDistinctClaimants | src/indexer/eventStore.js:310-325 | after any log `claimed_count` is the number of distinct recipients with a claim event, and `pending_count` is never negative |
| EventProjection.StatusReadOffTheLog | src/indexer/eventStore.js:310-325 | after any log the status exists if and only if some event touches the airdrop; `recipients_count` is then the number of distinct non-empty recipients its events name, `claimed_count` the distinct ones with a claim, `pending_count` the named ones without, and the record the one the fold leaves |
| EventProjection.AirdropKnownIff | src/indexer/eventStore.js:118-131 | an airdrop has a record if and only if the log holds an event of it that is not an incomplete creation |
| EventProjection.RecipientKnownIff | src/indexer/eventStore.js:206-214 | a recipient has a record if and only if some event names the airdrop and the recipient, both non-empty |
| EventProjection.AirdropFieldsReadOffTheLog | src/indexer/eventStore.js:118-175 | the creation, expiration and update fields of an airdrop are those of the last event that sets them |
| EventProjection.AirdropFieldsUnset | src/indexer/eventStore.js:118-175 | and are unset without one |
| EventProjection.AirdropStatusReadOffTheLog | src/indexer/eventStore.js:146-165 | the status after the last creation or expiry: expired after an expiry, else active if a claim followed and created if not |
| EventProjection.AirdropStatusWithoutSetter | src/indexer/eventStore.js:146-165 | with neither, active if there was a claim and unset if not |
| EventProjection.RecipientFieldsReadOffTheLog | src/indexer/eventStore.js:206-237 | amount, added ledger, claim stamp and update stamp of a recipient are those of the last event that carries them |
| EventProjection.RecipientStatusReadOffTheLog | src/indexer/eventStore.js:206-237 | claimed if there was a claim, else pending if the recipient was added, else unset |
| EventProjection.ClaimedCountIgnoresReplayAndOrder | src/indexer/eventStore.js:310-325 | logs with the same events, in any order and multiplicity, count the same claimants |
| EventProjection.FirstSeenPositions | src/indexer/eventStore.js:239-262 | the reference for claims lists: ascending positions, exactly those where a key first appears |
| EventProjection.ClaimsListIsFirstSeenClaims | src/indexer/eventStore.js:239-262 | each claims list is exactly the claims of its recipient whose key is new, in log order |
| EventProjection.ListedClaimFields | src/indexer/eventStore.js:239-262 | each listed claim carries the id, airdrop, recipient, amount and close time of its event, and the ledger its data names or else its own |
| EventProjection.StaleSaveKeepsClaims | src/indexer/eventStore.js:239-262 | saving known events again, in any order, leaves every claims list alone |
| EventProjection.HasRivalIffColon | src/indexer/eventStore.js:246-251 | an (event, airdrop) pair shares its key with another pair if and only if its event id or its airdrop id holds a colon |
| EventProjection.ClaimsListIsFirstSeenPairsIff | src/indexer/eventStore.js:239-262 | each claims list holds each (event, airdrop) pair of its recipient once, in first-seen order, if and only if no two of its pairs have one key |
| EventProjection.ColonFreeIdsListEveryPair | src/indexer/eventStore.js:246-251 | event ids without a colon are enough for every claims list to hold each pair once in first-seen order, whatever the airdrop ids |
| EventProjection.EventStore.UpsertAirdrop | src/indexer/eventStore.js:118-175 | the airdrop map after the upsert, with both skip conditions, and records matching the id set |
| EventProjection.EventStore.UpsertRecipient | src/indexer/eventStore.js:206-237 | the recipient map after the upsert |
| EventProjection.EventStore.AppendClaim | src/indexer/eventStore.js:239-262 | the claims lists after the search for a duplicate and the append |
| EventProjection.EventStore.SaveRaw | src/indexer/eventStore.js:295-301 | raw records and their id set after the batch |
| EventProjection.EventStore.SaveBatch | src/indexer/eventStore.js:292-308 | the whole store after a batch is the specification fold |
| LeaderLease.StepKeepsInv | src/services/leaderElection.js:36-52 | every step keeps "an instance's unexpired, unreleased grant is what the key stores, and conversely" |
| LeaderLease.RunKeepsInv | src/services/leaderElection.js:99-243 | the same over every run |
| LeaderLease.AtMostOneLiveLeader | src/services/leaderElection.js:99-216 | in every interleaving with late or lost answers, expiry and stops, at most one believer has an unexpired lease, and it is the stored holder |
| LeaderLease.LeadsAfterStep | src/services/leaderElection.js:99-216 | a step leaves an instance leading if and only if it wins an acquire in it, or led before and does not lose: a refused cycle, a renew that fails, or the end of a release |
| LeaderLease.LeadsUntilItLoses | src/services/leaderElection.js:144-184 | an instance that leads goes on leading, through any number of renewals, if and only if it does not lose |
| LeaderLease.LeadsIffWonAndNotLost | src/services/leaderElection.js:99-216 | in every run an instance leads if and only if it won at some point and has not lost since |
| LeaderLease.TimelyRenewalSucceeds | src/services/leaderElection.js:144-155 | in every on-time run with a lease that outlasts a period and two delays, a running leader's renew that reaches Redis is granted |
| LeaderLease.LeaseAfterStep | src/services/leaderElection.js:36-52 | an acquire takes the key if and only if no unexpired lease is there, a renew if and only if its own is, and a release deletes exactly its own |
| LeaderLease.LeaseStandsUntilItExpires | src/services/leaderElection.js:99-120 | a lease its holder neither renews nor releases stands until it expires, and every acquire before that is refused, even the holder's own |
| LeaderLease.RestartRunsAtOnce | src/services/leaderElection.js:223-293 | an instance that does not lead and has nothing in flight runs as soon as it is started again |
| LeaderLease.BelieverIsLive | src/services/leaderElection.js:144-184 | a believer that keeps its timing still holds its lease |
| LeaderLease.ExclusiveIffLeaseOutlasts | src/services/leaderElection.js:223-275 | running instances that keep time never both believe they lead if and only if the lease outlasts a period and two delays |
| LeaderLease.TimelyLeadersAreExclusive | src/services/leaderElection.js:223-275 | with such a lease, in every on-time run, a running believer is the stored holder; an instance started again runs as soon as what its old life left in flight has settled |
| LeaderLease.LateRenewalOverlaps | src/services/leaderElection.js:223-275 | for every shorter lease, an on-time run that ends with two running believers |
| LeaderLease.OverlapOnlyWhileStopping | src/services/leaderElection.js:189-216 | two believers overlap only while one is stopped or restarting, and only while its release is on the way, or it was granted its lease while stopped, or that release took its new lease |
| LeaderLease.PausedLeaderOverlaps | src/services/leaderElection.js:144-184 | for every configuration, a run with two believers when one pauses past its lease |
| LeaderLease.StopLeavesLeaderIffLateGrant | src/services/leaderElection.js:189-216 | a stopped instance with nothing in flight still believes it leads if and only if an acquire in flight at the stop was granted |
| LeaderLease.StopRaceHappens | src/services/leaderElection.js:281-293 | for every configuration, such a run |
| LeaderLease.OldLeaseOrSuccessor | src/services/leaderElection.js:36-52 | while a holder is silent the key holds its old lease, nothing, or somebody else's |
| LeaderLease.AttemptAfterExpiryTakesOver | src/services/leaderElection.js:99-120 | an acquire at or after the expiry leaves the key with another live holder |
| LeaderLease.FailoverWithinTtlPlusPeriod | src/services/leaderElection.js:223-275 | if the holder stops renewing, a follower cycling every period has the key in other hands within TTL plus period of the last grant |
| LeaderLease.LeaderElection.BeginCycle | src/services/leaderElection.js:223-243 | one cycle at a time, a renew exactly when leading |
| LeaderLease.LeaderElection.CycleAnswered | src/services/leaderElection.js:99-184 | a granted acquire leads from now; a granted renew keeps the flag and the acquisition time and notes now as renewed; a refusal or a failed renew steps down; a failed acquire changes nothing |
| LeaderLease.LeaderElection.ReleaseSettled | src/services/leaderElection.js:189-216 | after a release, answered or failed, the instance no longer leads |
| StablePagination.PageIsAHead | src/utils/stablePagination.js:60-88 | a page is the first `limit` rows the cursor selects, says whether more exist and points at its last row |
| StablePagination.CursorSelectsTheRest | src/utils/stablePagination.js:42-58 | the cursor of row n selects exactly the rows after it |
| StablePagination.MalformedCursorStartsOver | src/utils/stablePagination.js:48-58 | a cursor that does not decode selects what no cursor does |
| StablePagination.NoRowTwice | src/utils/stablePagination.js:42-88 | while rows come and go between fetches, the walk returns rows in order and none twice |
| StablePagination.WalkOrder | src/utils/stablePagination.js:42-58 | whatever a walk returns later has a greater sort value ascending, a smaller one descending, or the same and an id further on |
| StablePagination.DueRowIsKept | src/utils/stablePagination.js:42-88 | a row a cursor selects is in the page or selected by the next cursor |
| StablePagination.PermanentRowsAreReturned | src/utils/stablePagination.js:42-88 | every row present throughout a finished walk is returned |
| StablePagination.NoIdTwice | src/utils/stablePagination.js:42-88 | with unchanging sort values no id is returned twice, even if deleted and inserted again |
| StablePagination.ReturnedOnceIffKeyFixed | src/utils/stablePagination.js:42-88 | for every direction and limit, no walk over changing tables returns an id twice if and only if the id has one possible sort value |
| StablePagination.AlwaysReturnedIffKeyFixed | src/utils/stablePagination.js:42-88 | every finished walk returns an id that is in the table at each fetch if and only if the id has one possible sort value |
| StablePagination.MovedRowIsReturnedTwice | src/utils/stablePagination.js:42-88 | for any two sort values of an id, a walk that returns it at both |
| StablePagination.MovedRowIsMissed | src/utils/stablePagination.js:42-88 | for any two sort values of an id, a finished walk that never returns it though it is always there |
| StablePagination.SortIsUnique | src/utils/stablePagination.js:46-46 | the order by sort value and id determines the listing |
| StablePagination.FixedTableIsReturnedInOrder | src/utils/stablePagination.js:42-88 | on a fixed table the pages concatenate to the sorted table, in the stated number of pages |
| StablePagination.FixedTableWalkEnds | src/utils/stablePagination.js:42-88 | on a fixed table a walk is never longer than the stated number of pages, and has no next cursor if and only if it is that long |
| StablePagination.PagesForIsCeiling | src/utils/stablePagination.js:77-88 | that number is max(1, ceil(n / limit)) |
| StablePagination.ZeroLimitReturnsNothing | src/utils/stablePagination.js:60-88 | a limit of 0 fetches everything, returns nothing and has no cursor |
| DeliveryRepository.SortAllSorts | src/repositories/deliveryRepository.js:106-110 | the reference listing is sorted and a permutation of what was created |
| DeliveryRepository.TrimBeforeInsert | src/repositories/deliveryRepository.js:106-110 | trimming before an insert changes nothing after the next trim |
| DeliveryRepository.WriteIsTrimmedSort | src/repositories/deliveryRepository.js:106-110 | one incremental index write is re-sorting everything and trimming |
| DeliveryRepository.IndexIsNewestOfAll | src/repositories/deliveryRepository.js:120-169 | after any creates and updates a webhook's index is the newest `cap` of all deliveries ever created for it |
| DeliveryRepository.ListingIsSortAllThenTake | src/repositories/deliveryRepository.js:226-253 | a listing of up to 100 equals sorting all and taking the newest |
| DeliveryRepository.ListingIsNewestFirst | src/repositories/deliveryRepository.js:226-253 | a listing has min(take, created) entries, all created for the webhook, in strictly falling order of time and id, and everything left out is older than everything listed |
| DeliveryRepository.StatusListingIsNewestFirst | src/repositories/deliveryRepository.js:226-253 | a listing by status is the newest of its index in the same order, and each entry points at a record with that status, webhook and time |
| DeliveryRepository.ListedRecords | src/repositories/deliveryRepository.js:226-253 | the records returned are those of these entries, in that order, each as its own history left it |
| DeliveryRepository.RecordReadOffTheHistory | src/repositories/deliveryRepository.js:120-209 | a record has the webhook and time of its create and the status and attempts of the last update that set them |
| DeliveryRepository.RecordAfter | src/repositories/deliveryRepository.js:120-209 | a create or update writes the record of its own delivery, field by field, and no other |
| DeliveryRepository.HydratesEach | src/repositories/deliveryRepository.js:243-253 | with all records present a listing returns one record per entry, in order |
| DeliveryRepository.HydrateSkips | src/repositories/deliveryRepository.js:243-253 | an entry whose record is gone is passed over and the others keep their order |
| DeliveryRepository.StatusIndexAfter | src/repositories/deliveryRepository.js:180-209 | a status index changes exactly when the written delivery enters or leaves that status, and how |
| DeliveryRepository.StepKeepsStatusInv | src/repositories/deliveryRepository.js:180-209 | every write keeps every status index sorted, capped and pointing at records with that status and webhook |
| DeliveryRepository.StatusIndexesAreHonest | src/repositories/deliveryRepository.js:120-209 | over every history, and no id is in two status indexes |
| DeliveryRepository.StatusListingIsComplete | src/repositories/deliveryRepository.js:180-253 | a status that never holds more than the cap is listed in full |
| DeliveryRepository.RemovalKeepsNewestIffWithinCap | src/repositories/deliveryRepository.js:194-204 | moving a delivery out leaves the newest `cap` of the rest if and only if no more than the cap shared the status |
| DeliveryRepository.PopsAreDisjoint | src/repositories/deliveryRepository.js:62-68 | pops take the due part oldest first, all of it unless the limit is hit, and two pops never share an id |
| DeliveryRepository.ZAddReplaces | src/repositories/deliveryRepository.js:255-258 | scheduling leaves one queue entry for the delivery, at its new time, and every other entry and the order as they were |
| DeliveryRepository.Repository.CreateDelivery | src/repositories/deliveryRepository.js:120-169 | record and both indexes after a create; an unknown webhook changes nothing |
| DeliveryRepository.Repository.UpdateDelivery | src/repositories/deliveryRepository.js:180-209 | record and status indexes after an update that nothing interleaves with; a missing record changes nothing |
| DeliveryRepository.Repository.CommitUpdate | src/repositories/deliveryRepository.js:183-208 | record and status indexes after the transaction alone, from whatever record was read |
| OverlappingUpdates.CommitKeepsHonestIff | src/repositories/deliveryRepository.js:180-209 | the transaction of an update keeps every status index honest if and only if the status stored by then is the one it read or writes, or its index no longer lists the delivery |
| OverlappingUpdates.StepKeepsInvIff | src/repositories/deliveryRepository.js:180-209 | however reads and writes of updates overlap, a step keeps the indexes honest if and only if it strands no delivery that way |
| OverlappingUpdates.RunKeepsInv | src/repositories/deliveryRepository.js:120-209 | over every run without such a step, indexed ids have that status and webhook and the cap holds |
| OverlappingUpdates.NoIdInTwoIndexes | src/repositories/deliveryRepository.js:120-209 | and no id is in two status indexes |
| OverlappingUpdates.OverlappingUpdatesShareAnId | src/repositories/deliveryRepository.js:180-209 | for every cap, a run in which two updates that read the same record leave the id in two indexes |
| DeliveryRepository.Repository.ListByWebhook | src/repositories/deliveryRepository.js:226-253 | the stored records behind the last `take` entries of the index in reverse order; an entry without a record is passed over |
| DeliveryRepository.Repository.PopDueRetries | src/repositories/deliveryRepository.js:260-264 | the ids taken and the queue left are the two parts of the atomic pop |
| DeliveryLifecycle.PopKeepsIdInvIff | src/jobs/webhookRetryWorker.js:22-55 | popping a delivery keeps it in one place if and only if no attempter still has to write its record |
| DeliveryLifecycle.StepKeepsInvIff | src/services/webhookDispatcher.js:501-527 | a step keeps every delivery in one place if and only if no retry is claimed before its record was written and no attempter lets go of a delivery |
| DeliveryLifecycle.RunKeepsInv | src/services/webhookDispatcher.js:385-579 | the same over every run in which updates land first and nobody lets go |
| DeliveryLifecycle.GiveUpStrandsIff | src/jobs/webhookRetryWorker.js:35-41 | an attempter that lets go of a delivery strands it, pending in neither place, if and only if its retry was not queued yet |
| DeliveryLifecycle.StrandedIffLetGo | src/jobs/webhookRetryWorker.js:35-41 | over every run whose updates land first, a delivery is stranded if and only if some attempter let go of it so |
| DeliveryLifecycle.StrandedForever | src/jobs/webhookRetryWorker.js:22-55 | a stranded delivery stays pending for ever, in every run |
| DeliveryLifecycle.EachDeliveryInOnePlace | src/services/webhookDispatcher.js:385-579 | a delivery is pending exactly when queued or claimed, claimed by at most one, terminal ones in neither place, and posted at most max(1, maxAttempts) times |
| DeliveryLifecycle.BackoffIsWaitedOut | src/services/webhookDispatcher.js:501-527 | over every timely run, until a retry's delay is over the delivery stays queued as scheduled and nobody pops or posts it |
| DeliveryLifecycle.AttemptBeginsIff | src/services/webhookDispatcher.js:385-393 | an attempt goes ahead, from the stored attempt count, unless the delivery has succeeded |
| DeliveryLifecycle.AttemptOutcomeIff | src/services/webhookDispatcher.js:464-577 | a posted delivery is rescheduled if and only if attempts are left and the answer is a network error, a 5xx, a 408 or a 429; else it ends, as a success for a 2xx and a failure otherwise |
| DeliveryLifecycle.OutcomeIff | src/services/webhookDispatcher.js:385-579 | over every timely run a delivery has succeeded if and only if some attempt was concluded on a 2xx, and failed if and only if its webhook was found gone or an attempt was concluded on another answer |
| DeliveryLifecycle.StepsLowerRank | src/services/webhookDispatcher.js:444-577 | every step on a delivery lowers a measure and steps on others leave it alone |
| DeliveryLifecycle.DeliveryIsSoonConcluded | src/services/webhookDispatcher.js:444-577 | a delivery sees at most 6·max(1, maxAttempts) + 4 steps, whatever the others do |
| DeliveryLifecycle.PendingIsNeverStuck | src/jobs/webhookRetryWorker.js:22-55 | in a state where every delivery is in one place, a pending delivery whose retry is due always has a next step |
| DeliveryLifecycle.EarlyPopDoublesTheAttempt | src/services/webhookDispatcher.js:507-526 | a run in which a retry due before its record is written is held by two workers with the same attempt number |
| WebhookBackoff.BackoffRange | src/services/webhookDispatcher.js:290-298 | a delay can be drawn if and only if it lies in [d/2, d) for the deterministic delay d |
| WebhookBackoff.DelaysGrowIffFactorTwo | src/services/webhookDispatcher.js:290-298 | for factor at least 1, every delay after attempt n is below every delay after n+1 if and only if the factor is at least 2 |
| WebhookBackoff.TotalBackoffIsBounded | src/services/webhookDispatcher.js:290-298 | n retries wait less than base·(factor^n − 1)/(factor − 1) in total |
| WebhookBackoff.TotalBackoffIsAtLeastHalf | src/services/webhookDispatcher.js:290-298 | and at least half of that |
| CircuitBreaker.StepKeepsInv | src/utils/circuitBreaker.js:196-365 | every step of overlapping calls keeps the window, probe, cool-down and streak invariants |
| CircuitBreaker.RunKeepsInv | src/utils/circuitBreaker.js:196-365 | the same over every run |
| CircuitBreaker.LazyWindowIsTheWindow | src/utils/circuitBreaker.js:153-164 | after pruning, a closed breaker lists exactly the failures since the last success or state change inside the window of the full history and counts them; an open or half-open one reports none |
| CircuitBreaker.OpensExactlyAtThreshold | src/utils/circuitBreaker.js:305-326 | a closed breaker opens if and only if a failure brings that window to the threshold |
| CircuitBreaker.ProbesAreCounted | src/utils/circuitBreaker.js:213-262 | the half-open counter is the number of running probes, at most `trialCount`, and its clamp is never needed |
| CircuitBreaker.NoCallDuringCooldown | src/utils/circuitBreaker.js:332-340 | no call starts before the last opening plus the timeout, short of a manual reset |
| CircuitBreaker.AdmittedIff | src/utils/circuitBreaker.js:196-232 | in every run a call is admitted if and only if the breaker is closed, or fewer than `trialCount` probes run and it is half-open or its last opening is `timeoutMs` ago |
| CircuitBreaker.InspectedOpenIff | src/utils/circuitBreaker.js:172-175 | in every run an open breaker that is inspected is half-open if and only if its last opening is `timeoutMs` ago, and open if and only if not |
| CircuitBreaker.ModeChangesIff | src/utils/circuitBreaker.js:290-340 | over every run: an open breaker half-opens exactly on an inspection or call after that time, a half-open one reopens exactly on a failed call, a reset closes, and nothing takes a closed one to half-open or, short of a reset, an open one to closed |
| CircuitBreaker.ClosesExactlyAfterSuccesses | src/utils/circuitBreaker.js:290-303 | half-open closes if and only if `successThreshold` successes came with no failure since it began |
| CircuitBreaker.Circuit.PruneFailures | src/utils/circuitBreaker.js:153-159 | the filtered list and the count |
| CircuitBreaker.Circuit.Transition | src/utils/circuitBreaker.js:342-354 | the whole state after a transition |
| CircuitBreaker.Circuit.GetState | src/utils/circuitBreaker.js:172-175 | an open breaker is half-open from `openedAt + timeoutMs` on and open before; any other mode stays |
| CircuitBreaker.Circuit.BeginCall | src/utils/circuitBreaker.js:196-232 | a call is admitted if and only if the breaker is closed, or trials are left and it is half-open or its cool-down is over; a probe is counted, a refusal is not |
| CircuitBreaker.Circuit.Success | src/utils/circuitBreaker.js:290-303 | the state after a success in each mode |
| CircuitBreaker.Circuit.Failure | src/utils/circuitBreaker.js:305-326 | the state after a failure in each mode |
| CircuitBreaker.Circuit.EndCall | src/utils/circuitBreaker.js:243-262 | the state after a call settles and its probe is given back |
| LockOrder.SortIdsSorts | src/database/transaction.js:54-62 | the ids come out ordered, as a permutation |
| LockOrder.LockPlanAscends | src/database/transaction.js:77-88 | rows are locked in strictly ascending order and exactly the requested ones |
| LockOrder.LocksExclude | src/database/transaction.js:77-139 | in every run, sorted or not, a transaction owns exactly the rows it has taken until it ends, so no two have taken the same row |
| LockOrder.WaitsClimb | src/database/transaction.js:77-139 | a waiter's row is below the row its blocker waits for |
| LockOrder.NoWaitCycle | src/database/transaction.js:48-62 | no reachable state has a cycle of waits, of any length |
| LockOrder.SomeoneCanProceed | src/database/transaction.js:48-62 | whenever a transaction is unfinished, some transaction is not blocked |
| LockOrder.UnsortedOrderDeadlocks | src/database/transaction.js:48-62 | without sorting, a run in which two transactions wait for each other |
| LockOrder.WithTransaction | src/database/transaction.js:222-267 | at most `maxRetries + 1` attempts, retried only after deadlocks, the last outcome returned, a deadlock if and only if all of them were, and then after every attempt |
| TokenFamily.StepKeepsInv | src/auth/tokenRefresh.js:93-125 | for every lifetime, a step keeps at most one unused token or pending successor per family, the token listed in a family set that outlives it, if its mark comes in time |
| TokenFamily.RunKeepsInv | src/auth/tokenRefresh.js:287-342 | the same over every run of one-step refreshes and of ones split into read, mark and issue whose marks come in time |
| TokenFamily.OneUnusedTokenPerFamily | src/auth/tokenRefresh.js:287-327 | for every lifetime, no family ever has two unused live tokens or pending successors, and its set lists the unused token and outlives it |
| TokenFamily.PresentOutcome | src/auth/tokenRefresh.js:287-327 | what a presented token leads to: nothing for an unknown one, a revocation for a used one, deletion past its expiry, else a mark for 60 s and a fresh unused successor |
| TokenFamily.StoresInFull | src/auth/tokenRefresh.js:93-125 | the token records after a login, a mark, an issue and a sign-out, with every field |
| TokenFamily.FiledAfterStep | src/auth/tokenRefresh.js:93-203 | which tokens a family's set lists after each step: a store adds its own, a set that lapsed starts from nothing, a revocation leaves none |
| TokenFamily.RevocationSparesOthers | src/auth/tokenRefresh.js:174-203 | revoking a family leaves every token of the other families as it was |
| TokenFamily.NothingInPlayStays | src/auth/tokenRefresh.js:287-327 | for every lifetime, a family with no usable token and no pending successor never has a usable token again |
| TokenFamily.ReuseHoldsIffNoneIssuesAfter | src/auth/tokenRefresh.js:300-324 | for every lifetime, after a reuse the family stays without a usable token up to any later point if and only if no refresh that had marked its token before the reuse issues the successor by then |
| TokenFamily.ReuseBetweenTheStores | src/auth/tokenRefresh.js:316-324 | for every lifetime, a run whose marks all come in time in which a reuse is detected between the two stores of a refresh and a usable successor follows |
| TokenFamily.ReuseLeavesNothingUsable | src/auth/tokenRefresh.js:300-308 | for every lifetime, a reuse presented while no refresh of the family is between its two stores leaves it without a usable token for good |
| TokenFamily.RunKeepsTracked | src/auth/tokenRefresh.js:93-125 | with lifetimes of at least 60 s, every live record, used or not, is listed in a set that outlives it |
| TokenFamily.RevokedIsDeadIffListed | src/auth/tokenRefresh.js:174-203 | revoking a family leaves no record of it if and only if its set lists all its live tokens |
| TokenFamily.ReuseKillsTheFamilyIff | src/auth/tokenRefresh.js:300-308 | with lifetimes of at least 60 s, a reuse leaves no record of the family, used or not, and there is none up to any later point if and only if no refresh marked before it issues its successor by then |
| TokenFamily.DeadStaysDeadIffNoneIssues | src/auth/tokenRefresh.js:174-203 | for every lifetime, a family without any live record has none up to any later point if and only if no pending successor of it is issued by then |
| TokenFamily.TrackedAfterRotationIff | src/auth/tokenRefresh.js:316-324 | the used token stays revocable for its whole grace period if and only if the new lifetime is at least 60 s |
| TokenFamily.ShortLifetimeKeepsTheRecord | src/auth/tokenRefresh.js:300-324 | for every shorter lifetime, a time at which a reuse is reported and leaves the used record in place |
| TokenFamily.MarkIsSafeIffInTime | src/auth/tokenRefresh.js:293-318 | a mark neither doubles what the family has in play nor revives a family that had nothing if and only if the record it was read from is still stored, live and unused |
| TokenFamily.TwoReadersGetTwoTokens | src/auth/tokenRefresh.js:287-327 | for every lifetime, a run in which two refreshes read before either marks and leave two usable tokens |
| TokenFamily.TokenStore.Store | src/auth/tokenRefresh.js:93-125 | record and family set after a store, with both lifetimes |
| TokenFamily.TokenStore.Create | src/auth/tokenRefresh.js:216-277 | the store after a new pair |
| TokenFamily.TokenStore.RevokeAll | src/auth/tokenRefresh.js:174-203 | the store after the loop over a family's hashes |
| TokenFamily.TokenStore.RefreshTokens | src/auth/tokenRefresh.js:287-327 | reply and store for an unknown, reused, expired or good token |
| PriceSubscriptions.StepIsConsistent | src/ws/PriceSubscriptionManager.js:61-178 | every operation keeps the reverse index equal to the clients' own sets, without empty entries, and both global caps |
| PriceSubscriptions.RunIsConsistent | src/ws/PriceSubscriptionManager.js:61-178 | the same over every run |
| PriceSubscriptions.AcceptedInOrder | src/ws/PriceSubscriptionManager.js:145-156 | a subscription adds the requested assets in order until the client holds the cap, and drops the rest |
| PriceSubscriptions.MessageEffect | src/ws/PriceSubscriptionManager.js:142-174 | what each message does to its own client, and that it does nothing to the others |
| PriceSubscriptions.LetInIff | src/ws/PriceSubscriptionManager.js:61-89 | in every run a connection is accepted if and only if the manager is not draining and neither cap is reached by the count, which for an ordinary address is its sockets; it starts with no assets and no missed pings |
| PriceSubscriptions.BroadcastReachesExactlyTheWatchers | src/ws/PriceSubscriptionManager.js:180-223 | in every run a broadcast reaches a socket if and only if it is connected, watches the asset and is open, and an index entry exists only with a watcher |
| PriceSubscriptions.HeartbeatDropsExactlyTheSilent | src/ws/PriceSubscriptionManager.js:226-247 | a heartbeat drops exactly the timed-out clients and charges the others one missed ping |
| PriceSubscriptions.DrainingForever | src/ws/PriceSubscriptionManager.js:261-278 | a draining manager stays draining and never gains a client |
| PriceSubscriptions.DrainEmptiesForGood | src/ws/PriceSubscriptionManager.js:261-328 | once the deadline has fired no client or index entry remains and nobody can join |
| PriceSubscriptions.RunCounts | src/ws/PriceSubscriptionManager.js:112-131 | in every run the empty address is over-counted by exactly its departures, "unknown" never over-counted and every other address counted exactly |
| PriceSubscriptions.CountsAgreeIffNoEmptyAddressLeft | src/ws/PriceSubscriptionManager.js:112-131 | all per-address counts equal the sockets if and only if no socket with an empty address has departed |
| PriceSubscriptions.OrdinaryAddressIsCounted | src/ws/PriceSubscriptionManager.js:61-79 | any other address is always counted exactly and within its cap |
| PriceSubscriptions.LeakedAddressIsRefusedForever | src/ws/PriceSubscriptionManager.js:67-75 | after as many departures as the cap, an empty address is refused for the rest of the run |
| PriceSubscriptions.EmptyAddressLeaks | src/ws/PriceSubscriptionManager.js:112-124 | a run that ends with nobody connected and the empty address refused |
| PriceSubscriptions.SubscriptionManager.Add | src/ws/PriceSubscriptionManager.js:61-89 | acceptance and state after a connection, with all three refusals |
| PriceSubscriptions.SubscriptionManager.AddToAssetIndex | src/ws/PriceSubscriptionManager.js:101-110 | the index with the socket entered under each asset |
| PriceSubscriptions.SubscriptionManager.RemoveFromAssetIndex | src/ws/PriceSubscriptionManager.js:91-99 | the index without the socket, emptied entries dropped |
| PriceSubscriptions.SubscriptionManager.Remove | src/ws/PriceSubscriptionManager.js:112-131 | the state after a departure |
| PriceSubscriptions.SubscriptionManager.HandleSubscribe | src/ws/PriceSubscriptionManager.js:145-159 | the state after a capped subscription |
| PriceSubscriptions.SubscriptionManager.HandleUnsubscribe | src/ws/PriceSubscriptionManager.js:166-171 | the state after an unsubscription, also of assets not held |
| PriceSubscriptions.SubscriptionManager.HeartbeatTick | src/ws/PriceSubscriptionManager.js:226-247 | collects exactly the timed-out clients, charges the others one missed ping and leaves the state of the heartbeat step |
| PriceSubscriptions.SubscriptionManager.Broadcast | src/ws/PriceSubscriptionManager.js:180-223 | while index and clients agree, sends to a socket if and only if it is connected, watches the asset and is open |
| PriceSubscriptions.SubscriptionManager.DrainDeadline | src/ws/PriceSubscriptionManager.js:309-317 | the state after dropping the frozen list |
| TimedSemaphore.StepKeepsInvIff | src/utils/semaphore.js:32-71 | a step keeps permits and order if and only if it does not release a permit a second time |
| TimedSemaphore.RunKeepsInv | src/utils/semaphore.js:32-71 | active permits are the granted and unreleased ones, at most the maximum; a waiter exists only when none is free; calls not rejected are served in order of arrival |
| TimedSemaphore.EachCallAnsweredOnce | src/utils/semaphore.js:32-71 | every call is waiting, granted once or rejected once |
| TimedSemaphore.AcquireAnswerIff | src/utils/semaphore.js:32-62 | in every run a call is granted at once if and only if fewer than the maximum hold a permit, rejected at once if and only if none is free and it will not wait, else queued last, with a timer if and only if it named a positive time |
| TimedSemaphore.ReleaseServesTheFirst | src/utils/semaphore.js:64-70 | a release hands the permit to the longest waiter, if any, and frees it otherwise |
| TimedSemaphore.NobodyOvertakes | src/utils/semaphore.js:64-70 | when a call is granted, every earlier arrival was rejected or granted before it |
| TimedSemaphore.SpliceKeeps | src/utils/semaphore.js:50-51 | cutting a timed-out waiter out leaves the others in order |
| TimedSemaphore.DoubleReleaseOverAdmits | src/utils/semaphore.js:64-70 | a run in which one permit released twice lets two calls hold one permit |
| TimedSemaphore.Semaphore.AcquirePermit | src/utils/semaphore.js:32-62 | granted exactly when a permit is free, rejected exactly when none is and there is no wait, else queued last, with a timer for a timed wait |
| TimedSemaphore.Semaphore.ReleasePermit | src/utils/semaphore.js:64-70 | the permit goes to the head of the queue, whose timer is cleared, or is freed |
| TimedSemaphore.Semaphore.TimerFired | src/utils/semaphore.js:49-57 | the waiter leaves the queue |
| AirdropRecipients.NewIffFirst | src/services/airdrops.js:284-292 | an entry is reported new if and only if its address is neither stored nor earlier in the batch |
| AirdropRecipients.WinsAreTheNewAddresses | src/services/airdrops.js:294-303 | the addresses a call wins, each once, are exactly those it adds to the set |
| AirdropRecipients.WonAndDuplicatesAreAll | src/services/airdrops.js:294-303 | a caller's duplicates are exactly the entries it did not win |
| AirdropRecipients.RepliesSplitTheBatch | src/services/airdrops.js:294-303 | the won entries and the duplicates each keep the order of the batch, and entry i is in the one or the other at the place its predecessors leave it |
| AirdropRecipients.CallIsToldItsDuplicates | src/services/airdrops.js:271-310 | in every run a call holds and is told exactly this split of what it asked for, and nothing else changes |
| AirdropRecipients.ListOnlyGrows | src/services/airdrops.js:305-307 | in every run the list only grows at its end, by what one call had pending |
| AirdropRecipients.CreatedConservesIffDistinct | src/services/airdrops.js:107-112 | creation puts every address once in both places if and only if the recipients are distinct |
| AirdropRecipients.StepConserves | src/services/airdrops.js:271-310 | every transaction, append or death keeps each stored address in exactly one place, once |
| AirdropRecipients.RunConserves | src/services/airdrops.js:271-310 | the same over every interleaving |
| AirdropRecipients.NoAddressListedTwice | src/services/airdrops.js:271-310 | no address is ever listed twice |
| AirdropRecipients.StoredIsListedOrPendingIffNobodyDied | src/services/airdrops.js:271-310 | the address set is the disjoint union of listed and pending if and only if no caller died holding something it had won |
| AirdropRecipients.LostIsForever | src/services/airdrops.js:284-307 | an address lost that way is never listed and every later call is told it is a duplicate |
| AirdropRecipients.RecipientStore.AddBatch | src/services/airdrops.js:284-292 | set and replies after the transaction |
| AirdropRecipients.RecipientStore.AddRecipients | src/services/airdrops.js:271-310 | set, list and returned duplicates of an undisturbed call |
| LeaderAwareJob.StepKeepsInv | src/jobs/leaderAwareJob.js:51-100 | every step, stale checkers included, keeps "the job runs exactly when marked started" |
| LeaderAwareJob.RunKeepsInv | src/jobs/leaderAwareJob.js:51-177 | the same over every run |
| LeaderAwareJob.StoppedStaysStopped | src/jobs/leaderAwareJob.js:155-177 | from the end of `stop()` to the next `start()` the job is not running and no checker calls it |
| LeaderAwareJob.StepAlternatesIff | src/jobs/leaderAwareJob.js:51-77 | starts and stops keep alternating if and only if the re-acquired branch is not taken and no check sees leadership gone during an awaited `job.stop()` |
| LeaderAwareJob.RemembersLossIff | src/jobs/leaderAwareJob.js:51-87 | in every run a loss is remembered if and only if a checker stopped the job for it and neither `start()` nor a second start of the running job came since |
| LeaderAwareJob.RunFollowsLeadership | src/jobs/leaderAwareJob.js:86-100 | when only the current checker fires, calls alternate, the job runs if and only if leadership was last observed as held, and the re-acquired branch is unreachable |
| LeaderAwareJob.StaleCheckerStartsTwice | src/jobs/leaderAwareJob.js:51-64 | a run in which an old checker starts the running job again |
| LeaderAwareJob.CheckDuringStopStopsTwice | src/jobs/leaderAwareJob.js:69-76 | a run in which a check during an awaited `job.stop()` stops the job a second time |
| LeaderAwareJob.JobWrapper.OnLeadershipAcquired | src/jobs/leaderAwareJob.js:51-64 | flags and job calls after leadership is acquired |
| LeaderAwareJob.JobWrapper.OnLeadershipLost | src/jobs/leaderAwareJob.js:69-76 | flags and job calls after leadership is lost |
| LeaderAwareJob.JobWrapper.CheckLeader | src/jobs/leaderAwareJob.js:92-100 | the state after one observation by any checker |
| LeaderAwareJob.JobWrapper.RenewLoopStopped | src/jobs/leaderAwareJob.js:168-177 | the state when `stop()` goes on after the renewal loop ended |
| PriceMedian.SortPricesSorts | src/services/priceOracle.js:67-67 | the sorted prices are ordered and a permutation |
| PriceMedian.MedianIsTheMiddle | src/services/priceOracle.js:65-73 | the median is the middle one of the ordered prices, or the mean of the middle two |
| PriceMedian.MedianIgnoresOrder | src/services/priceOracle.js:65-73 | the median does not depend on the order of the sources |
| PriceMedian.MajorityBoundsTheMedian | src/services/priceOracle.js:65-73 | whenever more than half of the prices lie in an interval so does the median, for odd and even counts |
| PriceMedian.HalfIsNotEnough | src/services/priceOracle.js:65-73 | with exactly half the median can leave the interval |
| PriceMedian.NoMedianIffNoPrice | src/services/priceOracle.js:66-66 | there is no median if and only if no source answered |

## Left out

- IndexerCursor.EventPoller.PollOnce: leaves out the lag alert, the failure backoff, the retry delays and the stop flag inside the retry loop, which change no stored state.
- EventProjection: its results are about a sequential log. `IndexedClaims` has the read and the write of an upsert apart for recipient records and claims lists; for airdrop records they are one step.
- Legacy migration of recipient lists to hashes, and expiry of delivery records and indexes, are taken not to happen.
- LeaderLease: the Redis side, the timers and the stop are steps on values; the class covers the closure's flags only, so the awaiting calls themselves are not methods.
- DeliveryLifecycle: `attempt` and the worker's `tick` are steps on values, not methods, because other workers act between their writes. `cancelRetry` and a record that has expired are left out; each record update is one step there.
- DeliveryRepository.StepKeepsStatusInv: takes an update as one step; `OverlappingUpdates` has its read and its transaction apart.
- DeliveryRepository.StatusIndexesAreHonest: takes updates as one step, as above.
- DeliveryRepository.Repository.UpdateDelivery: is an update nothing interleaves with; `CommitUpdate` is its transaction alone.
- WebhookBackoff: delays are real numbers without rounding. Per-webhook overrides of base and factor are arguments; `attempt` itself never passes them (`src/services/webhookDispatcher.js:507`).
- Webhook dispatch: filters, headers, encryption, the delivery metrics, the dead-letter list and the dispatcher's own concurrency limit.
- LockOrder: row locks are exclusive and taken by one call per transaction over ids of one type; shared modes, `skipLocked`, `noWait` and mixed-type ids are left out. The retry delays of `withTransaction` are too.
- LockOrder.WithTransaction: nested transactions and the argument checks are left out.
- TokenFamily: Redis is taken to be up, so the in-memory fallback is left out. The three commands inside one store, and the commands inside one revocation, are one step. Signing and hashing are abstract.
- StablePagination: cursor encoding is an abstract round trip; a cursor that does not decode selects everything, as in the code.
- PriceSubscriptions: message parsing, replies to the client, price-change thresholds and the address header are left out; the address is the string the header yields. The order of assets inside a set does not matter and is not kept.
- PriceMedian: floating-point rounding and prices that are not numbers.
- AirdropRecipients: `remove`, the airdrop record and amounts, which the two structures do not depend on.
- LeaderAwareJob: a second `start()` without a `stop()`, a `start()` while a `stop()` is awaited, and stopping the election's own loop from outside the wrapper.
- Circuit breaker registry, per-call timeouts, error classification and logging.
- HTTP routing, authentication middleware, caching of prices and the other price-oracle steps.
