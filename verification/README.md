# Verified model of the second-hand market

A Dafny model of the parts of the market that can go wrong quietly: state machines spread over a
database, a disk and browser memory, and a few exact algorithms. For each part there is a model that
follows the code branch by branch, and lemmas about every run of it.

Run `dafny verify dfyconfig.toml` in this directory.

## What is modelled

**Product images** (`ProductImages`, `ProductImagesSafety`, `ProductImagesRecovery`,
`ProductImagesTracking`, `ProductImagesConversion`, `ProductImagesOutcomes`, `ProductImagesDelay`,
`ProductImagesCleanup`, `ProductImagesUploads`, `BackfillCommand`). Uploads, product deletes and the
resumable backfill act on file records, objects on disk and backfill items. No step touches database and
disk together, so every database write and every file operation is a step of its own, all actors
interleave, and each may stop for good between two steps. `ProductImagesOutcomes` and
`ProductImagesCleanup` say what becomes of an item when the accesses of the command succeed,
`ProductImagesDelay` when an old object may go, `ProductImagesUploads` what one request of the server does.
`BackfillCommand` is the command as an imperative program; each of its accesses is one step of the machine,
with the other actors running in between and the access free to fail.

**Files of a deleted product** (`ProductFiles`). Which file records a product delete takes along.

**Inventory and orders** (`Inventory`, `InventoryEffects`, `InventoryInvariants`, `InventoryLedger`,
`InventoryTransactions`, `InventorySerializability`, `InventoryService`). Seven operations on products
and orders, once as whole operations, once as transactions that lock, read, decide, write and commit
in separate steps, once as methods over tables.

**Idempotency** (`Idempotency`, `IdempotencyProgress`, `IdempotencyService`). The claim row around those
transactions.

**Token refresh** (`TokenRefresh`, `TokenRefreshSafety`, `TokenRefreshProgress`). The mini-program's
single-flight refresh; one step is the code between two awaits.

**SQL splitter** (`SqlSplitter`, `SqlSplitterProofs`, `SqlScripts`). Two hand-written index loops, one
recursive lexer, and scripts with DELIMITER lines and comments put together from their parts.

**Histories and favourites** (`BuyerHistory`, `BuyerHistoryEffects`, `BuyerHistoryProofs`,
`BuyerHistoryInterleaved`, `BuyerHistoryTimes`). Views, deletes and the merge of a guest device into a
buyer: as whole requests, and with the unlocked reads of views and merges as steps apart from their writes.

**Buyer intents** (`BuyerIntents`, `BuyerIntentsEffects`, `BuyerIntentsProofs`, `BuyerIntentService`,
`BuyerIntentMigration`). Requests beside the MySQL migration of the uniqueness index: statement by
statement with any number of migrations at once, and one migration as an imperative program.

**Small algorithms** (`RateLimiter`, `QueryKeys`, `QueryKeysProofs`, `QueryClient`, `Passwords`,
`PasswordsProofs`, `RepeatedBlock`). `Sequences`, `Strings`, `Wrappers` and `MapSums` are shared helpers.

## Assumptions

- A digest stands for the content it was computed from: SHA-256 is taken to be injective.
- Object keys handed out by presign, row ids and registration identities are never handed out twice.
- A database write that reports an error was not applied, and a transaction commits or rolls back as
  a whole. A file operation that reports an error left the object as it was, except where the code
  itself writes in two steps (exclusive create, then write); removing what such a write left may fail.
- A lock on a row that does not exist yet is modelled for the ids of new rows; unique keys make a
  second writer of the same key wait, as InnoDB does.
- The clock of the rate limiter does not go backwards between two calls of one bucket. In the code it
  is read before the mutex is taken.
- `Math.floor(0x100000000 / size)` is integer division: for sizes up to 2^32 rounding the double
  quotient cannot carry it over the next integer.
- Runs of product images start when the detail profile is deployed: only product images stored before
  it, each accepted one with its object. Runs of the intent migration start from the formal legacy
  schema with consistent rows. Tables of products, orders and histories start empty, or in any state
  that satisfies the invariant where a lemma says so.
- Outcomes of code that is not modelled (image checks, titles, prices, buyer intents of a product,
  whether a product references a file) are inputs that may take any value.

## Where a promise does not hold as stated

- A refresh token can be posted twice. A step posts the stored token exactly when it runs `refreshFor` for
  the stored pair with every flight settled and the last one no successful refresh of that pair
  (`TokenRefreshSafety.PostsIff`); no token is posted twice if and only if the token of each such step is
  posted for the first time (`PostedOnceIff`). It is not when a login brings an old pair back
  (`ReissuedTokenIsPostedTwice`, `PostedAgainIff`), nor when the server answers a refresh with a new access
  token and the same refresh token (`KeptTokenIsPostedTwice`).
- Merging two devices does not commute when they name different merchants for one product; the exact
  condition is in `BuyerHistoryProofs.MergesCommuteIffShopsAgree` and
  `BuyerHistoryProofs.FavoriteMergesCommuteIffShopsAgree`.
- Views and merges read without a lock, so views can be counted twice: by a merge inside a view
  (`BuyerHistoryInterleaved.MergeInsideAView`), by two merges of one device into two buyers
  (`MergeInsideAMerge`), by a stale view of a row that was deleted and viewed anew
  (`RestartInsideAView`). A write adds no more than it may exactly when the counts it read are still in
  the rows (`ViewAddsOneIffHonest`, `MergeAddsNoneIffHonest`). That every step of a run adds no more than it
  may is equivalent to all its writes being so; for the counts shown at the end it is sufficient.
- The same reads break what is said of times. Two views that overlap move the last view back
  (`BuyerHistoryTimes.OverlappingViewsMoveBack`), and a stale view of a row that was deleted and viewed anew
  leaves more views than its time allows (`StaleViewLosesPace`), both without counting a view twice. The
  span of a row is kept exactly by the writes of `SpansKeptIffHonest`, the bound exactly in the runs of
  `CountsAreBoundedIffHonest`. A run whose writes find the rows as they read them is a run of whole requests
  (`CurrentRunsAreSequential`), so every sequential result holds for it.
- `[undefined]` and `[]` are different keys with the same text (`QueryKeysProofs.UndefinedVanishes`).
- Closing an intent can fail before the migration: `BuyerIntentsProofs.CloseFailsIffLegacyIndexClashes`
  says exactly when, and `BuyerIntentsProofs.SecondCloseFails` reaches such a state.
- A crash between publishing and staging leaves an image that is never converted:
  `ProductImagesTracking.UnstagedOutputIsNeverAdopted`. So does an access that fails there and leaves the
  object, such as a failed write whose removal fails too (`AbandonedOutputIsNeverAdopted`). An image whose
  target key is taken can still be converted exactly when an item of it knows the object there, or the
  command is just about to record it (`ProductImagesConversion.ConvertibleIffKnown`).

## Model

| member | source | states |
|---|---|---|
| `ProductImagesSafety.AcceptedImagesAreServed` | backend/scripts/backfill_product_images/main.go:477-522 | In every state of every interleaving of uploads, product deletes, backfill, cleanup and crashes, a record with scan status PASS has an object at its current key: its original bytes, or at the target key a validated output of them. |
| `ProductImagesSafety.CommittedMeansMoved` | backend/scripts/backfill_product_images/main.go:644-682 | An item is COMMITTED only if its record is accepted at the target key or deleted. |
| `ProductImagesSafety.RunInv` | backend/scripts/backfill_product_images/main.go:598-682 | The joint invariant of records, objects, items, uploads in flight, deletes in flight and the running command is kept by every step of every actor. |
| `ProductImagesRecovery.CommittedIsFinal` | backend/scripts/backfill_product_images/main.go:684-694 | Once COMMITTED, an item stays COMMITTED whatever follows. |
| `ProductImagesRecovery.RecoveryLeavesNothingInFlight` | backend/scripts/backfill_product_images/main.go:581-627 | From any crash state, recovery that lost no database write leaves no item of the run PROCESSING or STAGED, and crashing and starting it again changes nothing. |
| `ProductImagesOutcomes.RecoveryDecides` | backend/scripts/backfill_product_images/main.go:598-627 | In every reachable state, if no access fails: a PROCESSING item whose target object is missing or differs from the recorded digest is PENDING at the next candidate; one whose target object has the digest is stored as STAGED on the way, and then as a staged item is COMMITTED with its record moved, or FAILED because the record is gone or elsewhere; an object without a recorded digest means FAILED. Nothing else is written. |
| `ProductImagesOutcomes.RecoveryInspectsWhatIsInFlight` | backend/scripts/backfill_product_images/main.go:581-596 | A started command is about to inspect exactly the items of its run that are PROCESSING or STAGED. |
| `ProductImagesOutcomes.CandidatesAreConverted` | backend/scripts/backfill_product_images/main.go:343-381 | In every reachable state, if no access fails and the record is not deleted meanwhile, a candidate ends COMMITTED with both digests, its record at the target key as a JPEG of the output's size and the output as object there, if processing gives one and the key was free; FAILED with the record where it was, if not. |
| `ProductImagesOutcomes.CandidatesAreLegacyImages` | backend/scripts/backfill_product_images/main.go:448-464 | The candidates are exactly the accepted product images at a legacy key among the ids asked for. |
| `ProductImagesOutcomes.CandidatesAreTaken` | backend/scripts/backfill_product_images/main.go:306-341 | Exactly when a candidate is passed over, recovered or converted, and when an unfinished item of another run stops the command. |
| `ProductImagesOutcomes.TheLoopIsReached` | backend/scripts/backfill_product_images/main.go:306-381 | From every reachable point of the command at most 14 successful accesses lead to the next candidate. |
| `ProductImagesOutcomes.FailuresOfRecovery` | backend/scripts/backfill_product_images/main.go:598-627 | What each failing access of recovery and of a commit leads to: an unreadable digest marks the item FAILED, a failed PENDING or STAGED update ends the command, a lost FAILED mark is ignored, a failed commit marks the item in recovery only. |
| `ProductImagesOutcomes.FailuresOfConversion` | backend/scripts/backfill_product_images/main.go:343-381 | The same for conversion: before the item is PROCESSING nothing is marked, a failure of processing or publishing marks it, after publishing the item stays as it is. |
| `ProductImagesTracking.CrashOrphansTheOutput` | backend/scripts/backfill_product_images/main.go:483-512 | In every reachable state between publishing and staging, a crash leaves the output, or the part written so far, under the target key of a record that is at its legacy key, with no item that knows its digest. |
| `ProductImagesTracking.UnstagedOutputIsNeverAdopted` | backend/scripts/backfill_product_images/main.go:483-512 | After any run that crashes between publishing and staging, and in every continuation, the record stays at its legacy key and no item of it is ever COMMITTED while the record exists. |
| `ProductImagesTracking.AbandonedOutputIsNeverAdopted` | backend/scripts/backfill_product_images/main.go:483-513 | The same after any access that fails there and leaves the object: a write whose removal fails as well, the digest of the source, the update that stages the item. |
| `ProductImagesConversion.ConvertibleIffKnown` | backend/scripts/backfill_product_images/main.go:598-682 | In every reachable state, a record at its legacy key whose target key is taken can still be converted in some continuation if and only if an item of it has the digest of that object or the command has just published it and not yet staged the item. |
| `ProductImagesRecovery.CleanedMeansGone` | backend/scripts/backfill_product_images/main.go:770-881 | An item whose cleanup is recorded as done has no source object on disk, in every later state. |
| `ProductImagesDelay.CleanupWaitsADay` | backend/scripts/backfill_product_images/main.go:770-799 | Over every run, a step of cleanup removes the old object of an item, or changes the item, only if an earlier step committed it at a time at least 24 * 60 * 60 before the one at which this cleanup began. |
| `ProductImagesDelay.CleanupSelectsTheDue` | backend/scripts/backfill_product_images/main.go:770-781 | A cleanup works on exactly the items of its run that are COMMITTED, not cleaned, and whose time has come when it begins. |
| `ProductImagesCleanup.CommittedImagesAreIntact` | backend/scripts/backfill_product_images/main.go:644-682 | In every reachable state, the target object of a COMMITTED item whose record exists has the recorded digest, and so has what is left of the old object. |
| `ProductImagesCleanup.DueImagesAreCleaned` | backend/scripts/backfill_product_images/main.go:801-851 | In every reachable state, an item that cleanup has just read ends cleaned, with the old object gone and record and target object as they were, if no access fails and the record is not deleted meanwhile. |
| `ProductImagesCleanup.ReferencedFilesAreKept` | backend/scripts/backfill_product_images/main.go:808-819 | Of a deleted record nothing is removed while a product references the file; the item is recorded as not cleaned. |
| `ProductImagesCleanup.FailuresOfCleanup` | backend/scripts/backfill_product_images/main.go:782-851 | Which failing access of cleanup ends the command, and which leaves the objects and records the item as not cleaned. |
| `BackfillCommands.BackfillCommand.RecoverApplyItem` | backend/scripts/backfill_product_images/main.go:598-627 | Ends the command exactly when a PENDING or STAGED update failed, and keeps the lost mark of a failed FAILED update; writes no other item. If none of its accesses failed, what it saw at the target key decides: PENDING and an empty summary when the object is missing or differs, FAILED and failed 1 when the item has no digest for it, and otherwise COMMITTED and committed 1 with the record moved, or FAILED because the record is gone or elsewhere. |
| `BackfillCommands.BackfillCommand.RecoverApplyItems` | backend/scripts/backfill_product_images/main.go:581-596 | If none of its status updates fails, it ends well and leaves nothing of the run PROCESSING or STAGED; it ends with an error only after a failed update; the summary counts exactly the recovered items that are COMMITTED now. |
| `BackfillCommands.BackfillCommand.CommitStagedItem` | backend/scripts/backfill_product_images/main.go:629-682 | Commits the record and the item in one step or changes no item. If no access failed, a record at its legacy key is moved and its item COMMITTED unless it was deleted meanwhile; one at the target key must describe the staged output, which must be there; an item without a record is refused. |
| `BackfillCommands.BackfillCommand.ApplyCandidate` | backend/scripts/backfill_product_images/main.go:477-522 | Publish, stage and commit one output, failing at any access; success means the item is COMMITTED, and no other item is written. |
| `BackfillCommands.BackfillCommand.RunApply` | backend/scripts/backfill_product_images/main.go:294-381 | Whether it succeeds or stops with an error, accepted images are still served and committed items moved or deleted; the committed and the pending-cleanup count are both the number of items of the run that became COMMITTED. |
| `BackfillCommands.BackfillCommand.CleanupCommittedItem` | backend/scripts/backfill_product_images/main.go:801-851 | Done means: the old object is gone and no record is at its key; an existing record is at the target, whose object has the recorded digest, and the removed object had its own; of a record deleted before, the target object is gone too. Otherwise the old object of an existing record is as it was. Target objects of existing records and all other images are untouched. |
| `BackfillCommands.BackfillCommand.RunCleanup` | backend/scripts/backfill_product_images/main.go:770-799 | The summary counts every COMMITTED, not yet cleaned item of the run with cleanup_after at or before the time the command read: those now recorded as cleaned, and the others. Every other item of the run is unchanged, and so is its old object while its record exists; accepted images are still served. |
| `BackfillCommands.BackfillCommand.PublishObject` | backend/internal/media/local_storage.go:51-125 | While the record exists: success means that the key was free and holds the whole output, failure that the key is as it was, or was free and, because the removal failed too, holds an object no item knows. The source and all other images are untouched. |
| `ProductImagesRecovery.AcceptedUploadHoldsItsContent` | backend/internal/app/file_handlers.go:205-239 | In any reachable state, the record update that ends an upload leaves the record accepted at a key that holds the uploaded content, unless the record was deleted meanwhile. |
| `ProductImagesUploads.UploadsAreAcceptedIff` | backend/internal/app/file_handlers.go:176-239 | An uninterrupted upload succeeds exactly for non-empty content and a free key, by either way of publishing; then the record is accepted under the key it may publish to, with its size and URL, and the object is the content. Otherwise nothing changes. |
| `ProductImagesUploads.RefusedUploadsChangeNothing` | backend/internal/app/file_handlers.go:177-186 | A missing record, or a product image at a legacy key, refuses the upload. |
| `ProductImagesUploads.FailedUploadsLeaveNothing` | backend/internal/app/file_handlers.go:220-237 | An upload whose record update or write fails leaves neither object nor change. |
| `ProductImagesUploads.DeletesDropTheirImages` | backend/internal/app/product_handlers.go:529-575 | A delete drops exactly the product images among its files and goes on to remove exactly their objects. |
| `InventorySerializability.InterleavingsAreSerial` | backend/internal/app/ownership.go:41-63 | With lock, read, decide, write and commit as separate steps, every interleaving ends in the database that the committed operations produce one after the other in commit order. |
| `InventorySerializability.CommittedStatesKeepPromises` | backend/internal/app/inventory_service.go:82-309 | Every committed state keeps, for each product: 0 <= reserved <= stock; LOCKED, an active order id and exactly one active order coincide, that order being CREATED with the reserved quantity; ON_SHELF means stock beyond the reserved; SOLD means none; deleted means no orders. |
| `InventorySerializability.CommittedStockIsItsHistory` | backend/internal/app/inventory_service.go:112-127 | At every committed point stock equals created stock plus direct edits plus INCREASE minus DECREASE minus MARK_SOLD minus the quantities of completed orders. |
| `InventoryInvariants.ExecKeeps` | backend/internal/app/product_handlers.go:85-180 | Each of the seven operations keeps the product, order, movement and event invariants; the events of an order are CREATE and at most one COMPLETE or CLOSE and agree with its status. |
| `InventoryInvariants.PromiseHolds` | backend/internal/model/models.go:197 | One active order per product follows from the invariant alone, without a unique index. |
| `InventoryInvariants.StatusMovesAsAllowed` | backend/internal/stateflow/stateflow.go:5-24 | An operation moves a product along the transition table and the moves of orders and adjustments only; sold-out products come back only by an INCREASE, locked ones only by the end of their order, deleted ones never change. |
| `InventoryLedger.StockIsItsHistory` | backend/internal/app/inventory_service.go:192-229 | The ledger equation over any sequence of operations from an empty database. |
| `InventoryLedger.AllRemainingSellsOut` | backend/internal/app/inventory_service.go:50-71 | all_remaining records the whole stock as sold, leaves 0 and the status SOLD. |
| `InventoryEffects.AdjustEffect` | backend/internal/app/inventory_service.go:25-80 | An accepted INCREASE adds the quantity asked for, DECREASE and MARK_SOLD take it away, or the whole stock for all_remaining; the movement records that quantity; the status after is stated for each kind; every other field and row is as it was. |
| `InventoryEffects.AdjustAcceptedIff` | backend/internal/app/inventory_service.go:25-80 | An adjustment is accepted if and only if quantity, kind, status, active order, stock and reserved allow it, each condition written out, and the error otherwise is stated. |
| `InventoryEffects.PlaceEffect` | backend/internal/app/inventory_service.go:251-309 | An order of one piece is placed if and only if the product is the merchant's, on the shelf and has stock beyond the reserved; the error otherwise, and the whole database afterwards, row by row. |
| `InventoryEffects.MoveEffect` | backend/internal/app/inventory_service.go:158-249 | An order ends if and only if it is the active CREATED order of its locked product; then the order, the product it releases (stock, reserved and status, for each target status), the event, and every other row. |
| `InventoryEffects.MoveRepeated` | backend/internal/app/inventory_service.go:158-190 | A repeated transition changes nothing and answers what is stored. |
| `InventoryEffects.CreatedOrdersCanEnd` | backend/internal/app/inventory_service.go:158-249 | In every reachable database the merchant can complete or close each CREATED order. |
| `InventoryEffects.UpdateEffect` | backend/internal/app/product_handlers.go:85-180 | When an update is accepted, with which error it is refused, and that it sets the stock asked for and nothing else that is modelled. |
| `InventoryEffects.ShelfEffect` | backend/internal/app/product_handlers.go:595-645 | When a product goes on or off the shelf, the error otherwise, and the row it leaves. |
| `InventoryEffects.DeleteEffect` | backend/internal/app/product_handlers.go:445-475 | A product is deleted if and only if it is a draft or off the shelf and no order was ever placed for it. |
| `InventoryService.Tables.Adjust` | backend/internal/app/inventory_service.go:82-156 | Load, change the copy, save, append the movement: exactly the specified operation, whose effect `InventoryEffects.AdjustEffect` states row by row, and no change on error; the invariant of the tables is kept. |
| `InventoryService.Tables.PlaceOrderFor` | backend/internal/app/inventory_service.go:251-309 | Exactly the specified order creation: the locked product, the new order and its CREATE event, or an error and no change; the invariant of the tables is kept. |
| `InventoryService.Tables.Transition` | backend/internal/app/inventory_service.go:158-249 | Exactly the specified order transition, including the repeated request that only reads; the invariant of the tables is kept. |
| `InventoryService.Tables.Update` | backend/internal/app/product_handlers.go:85-180 | Exactly the specified update under the editable fields of the status; the invariant of the tables is kept. |
| `InventoryService.Tables.ChangeStatus` | backend/internal/app/product_handlers.go:595-645 | Exactly the specified shelf change with its readiness check; the invariant of the tables is kept. |
| `InventoryService.Tables.Delete` | backend/internal/app/product_handlers.go:445-475 | Exactly the specified soft delete with its status and order checks; the invariant of the tables is kept. |
| `Idempotency.ExactlyOnce` | backend/internal/app/idempotency.go:27-93 | For any interleaving of keyed requests with retries, duplicates and rollbacks, the database is that of the successful requests with only the first success of each (key, operator, path) kept. |
| `Idempotency.ReplaysReturnTheFirstResponse` | backend/internal/app/idempotency.go:114-131 | Each replay with the same payload returns the response of the one completed request of its scope, another payload is refused, and a claim conflict never ends in an internal error. |
| `Idempotency.FailuresLeaveNoClaim` | backend/internal/model/models.go:389-391 | Claims are exactly those of completed requests, each with a response. |
| `Idempotency.NoDeadlock` | backend/internal/app/ownership.go:41-63 | While transactions are open one of them can take its next step: claims are locked before orders and orders before products. |
| `IdempotencyProgress.OutcomesAreTruthful` | backend/internal/app/idempotency.go:27-131 | Whenever a request ends, in any interleaving, its response or error is what its operation gives on the database at that moment, and the database becomes what the operation makes of it. |
| `IdempotencyProgress.FreeRequestsAreAnswered` | backend/internal/app/idempotency.go:27-131 | A request whose rows nobody holds is answered by its own steps, whatever else is open, with the outcome and the store of the wrapper run alone. |
| `IdempotencyService.Service.RunWithIdempotency` | backend/internal/app/idempotency.go:27-93 | The wrapper run alone: response, claim and rows as specified, and nothing changed when the operation or storing its response fails. |
| `IdempotencyService.RetriesTakeEffectOnce` | backend/internal/app/idempotency.go:80-92 | In any list of retries the tries before the first success change nothing and those after it repeat its response. |
| `IdempotencyService.ClaimedScopes` | backend/internal/app/idempotency.go:114-131 | A scope that has a response answers it to the same payload and refuses any other, and nothing changes. |
| `IdempotencyService.UnclaimedScopes` | backend/internal/app/idempotency.go:27-93 | A scope without one runs the operation: its response is stored and answered, its error is answered and leaves no claim. |
| `TokenRefreshSafety.SingleFlight` | miniapp/src/services/request.ts:173-199 | Over all interleavings at most one refresh is unresolved. |
| `TokenRefreshSafety.PostsIff` | miniapp/src/services/request.ts:173-199 | In every safe state a step posts the stored refresh token exactly when it runs refreshFor for the stored pair, every flight is settled and the last is not a successful refresh of that pair; other steps post nothing. |
| `TokenRefreshSafety.PostedOnceIff` | miniapp/src/services/request.ts:128-199 | Over any run no refresh token is posted twice if and only if at each posting step the stored token was not posted before. |
| `TokenRefreshSafety.EachTokenIsPostedOnce` | miniapp/src/services/request.ts:128-199 | If no login and no refresh brings a refresh token twice, no refresh token is posted twice. |
| `TokenRefreshSafety.ReissuedTokenIsPostedTwice` | miniapp/src/services/request.ts:176-180 | Without that condition a concrete run with a login posts a token twice. |
| `TokenRefreshSafety.KeptTokenIsPostedTwice` | miniapp/src/services/request.ts:128-199 | So does a run with no login, in which a refresh hands out the same refresh token again. |
| `TokenRefreshSafety.ReturningSessionPostsIff` | miniapp/src/services/request.ts:173-199 | With every flight settled, a pair that comes back by a login and is answered 401 posts its refresh token exactly when the last flight is not a successful refresh of that pair. |
| `TokenRefreshSafety.PostedAgainIff` | miniapp/src/services/request.ts:173-199 | The token of a pair that returns by a login is posted a second time exactly when it was posted before and the last flight is not a successful refresh of the pair. |
| `TokenRefreshSafety.OnlyOwnersChangeTheStore` | miniapp/src/stores/session.ts:56-71 | Every change of the store is a login, a logout, the rotation or failure of the flight that owns the stored pair, or an expired request that owns it. |
| `TokenRefreshSafety.RequestsAreReplayedOnce` | miniapp/src/services/request.ts:244-261 | A request is sent at most twice, the second time under the pair its own refresh produced, and every outcome it waits for carries its own pair; that it is sent again is `TokenRefreshProgress.RefusedRequestsAreReplayed`. |
| `TokenRefreshSafety.ReplayUsesTheStoredSession` | miniapp/src/services/request.ts:250-259 | At the moment of the second send the pair it uses is the stored one. |
| `TokenRefreshSafety.WaitsForLaterFlights` | miniapp/src/services/request.ts:183-185 | Waiting again means waiting for a later flight, so the recursion is well-founded. |
| `TokenRefreshSafety.WaitsAreBounded` | miniapp/src/services/request.ts:183-185 | A request waits at most once for each flight, with no assumption on the tokens. |
| `TokenRefreshSafety.WaitsAreFewerThanSessions` | miniapp/src/services/request.ts:183-185 | If refresh tokens are never reissued, a request waits at most as often as sessions were handed out. |
| `TokenRefreshProgress.RefreshedIff` | miniapp/src/services/request.ts:152-171 | A flight that stored its pair returns that pair if and only if it is still the stored one. |
| `TokenRefreshProgress.ReplayedIff` | miniapp/src/services/request.ts:246-261 | A request that waited is sent a second time, under the new pair, if and only if the refresh of its own session succeeded and the new pair is still stored; otherwise it ends and the store stays. |
| `TokenRefreshProgress.RefusedRequestsAreReplayed` | miniapp/src/services/request.ts:128-261 | From every safe state with every flight settled, a 401 under the stored pair that no refresh has renewed, a well-formed answer, recheck, settle and resume, with any steps in between that leave the store alone, end with the request sent twice and under the new pair. |
| `TokenRefreshProgress.JoinedRequestsAreReplayed` | miniapp/src/services/request.ts:173-199 | The same for a request refused while the refresh that another request started is running. |
| `TokenRefreshProgress.LateRefusalsAreReplayed` | miniapp/src/services/request.ts:173-199 | A late 401 under the old pair, after its refresh succeeded, is replayed with the new pair at once. |
| `TokenRefreshProgress.RefreshAnswers` | miniapp/src/services/request.ts:134-158 | The answer to a refresh is stored, or ends the session, exactly while the session that asked is stored. |
| `TokenRefreshProgress.FailedRefreshEndsRequests` | miniapp/src/services/request.ts:134-171 | A refresh that fails ends the session and every request that waits for it. |
| `TokenRefreshProgress.RefusedRequestsWait` | miniapp/src/services/request.ts:173-199 | For which flight a request waits after its first 401, in each state of the last flight, and when it starts one. |
| `SqlSplitter.SplitSQLStatements` | backend/internal/databasecmd/sql.go:9-113 | The index loop returns what the recursive lexer returns, on every input; what that is, is stated without it in `SqlScripts.ScriptsAreSplit`, `SqlSplitterProofs.SplitSucceedsIff` and `SqlSplitterProofs.StatementsKeepTheText`. |
| `SqlSplitter.SplitMigrationSQL` | backend/migrations/0004_merchant_multi_stock_test.go:228-310 | The second splitter returns what the lexer without directives returns, on every input. |
| `SqlSplitterProofs.SplittersAgree` | backend/migrations/0004_merchant_multi_stock_test.go:228-310 | Same statements or same failure on every source with no line-start DELIMITER in normal lexer state. |
| `SqlSplitterProofs.DirectivesDivide` | backend/internal/databasecmd/sql.go:63-78 | With a directive the two can differ: one reports an empty script, the other a statement DELIMITER. |
| `SqlSplitterProofs.SplitUndoesJoin` | backend/internal/databasecmd/sql.go:79-83 | Closed, trimmed, comment-free statements without separator or directive, joined by ";\n" and split, come back as the same list. |
| `SqlSplitterProofs.StatementsKeepTheText` | backend/internal/databasecmd/sql.go:85-112 | For directive-free sources every statement is trimmed, closed and free of comments and separators, and together they hold the literals and other non-blank characters unchanged and in order. |
| `SqlSplitterProofs.ResplittingChangesNothing` | backend/internal/databasecmd/sql.go:19-112 | Splitting the joined output is the identity when no output has a line-start DELIMITER outside literals. |
| `SqlSplitterProofs.SplitSucceedsIff` | backend/internal/databasecmd/sql.go:105-112 | Without directives, splitting fails exactly if a literal or block comment is not closed, or if there is nothing but comments, separators and blank space, with the error of each. |
| `SqlSplitterProofs.LiteralsAreKeptWhole` | backend/internal/databasecmd/sql.go:45-61 | A literal in any of the three quotes, with any characters, doubled quotes and, except in back quotes, escaped characters in it, is one statement, unchanged. |
| `SqlScripts.ScriptsAreSplit` | backend/internal/databasecmd/sql.go:19-112 | Every script put together from statements under the delimiter in force, DELIMITER lines, line and block comments and pending texts is split into the statements it means, or refused as it means. |
| `SqlScripts.ProceduresAreKeptWhole` | backend/internal/databasecmd/sql.go:63-83 | Procedures full of semicolons under DELIMITER //, then DELIMITER ; and plain statements, come back as the two lists one after the other. |
| `SqlScripts.DirectivesAreRefusedIff` | backend/internal/databasecmd/sql.go:63-78 | A script of such parts is refused for a directive if and only if text is pending before one or one names a delimiter other than ; and //. |
| `SqlScripts.NextDirective` | backend/internal/databasecmd/sql.go:63-78 | Which of the two errors the next directive gives, or that it takes effect. |
| `BuyerHistoryProofs.NoViewIsCountedTwice` | backend/internal/app/buyer_handlers.go:838-890 | Over any run of views, deletes and merges the shown counts of a product add up to at most its views that were not deduplicated. |
| `BuyerHistoryProofs.CountsAreBoundedByTime` | backend/internal/app/buyer_handlers.go:863-879 | In runs of requests one at a time, for a row put together from k rows since its last reset, 30 s times (count - k) is at most k times (last - first), for arbitrary client times. |
| `BuyerHistoryProofs.ActiveSpansOnlyGrow` | backend/internal/app/buyer_handlers.go:602-615 | In runs of requests one at a time, while a row stays active its last view never moves back and its first view never forward. |
| `BuyerHistoryProofs.SecondMergeChangesNothing` | backend/internal/app/buyer_handlers.go:546-625 | A second merge of a device changes neither table, into the same buyer or another. |
| `BuyerHistoryProofs.MergedFavoritesStayMerged` | backend/internal/app/buyer_handlers.go:764-770 | A merged favourite keeps its merge target through any adds, drops and merges, so it is merged once. |
| `BuyerHistoryProofs.MergedHistoriesWaitForAView` | backend/internal/app/buyer_handlers.go:868-879 | A merged history row stays as it is, whatever is deleted and merged, until it is viewed again. |
| `BuyerHistoryProofs.DeletedHistoriesStayHidden` | backend/internal/app/buyer_handlers.go:984-988 | After a delete the rows of the shop stay inactive until viewed again or a merge revives them. |
| `BuyerHistoryProofs.MergesCommuteIffShopsAgree` | backend/internal/app/buyer_handlers.go:577-625 | Merging two devices into one buyer commutes on histories exactly when they agree on the merchant of each product both bring. |
| `BuyerHistoryProofs.FavoriteMergesCommuteIffShopsAgree` | backend/internal/app/buyer_handlers.go:546-576 | The same for favourites, except where the buyer already has an active one. |
| `BuyerHistoryInterleaved.WholeRequests` | backend/internal/app/buyer_handlers.go:577-625 | A view or merge whose read and write are not interrupted is the view or merge of the sequential model. |
| `BuyerHistoryInterleaved.ViewAddsOneIffHonest` | backend/internal/app/buyer_handlers.go:838-890 | A view computed from a row read earlier adds at most one view exactly when that row was absent or inactive, or its count is still in the row. |
| `BuyerHistoryInterleaved.MergeAddsNoneIffHonest` | backend/internal/app/buyer_handlers.go:577-625 | A merge computed from rows read earlier adds no view exactly when, for each product, the counts it read are still in the two rows. |
| `BuyerHistoryInterleaved.RunCoveredIffHonest` | backend/internal/app/buyer_handlers.go:838-890 | In every run of interleaved views, merges, deletes and failures, each step adds at most the views it may exactly when every write of the run meets that condition. |
| `BuyerHistoryInterleaved.NoViewIsCountedTwiceIfHonest` | backend/internal/app/buyer_handlers.go:838-890 | In every interleaved run whose writes meet it, the shown counts of a product add up to at most its views that were not deduplicated; for this final bound the condition is sufficient. |
| `BuyerHistoryInterleaved.MergeInsideAView` | backend/internal/app/buyer_handlers.go:838-890 | A merge between the read and the write of a view adds the whole count of the device once more, for any rows. |
| `BuyerHistoryInterleaved.MergeInsideAMerge` | backend/internal/app/buyer_handlers.go:577-580 | Two merges of one device into two buyers that both read before either writes give the counts to both. |
| `BuyerHistoryInterleaved.RestartInsideAView` | backend/internal/app/buyer_handlers.go:863-879 | A stale view of a row that was deleted and viewed anew brings the deleted count back. |
| `BuyerHistoryInterleaved.MergeInsideAViewCountsTwice` | backend/internal/app/buyer_handlers.go:838-890 | A concrete run: with a merge between the read and the write of a view, two views are shown as three. |
| `BuyerHistoryTimes.CurrentRunsAreSequential` | backend/internal/app/buyer_handlers.go:838-890 | An interleaved run in which every write finds the rows as they were read ends in the rows of its requests run one after the other in the order of their writes, and all its writes are honest. |
| `BuyerHistoryTimes.SpansKeptIffHonest` | backend/internal/app/buyer_handlers.go:863-879 | In every interleaved run each step keeps the span of an active row if and only if each counting view of it is not before the stored last view (nor, if it read the row inactive, after the stored first) and each merge into it read times that enclose those stored. |
| `BuyerHistoryTimes.HonestSpansOnlyGrow` | backend/internal/app/buyer_handlers.go:602-615 | Then a row that stays active ends with a span that encloses the one it began with. |
| `BuyerHistoryTimes.OverlappingViewsMoveBack` | backend/internal/app/buyer_handlers.go:838-890 | For any active row, two views that both read before either writes, the later one writing first, move its last view back. |
| `BuyerHistoryTimes.CountsAreBoundedIffHonest` | backend/internal/app/buyer_handlers.go:863-879 | In every interleaved run the time bound on counts holds in every state if and only if each view that goes on counting comes long enough after the stored first view for the new count; merges, views that start a row anew and deletes always keep it. |
| `BuyerHistoryTimes.UnmovedFirstKeepsPace` | backend/internal/app/buyer_handlers.go:863-879 | A view meets that condition whenever the stored first view is no later than the one it read. |
| `BuyerHistoryTimes.StaleViewLosesPace` | backend/internal/app/buyer_handlers.go:863-879 | A stale view of a row that was deleted and viewed anew counts honestly and leaves a row that meets the time bound for no number of parts. |
| `BuyerHistory.OwnerKeysDiffer` | backend/internal/app/buyer_handlers.go:25-31 | Owner keys of buyers and devices are equal only for the same owner. |
| `BuyerHistory.Tables.HandleGuestMerge` | backend/internal/app/buyer_handlers.go:542-646 | The two loops compute the merge: device rows retired, buyer rows combined by sum, minimum and maximum, other rows untouched, and the counts reported. |
| `BuyerHistory.Tables.HandleHistoryView` | backend/internal/app/buyer_handlers.go:838-890 | Deduplication, restart of an inactive row, and the stored count and time as answer. |
| `BuyerHistory.Tables.HandleHistoryDelete` | backend/internal/app/buyer_handlers.go:984-988 | Deactivates the selected rows of the owner and shop and nothing else. |
| `BuyerHistory.Tables.HandleFavoriteAdd` | backend/internal/app/buyer_handlers.go:746-771 | Afterwards the favourite exists and is active under the given shop; an existing one keeps its merge target, a new one has none; every other favourite is unchanged. |
| `BuyerHistory.Tables.HandleFavoriteDelete` | backend/internal/app/buyer_handlers.go:798 | The favourite is active afterwards exactly when it was and its shop is another one; its shop and merge target and every other favourite are unchanged. |
| `BuyerHistoryEffects.ViewEffect` | backend/internal/app/buyer_handlers.go:838-890 | A view within 30 seconds of the last one of an active row changes nothing; a later one counts one more and keeps the first view; an absent or inactive row starts anew; no other row changes. |
| `BuyerHistoryEffects.ViewCountsOne` | backend/internal/app/buyer_handlers.go:838-890 | By how much exactly a view changes the views of a product that count. |
| `BuyerHistoryEffects.DeleteEffect` | backend/internal/app/buyer_handlers.go:984-988 | A delete hides the owner's rows of the shop, of one product or of all, and changes nothing else. |
| `BuyerHistoryEffects.MergeEffect` | backend/internal/app/buyer_handlers.go:577-625 | For each product: the device's row is retired exactly if it was active and unmerged, and then the buyer's row has the sum of the counts, the earlier first and later last view, the device's merchant; otherwise both are as they were. |
| `BuyerHistoryEffects.MergeFavoritesEffect` | backend/internal/app/buyer_handlers.go:546-576 | The same for favourites; an active one of the buyer stays as it is. |
| `BuyerHistoryEffects.LateViewEffect` | backend/internal/app/buyer_handlers.go:838-890 | What a view writes that read its row earlier, column by column, and when it writes nothing. |
| `BuyerHistoryEffects.LateMergeEffect` | backend/internal/app/buyer_handlers.go:577-625 | What a merge writes that read its rows earlier: everything it computed, or nothing when a row to create is there or one to update is not. |
| `BuyerIntentsProofs.OneOpenIntentAlways` | backend/internal/app/buyer_intent_schema.go:314-372 | With migrations crashing and rerun anywhere between requests, a buyer has at most one open intent per product, and open means NEW or CONTACTED. |
| `BuyerIntentsProofs.EveryStopCanBeResumed` | backend/internal/app/buyer_intent_schema.go:322-339 | The switch accepts every reachable schema and the row checks pass. |
| `BuyerIntentsProofs.RerunCompletes` | backend/internal/app/buyer_intent_schema.go:337-371 | A migration started after any history and not disturbed by another one succeeds within eleven statements, whatever requests come in between. |
| `BuyerIntentMigration.Migration.Migrate` | backend/internal/app/buyer_intent_schema.go:314-372 | One run with requests between its statements: from every schema a stopped run can leave, over consistent rows, it succeeds and keeps one open intent per pair; over any table, success means the final schema, and an unknown schema is refused as it is. |
| `BuyerIntentMigration.Migration.VerifyRows` | backend/internal/app/buyer_intent_schema.go:112-149 | Fails exactly when a row was inconsistent at the first count or a pair had two open intents at the second, with requests in between; a consistent table passes. |
| `BuyerIntentMigration.Migration.CountInvalid` | backend/internal/app/buyer_intent_schema.go:117-131 | The counting loop returns the number of rows whose status and open flag disagree, which is zero exactly if there is none. |
| `BuyerIntentsProofs.DoneIsFinal` | backend/internal/app/buyer_intent_schema.go:111-149 | A reported success means the verified schema, for good. |
| `BuyerIntentsProofs.MigrationsKeepTheData` | backend/internal/app/buyer_intent_schema.go:340-370 | No run of migrations, crashes and reruns changes, adds or removes a stored row. |
| `BuyerIntentsProofs.CloseFailsIffLegacyIndexClashes` | backend/internal/app/merchant_intent_handlers.go:216-251 | Closing an open intent fails exactly while the legacy index exists and another intent of the pair is closed. |
| `BuyerIntentsProofs.SecondCloseFails` | backend/internal/app/merchant_intent_handlers.go:216-251 | Create, close, create reaches a legacy state in which closing the open intent fails. |
| `BuyerIntentsProofs.CreateSucceedsIff` | backend/internal/app/buyer_intent_state.go:28-54 | An intent is created exactly when the product is the merchant's, on the shelf, and has no open intent of the buyer; the internal error is unreachable. |
| `BuyerIntentsProofs.IntentsOnlyMoveForward` | backend/internal/app/merchant_intent_handlers.go:150-251 | Over any run an intent is never removed or given away and moves only NEW, CONTACTED, CLOSED. |
| `BuyerIntentsProofs.TransitionsTakeEffect` | backend/internal/app/merchant_intent_handlers.go:155-164 | A transition answered with success has happened and repeating it changes nothing; a closed intent cannot be contacted. |
| `BuyerIntentsEffects.CreateEffect` | backend/internal/app/buyer_intent_state.go:28-54 | The answer to every creation: which error, or success with the new open row and all else unchanged. |
| `BuyerIntentsEffects.ContactEffect` | backend/internal/app/merchant_intent_handlers.go:150-181 | The answer to every contact request: missing, another merchant's, closed, or contacted with nothing else changed. |
| `BuyerIntentsEffects.CloseEffect` | backend/internal/app/merchant_intent_handlers.go:216-251 | The answer to every close request, including the clash with the legacy index, and the row it leaves. |
| `BuyerIntentsEffects.BadTablesAreRefused` | backend/internal/app/buyer_intent_schema.go:314-372 | A migration of a table in another state, with an inconsistent row or with two open intents of a pair fails within four statements and has altered nothing. |
| `BuyerIntentService.IntentTable.CreateBuyerIntent` | backend/internal/app/buyer_intent_state.go:28-54 | Exactly the specified creation, or the error and no change; the invariant of the table is kept. |
| `BuyerIntentService.IntentTable.HandleContacted` | backend/internal/app/merchant_intent_handlers.go:150-181 | Exactly the specified transition, or the error and no change; the invariant of the table is kept. |
| `BuyerIntentService.IntentTable.HandleClose` | backend/internal/app/merchant_intent_handlers.go:216-251 | Exactly the specified transition, or the error and no change; the invariant of the table is kept. |
| `ProductFiles.Catalog.DeleteProduct` | backend/internal/app/product_handlers.go:471-575 | Deletes exactly the product images that an account of the merchant uploaded, this product shows or has as its cover, and no other product shows or, in use, has as its cover, all written out over the tables; every other record stays; the image rows of the product go and it is marked deleted; the object keys are those of the deleted records. |
| `ProductFiles.DeleteLeavesNothingDangling` | backend/internal/app/product_handlers.go:489-528 | No reference that survives loses its file. |
| `ProductFiles.SharedFilesGoLast` | backend/internal/app/product_handlers.go:495-521 | A file used by two products is kept with the first delete and becomes garbage with the second. |
| `QueryKeysProofs.PrintsAlikeIffSame` | miniapp/src/libs/react-query.ts:53-66 | Two key values print alike exactly when they are equal up to object key order, an array of one undefined counting as the empty array. |
| `QueryKeysProofs.UndefinedVanishes` | miniapp/src/libs/react-query.ts:53-56 | That exception is real: [undefined] and [] print alike. |
| `QueryClients.MatchesQueryKey` | miniapp/src/libs/react-query.ts:68-78 | True exactly when the target is a prefix of the key up to object key order. |
| `QueryClients.SameGroupIffSameKey` | miniapp/src/libs/react-query.ts:100-105 | Two keys share a group of registrations exactly when they are equal up to object key order and the vanishing undefined. |
| `QueryClients.QueryClient.RegisterQuery` | miniapp/src/libs/react-query.ts:100-107 | Adds one new registration to the live ones. |
| `QueryClients.QueryClient.Unregister` | miniapp/src/libs/react-query.ts:108-118 | Removes the registration, and nothing when called again. |
| `QueryClients.QueryClient.InvalidateQueries` | miniapp/src/libs/react-query.ts:121-133 | After any history refetches exactly the live registrations with the target as prefix, each once. |
| `PasswordsProofs.EveryIndexIsEquallyLikely` | frontend/src/utils/password.ts:6-13 | Of the accepted 32-bit words exactly bound / size give each index. |
| `PasswordsProofs.FewerThanHalfAreRejected` | frontend/src/utils/password.ts:8-11 | Fewer than half of all words are rejected, for every size up to 2^32. |
| `PasswordsProofs.ShuffleIsInjective` | frontend/src/utils/password.ts:25-28 | Different choices give different orders of distinct elements. |
| `PasswordsProofs.ShuffleIsSurjective` | frontend/src/utils/password.ts:25-28 | Every order is reached by some choices. |
| `PasswordsProofs.GeneratedPasswordsAreAccepted` | frontend/src/utils/password.ts:15-30 | Whatever is drawn, the password satisfies the backend rule. |
| `PasswordsProofs.GeneratedPasswordsMixTheGroups` | frontend/src/utils/password.ts:1-30 | It has 20 characters, at least one of each of the four groups, and none besides them. |
| `PasswordsProofs.EnoughDrawsGiveAPassword` | frontend/src/utils/password.ts:6-30 | 39 draws give a password, if none is among the highest 68 words. |
| `Passwords.RandomIndex` | frontend/src/utils/password.ts:6-13 | The rejection loop returns the first accepted word modulo the size and stops right after it. |
| `Passwords.ShuffleInPlace` | frontend/src/utils/password.ts:25-28 | The in-place swap loop is the recursive shuffle by the drawn choices. |
| `Passwords.GeneratePassword` | frontend/src/utils/password.ts:15-30 | One character of each group, then of the whole alphabet, then shuffled: as a function of the draws. |
| `Passwords.ValidPassword` | backend/internal/common/password.go:5-25 | The loop with early returns accepts exactly 12 to 72 printable characters with a letter and a digit. |
| `RateLimiter.Limiter.Allow` | backend/internal/app/rate_limiter.go:18-43 | Decides and updates the bucket as specified and leaves all other buckets alone, pruning in place and appending in place or into a larger array. |
| `RateLimiter.Limiter.Prune` | backend/internal/app/rate_limiter.go:29-35 | Filtering over the slice's own array keeps exactly the times after the cutoff, in order. |
| `RateLimiter.PrunedListDecidesLikeTheLog` | backend/internal/app/rate_limiter.go:36-42 | With a non-decreasing clock and a fixed limit and window, each decision equals the decision on the full log of accepted calls. |
| `RateLimiter.AtMostLimitPerWindow` | backend/internal/app/rate_limiter.go:18-43 | Every half-open interval as long as the window holds at most `limit` accepted calls of the bucket. |
| `RateLimiter.AcceptedIff` | backend/internal/app/rate_limiter.go:24-42 | With such a clock, a call is accepted if and only if fewer than `limit` calls were accepted within the window before it, one exactly as old as the window not counting. |
| `RateLimiter.BucketsAreSeparate` | backend/internal/app/rate_limiter.go:23 | Under the nine scopes in use, two requests share a bucket only if scope and key are the same. |
| `RepeatedBlock.IsRepeatedBytePattern` | backend/internal/app/config.go:348-365 | True exactly for two or more copies of a shorter non-empty block. |
| `RepeatedBlock.RepeatedIffARotationFixesIt` | backend/internal/app/config.go:348-365 | Equivalently, exactly when some proper rotation leaves the bytes unchanged. |

## Left out

- BuyerHistoryProofs.NoViewIsCountedTwice: requests are taken one at a time, here and in CountsAreBoundedByTime and ActiveSpansOnlyGrow; BuyerHistoryInterleaved and BuyerHistoryTimes have the exact conditions for requests side by side.
- InventoryService.Tables.Update: titles, descriptions, categories, prices and images are one verdict, because only stock takes part in the properties.
- BackfillCommands.BackfillCommand.RunCleanup: the partial summary that comes with an error is not modelled, here and in RunApply.
- BackfillCommands.BackfillCommand.RunApply: items come in any order instead of by file id, and dry runs, JSON events and the run row are not modelled.
- QueryClients.QueryClient.InvalidateQueries: the order of refetches and their results are left open; the code runs each refetch during the walk, and one that registers or unregisters a query meanwhile is not modelled.
- Versions, audit logs, operator ids, timestamps, attempt counters and error codes of rows.
- Temporary files, fsync and directory creation of the object store; removal of `.tmp` files.
- Which local paths an object key may denote, MIME sniffing, image processing and its size limits.
- Cancelling a backfill is a possible stop before each candidate; the process limit and signals are not modelled.
- Gap locks, isolation anomalies and lock timeouts of MySQL; the SQLite paths, which ignore FOR UPDATE.
- The empty development table of the intent migration past its first statement, which the code itself cannot resume.
- Reading the information schema: the inspected state of column and indexes is taken as given.
- Integer widths: quantities, counts and times are unbounded.
- Bytes that are not valid UTF-8 in SQL scripts; surrogate pairs in the order of object keys.
- JSON values that have no text of their own (functions, symbols, big integers, cyclic objects, `toJSON`).
- The profile and device id of the mini-program's session store, and its copy in local storage.
- React hooks, list and paging queries, dashboards, logins, and the weaker refresh of the web frontend.
- Merchant approval and category names.
