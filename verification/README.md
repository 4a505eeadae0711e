# Stock movements and their events, verified

A Dafny model of the stock-movement engine of the inventory backend and of the event pipeline behind it. It covers
four parts that share one state: the movement and stock transaction, the outbox relay, the consumer with its retries
and dead letters, and the product cache that confirming a movement reads through.

`dafny verify dfyconfig.toml` checks everything.

## How it is built

* **Methods on classes** follow the Go code where it changes state: `Store.Database` holds the tables, the open
  transaction (a snapshot that a failure restores) and a connection that can fail at any statement;
  `Cache.Redis` and `EventBus.Client` meet, for every command, success, refusal, or an error after the command took
  effect. Each method is proved against a specification function or predicate on values, and a `Fault` is reported
  only when the connection really failed.
* **Small-step systems** model what runs concurrently: `Transactions` (creates, line inserts, cancels and confirms at
  READ COMMITTED with row locks held to the end), `Delivery`, `RelayWorkers` and `ManyRelays` (relays),
  `ConsumerSafety` (consumers of one group), `Deadlock` (lock acquisition). Main results hold for every run, with a
  crash possible between any two steps.
* The two are connected: what a confirm or a cancel does to the tables is a step of the serial machine that every
  concurrent run is equivalent to (`Refinement`), and what a call of `HandleMessage` may have done is a sequence of
  steps of the consumer group (`ConsumerSafety.HandleMessageIsSteps`).
* **`World`** is every sequential run of product, category, warehouse and movement operations over tables and cache.

| part | files |
|---|---|
| stock | `Schema`, `Stock`, `StockLaws`, `StockRepository`, `StockApply`, `Effects`, `SeedStock`, `LockOrder`, `LockPlan`, `Deadlock` |
| movements | `Store`, `MovementRepository`, `Creates`, `Events`, `MovementUsecase`, `Transactions`, `Serializability`, `Refinement`, `Ledger`, `LifeCycle`, `Reachability`, `ConfirmDeadlock` |
| outbox and relay | `EventOrder`, `Delivery`, `Relay`, `RelayWorkers`, `ManyRelays`, `Backoff` |
| consumer | `EventBus`, `ConsumerSafety`, `Envelope` |
| cache and catalogue | `CacheKeys`, `ListQueries`, `Cache`, `Catalog`, `Warehouses`, `World`, `WorldLaws` |
| shared | `Common`, `Text` |

## What turned out false, and when it holds

Each of these has a lemma with the exact condition, or with the run that shows it.

* `order.go` says the lock order avoids deadlocks on transfer. It does for `TransferDelta` and `ApplyDelta`
  (`Deadlock.PrimitivesNeverDeadlock`). It does not for confirming. A confirm locks product by product in the order of
  its lines, a transfer the destination before the source (`StockApply.ApplyStock`, `LockPlan.PlanIsByProduct`). Some run
  brings two confirms to wait for each other exactly when the movements are different, these sequences cross, and both
  get that far: a confirm is refused before it wants a row when a product's total exceeds 2^31-1 in the lines before
  (`ConfirmDeadlock.ConfirmsDeadlock`). One-line transfers do it when they are opposite (`OppositeConfirmsDeadlock`),
  receipts, issues or adjustments at one warehouse when their products come in crossing orders
  (`OneWarehouseConfirmsDeadlock`). Lines are read back ordered only by a shared timestamp, so two movements with equal
  line lists can do it (`ReorderedLinesDeadlock`). PostgreSQL then aborts one of the two; nothing else ends it
  (`DeadlockStays`).
* `relay.go` says parallel relay workers can run safely. Rows are never shared and none is lost
  (`ManyRelays.RelaysAreSafe`), but the stream keeps the order of events of one balance row exactly when at most one
  relay transaction is open at a time (`ManyRelays.OneRelayKeepsOrder`).
* `stockDelta` claims the net effect of `applyStock`. It has it except for adjustments naming both warehouses, which the
  table admits and the create-time validation does not (`SeedStock.SeedAgreesExactly`,
  `MovementUsecase.ValidationMirrorsConstraint`).
* Header and lines of a movement are separate commits, so a confirm may come between them. The ledger holds for the
  lines a confirm applied; they are the stored ones exactly when no line arrived late (`Ledger.StoredLines`).
* With an idempotency key, a requeued or re-read message is acknowledged as a duplicate of its own first attempt
  (`ConsumerSafety.NoMessageLost`), and so is a dead letter when the dead-letter stream given is the stream read. No
  single arrival is lost exactly when there is no key (`ConsumerSafety.NoArrivalLost`).
* `DecodeEvent` loses the version, so a signature over any version but 1 fails after decoding
  (`Envelope.SignatureSurvives`).
* A product list query has a cache entry of its own exactly when its sort and order contain no `|`, every `|` in its
  search follows white space and every one in its category precedes it (`CacheKeys.FingerprintIsOwn`). Sharing an entry
  does harm only when the other query has another effect: an unknown sort means the name, an unknown order means
  ascending, and a category that is no UUID is an error. Which queries are always served right, even with such
  neighbours, is `WorldLaws.ListIsAlwaysRight` and `ListQueries.AgreesIsSteady`.
* Nothing checks the texts of a create before the table does. One that passes every check has its header refused
  exactly when its reference has more than 100 characters, or its reference, key or notes contain a NUL
  (`MovementUsecase.OnlyUnfitTextsAreRefused`, `LongReference`, `NulReference`). A NUL in the notes of a line is refused
  only after the header and the lines before it are stored, and the same create sent again then succeeds with that
  incomplete movement (`RefusedLineIsReplayed`, `NulInLineNotes`). SKU, name, unit, description and price of a product
  are refused by the table in the same way (`Catalog.OnlyUnfitColumnsAreRefused`; what JSONB refuses in the metadata is
  not modelled). A confirm is refused when the client's address or request id, which its headers choose, do not fit the
  audit columns (`MovementUsecase.ConfirmMovement`).
* A confirm learns of a deleted product only through the cache. One lost invalidation lets stock onto a deleted
  product (`WorldLaws.DeletedProductsHoldNoStock`). Updating and restoring a product skip the invalidation when the read
  behind the UPDATE fails.
* The backoff follows min(minB 2^k, maxB) exactly when minB <= maxB < 2^62 ns, and no sleep panics or is out of bounds
  exactly when both settings are at least 4 ns and below 2^62 ns (`Backoff.BackoffBound`, `Backoff.JitterBound`).

## Assumptions

* PostgreSQL: FOR UPDATE, INSERT and UPDATE take row locks held to the end of the transaction; a waiter sees the
  latest committed row; a compare-and-set re-tests its condition after waiting; the outbox sequence is not rolled back.
* Redis: SCAN returns every key that is present throughout an iteration at least once; streams keep order; fields come
  back as text.
* A relay that crashed holds its row as long as the database has not ended its transaction; until then it counts as one
  of the open relay transactions.
* Digests and message authentication codes do not collide. Tenant ids are UUIDs without `:` or glob characters.
  Identifiers arrive trimmed and well-formed. Event ids are not stream entry ids, and a key names its event for good.
* Text is ASCII: trimming and lower-casing are those of ASCII, and a character is a byte.

The rows marked as main results below are the theorems; the others lead to them or tie methods to their specification.

## Model

| member | source | states |
|---|---|---|
| `StockLaws.ApplyLinesExact` | services/inventory/domains/movement/usecase/stock_apply.go:42-137 | **Main result.** applying lines succeeds exactly when, per product, the total is within the source balance (missing = 0) and the destination stays at most 2^31-1; every touched row then moves by the net quantity, nothing else changes, and all balances stay in 0..2^31-1 |
| `StockLaws.OrderOfLinesIsIrrelevant` | services/inventory/domains/movement/repository/repository.go:233 | **Main result.** every permutation of the lines gives the same verdict and the same final balances, as reading lines back by a shared created_at needs |
| `StockLaws.ApplyLinesChain` | services/inventory/domains/movement/usecase/stock_apply.go:45-56 | **Main result.** the recorded changes of a row chain from its old to its new quantity, through repeated products, and a row has changes exactly when a line touches it |
| `StockLaws.ApplyLinesInRange` | services/inventory/domains/movement/usecase/stock_apply.go:87-101 | no recorded old or new quantity, including the back-computed ones of a transfer, leaves int32 |
| `StockLaws.StockIsConserved` | services/inventory/domains/movement/usecase/stock_apply.go:76-104 | a movement changes the product total by what it brings minus what it takes; a transfer conserves it |
| `StockLaws.RaiseExact` | services/inventory/domains/movement/usecase/stock_apply.go:42-57 | when one raising line succeeds and what it writes and records |
| `StockLaws.LowerExact` | services/inventory/domains/movement/usecase/stock_apply.go:59-74 | the same for one lowering line; a missing row counts as zero |
| `StockLaws.MoveExact` | services/inventory/domains/movement/usecase/stock_apply.go:76-104 | the same for one transfer line, both rows |
| `StockLaws.ApplyLineExact` | services/inventory/domains/movement/usecase/stock_apply.go:106-137 | the same for any line, adjustments included |
| `StockRepository.GetForUpdate` | services/inventory/domains/stock/repository/repository.go:126-143 | locked read: the quantity and the row locked, not found, or a fault only when the connection failed |
| `StockRepository.EnsureBalanceRow` | services/inventory/domains/stock/repository/repository.go:55-71 | creates the row at zero if missing and reads it |
| `StockRepository.ApplyQuantity` | services/inventory/domains/stock/repository/repository.go:145-169 | refuses negative as insufficient, beyond int32 as invalid, otherwise writes that row only |
| `StockRepository.ApplyDelta` | services/inventory/domains/stock/repository/repository.go:74-81 | is the specification function on the old table; a failure leaves the table alone |
| `StockRepository.TransferDelta` | services/inventory/domains/stock/repository/repository.go:83-124 | is the specification function whichever of the two rows is locked first; the rows it locks are the pair in lock order, or as many of it as it got to |
| `StockApply.ApplyStock` | services/inventory/domains/movement/usecase/stock_apply.go:27-40 | **Main result.** outcome, table and changes are those of the specification; a fault only when the connection failed; the rows it locks are the rows of its lines in order, raised before lowered, up to where it stopped, and all of them on success |
| `LockPlan.PlanIsByProduct` | services/inventory/domains/movement/usecase/stock_apply.go:27-137 | those rows, each taken once, are product by product in the order in which the lines first name them, the raised warehouse before the lowered one |
| `StockApply.ApplyInbound` | services/inventory/domains/movement/usecase/stock_apply.go:42-57 | the loop over inbound lines refines the specification, with int32 arithmetic |
| `StockApply.ApplyOutbound` | services/inventory/domains/movement/usecase/stock_apply.go:59-74 | the loop over outbound lines refines the specification |
| `StockApply.ApplyTransfer` | services/inventory/domains/movement/usecase/stock_apply.go:76-104 | the loop over transfer lines refines the specification; the back-computed old quantities are the true ones |
| `StockApply.ApplyAdjustment` | services/inventory/domains/movement/usecase/stock_apply.go:106-137 | the loop over adjustment lines refines the specification |
| `StockApply.FailsFrom` | services/inventory/domains/movement/usecase/stock_apply.go:45-56 | the first failing line decides the error of the whole movement |
| `Effects.ApplyStockMoves` | services/inventory/domains/movement/usecase/stock_apply.go:27-137 | a movement raises its destination (a receipt, a transfer, an adjustment without a source) and lowers its source (an issue, a transfer, an adjustment with one) by the totals of its lines; every other row stays; per row the recorded changes lead from the old to the new quantity |
| `Effects.StockRefusal` | services/inventory/domains/movement/usecase/stock_apply.go:42-137 | **Main result.** applyStock fails exactly when the totals of some first lines do not fit, and the last of these decides: insufficient stock when a warehouse that gives its product has less than they take, a validation error for the overflow otherwise |
| `SeedStock.SeedAgreesExactly` | infra/database/cmd/seed/service/movements_seed.go:121-174 | **Main result.** seeder and applyStock have the same outcome on every starting table exactly when the movement is not a satisfiable adjustment naming both warehouses |
| `SeedStock.SeedRunAgrees` | infra/database/cmd/seed/service/movements_seed.go:121-209 | **Main result.** over any sequence of movements from any table, both fail or leave the same balances |
| `SeedStock.SeedRefusesBoth` | infra/database/cmd/seed/service/movements_seed.go:166-168 | the seeder refuses every line of an adjustment naming both warehouses |
| `SeedStock.StockDelta` | infra/database/cmd/seed/service/movements_seed.go:177-209 | refines the seeder's own delta function, the INT column refusing an overflow |
| `SeedStock.ApplyConfirmedStock` | infra/database/cmd/seed/service/movements_seed.go:121-174 | the loop refines the seeder's specification |
| `LockOrder.LessIsTrichotomous` | services/inventory/domains/stock/repository/order.go:10-15 | exactly one of before, after and equal |
| `LockOrder.LessIsTransitive` | services/inventory/domains/stock/repository/order.go:10-15 | the order is transitive, hence a strict total order |
| `LockOrder.OrderedIsSymmetric` | services/inventory/domains/stock/repository/order.go:18-23 | both argument orders give the same pair, in order |
| `LockOrder.OrderedWarehouseProduct` | services/inventory/domains/stock/repository/order.go:18-23 | the result is the two arguments in some order |
| `Deadlock.PrimitivesNeverDeadlock` | services/inventory/domains/stock/repository/repository.go:83-104 | **Main result.** any number of transactions each doing one ApplyDelta or TransferDelta, in any schedule: no row is held twice, no wait cycle, bounded length, and only the finished state is stuck |
| `Deadlock.SomeoneCanStep` | services/inventory/domains/stock/repository/repository.go:93-104 | with ordered plans an unfinished system always has a step |
| `Deadlock.NoWaitCycle` | services/inventory/domains/stock/repository/order.go:9-15 | the wait-for graph has no cycle |
| `Deadlock.RunIsBounded` | services/inventory/domains/stock/repository/repository.go:93-104 | every schedule ends: the work left bounds its length |
| `Deadlock.StepKeepsExclusive` | services/inventory/domains/stock/repository/repository.go:126-143 | a step keeps it so that no two transactions hold the same row |
| `Deadlock.RunIsSound` | services/inventory/domains/stock/repository/repository.go:126-143 | over every run from a fresh start no two transactions ever hold the same row |
| `Deadlock.SoundIsReachable` | services/inventory/domains/stock/repository/repository.go:126-143 | every assignment of rows in which none is held twice is reachable |
| `Deadlock.StickingIsAConfiguration` | services/inventory/domains/stock/repository/repository.go:126-143 | for any number of transactions with any plans, a deadlock is reachable exactly when some assignment without shared rows leaves every unfinished one wanting a row another holds |
| `Deadlock.PairSticks` | services/inventory/domains/stock/repository/repository.go:126-143 | **Main result.** two transactions can deadlock exactly when each can hold, disjointly, the row the other wants next |
| `Deadlock.OrderedNeverStick` | services/inventory/domains/stock/repository/order.go:9-15 | any number of transactions whose plans follow the lock order never get stuck |
| `Deadlock.PlansAreIncreasing` | services/inventory/domains/stock/repository/repository.go:93-104 | each primitive locks in increasing order |
| `ConfirmDeadlock.ConfirmsDeadlock` | services/inventory/domains/movement/usecase/stock_apply.go:27-137 | **Main result.** some run of the concurrent transactions brings confirms of two movements, of any kinds with any lines, to wait for each other's balance rows exactly when both can be stored together (different ids, references and keys), their lock plans cross, and in both no product's total exceeds 2^31-1 in the lines before the first one of the wanted row's product |
| `ConfirmDeadlock.DeadlockStays` | services/inventory/domains/stock/repository/repository.go:126-143 | once two confirms wait for each other, whatever step follows, they still do unless one of the two is aborted |
| `ConfirmDeadlock.UsesArePlanned` | services/inventory/domains/movement/usecase/stock_apply.go:27-137 | the statements of a confirm in the concurrent system lock rows in the order in which applyStock locks them |
| `ConfirmDeadlock.LocksFollowPlan` | services/inventory/domains/movement/usecase/stock_apply.go:27-137 | a confirm in any state that keeps the invariant of all reachable ones, when it is about to lock a new row, has locked exactly its plan up to there, and the totals of the lines before the first one of that product are within 2^31-1 |
| `ConfirmDeadlock.TotalsFitSomeTable` | services/inventory/domains/movement/usecase/stock_apply.go:42-137 | lines succeed on some balance table exactly when no product's total exceeds 2^31-1 |
| `Reachability.RunConfirm` | services/inventory/domains/movement/usecase/usecase.go:407-430 | from any reachable state without open transactions, a stored draft whose lines fit is confirmed by some run |
| `Reachability.RunTable` | services/inventory/domains/movement/usecase/usecase.go:407-430 | **Main result.** every balance table with quantities in 0..2^31-1 is reached by some run of creates and confirms |
| `ConfirmDeadlock.OppositeConfirmsDeadlock` | services/inventory/domains/movement/usecase/stock_apply.go:76-104 | **Main result.** confirms of two one-line transfers can deadlock exactly when the movements are different and move one product of one tenant in opposite directions between the same warehouses |
| `ConfirmDeadlock.OneWarehouseConfirmsDeadlock` | services/inventory/domains/movement/usecase/stock_apply.go:42-74 | **Main result.** confirms of two movements that are no transfers can deadlock exactly when they are different, concern one warehouse of one tenant, the orders of their products cross, and both get that far without an overflow |
| `ConfirmDeadlock.ReorderedLinesDeadlock` | services/inventory/domains/movement/repository/repository.go:233 | two different movements with one list of two lines, read back in two orders, are enough |
| `ConfirmDeadlock.OverflowPreventsDeadlock` | services/inventory/domains/stock/repository/repository.go:145-169 | two receipts whose plans cross and which still cannot deadlock: the first lines of one overflow |
| `ConfirmDeadlock.TransferDeltaIsOrdered` | services/inventory/domains/stock/repository/repository.go:83-104 | what TransferDelta locks is the ordered plan of its primitive |
| `ConfirmDeadlock.TransferLineOrder` | services/inventory/domains/movement/usecase/stock_apply.go:81-85 | a confirmed transfer line follows the lock order exactly when its destination precedes its source |
| `Transactions.ProgramIsApplyStock` | services/inventory/domains/movement/usecase/stock_apply.go:27-137 | the statements of a confirm run alone are applyStock |
| `Serializability.Serializable` | services/inventory/domains/movement/usecase/usecase.go:366-441 | **Main result.** in every state of every interleaving of creates, line inserts, cancels and confirms, the committed movements, balances and outbox are those of running the committed operations alone in commit order |
| `Serializability.CommitIsApplyStock` | services/inventory/domains/movement/usecase/usecase.go:407-430 | what a committing confirm writes is applyStock on the balances committed at that moment |
| `Serializability.StepKeeps` | services/inventory/domains/movement/usecase/usecase.go:407-430 | every step keeps the invariant behind it |
| `Serializability.ExecutedDespiteCommit` | services/inventory/domains/stock/repository/repository.go:126-143 | another commit does not disturb the rows a transaction has locked |
| `Ledger.LedgerHolds` | services/inventory/domains/movement/usecase/stock_apply.go:27-137 | **Main result.** after any commits each balance is the signed sum of the confirmed lines and within 0..2^31-1; its StockChanged rows chain from 0 to it |
| `Ledger.HistoryInRange` | services/inventory/domains/movement/usecase/stock_apply.go:87-101 | no committed old_qty or new_qty leaves int32 |
| `Ledger.ConfirmedByLog` | services/inventory/domains/movement/usecase/usecase.go:407-430 | a movement is confirmed exactly when a confirm of it committed |
| `Ledger.ConfirmedOnce` | services/inventory/domains/movement/usecase/usecase.go:412-425 | **Main result.** at most one confirm of a movement commits, so stock is applied exactly once |
| `Ledger.RunAdvances` | services/inventory/domains/movement/repository/repository.go:293-306 | **Main result.** over every run statuses only go from draft to confirmed or cancelled and then stay |
| `Ledger.StoredLines` | services/inventory/domains/movement/repository/repository.go:121-140 | **Main result.** the stored lines of a confirmed movement are the applied ones followed by those inserted later: equal exactly when none was |
| `Ledger.EmptyDraftIsConfirmed` | services/inventory/domains/movement/repository/repository.go:121-140 | a draft whose header is committed and whose lines are not can be confirmed |
| `Ledger.LateLineIsReachable` | services/inventory/domains/movement/repository/repository.go:121-140 | a line inserted after the confirm does happen |
| `LifeCycle.MovementCreatedOnce` | services/inventory/domains/movement/usecase/emit.go:65-85 | **Main result.** in every reachable state MovementCreated rows and confirmed movements correspond one to one |
| `LifeCycle.ConfirmedRowsInOrder` | services/inventory/domains/movement/usecase/emit.go:65-141 | **Main result.** in every reachable state the rows of a committed confirm have ascending ids and are MovementCreated, then StockChanged of every change in order, with StockBelowThreshold directly behind it exactly when the level is positive and above the new quantity |
| `Events.MovementEventsCarryChanges` | services/inventory/domains/movement/usecase/emit.go:87-108 | the StockChanged events of a confirm are exactly the changes in order, behind one MovementCreated |
| `Effects.EventsAnnounce` | services/inventory/domains/movement/usecase/emit.go:65-141 | **Main result.** MovementCreated comes first, then StockChanged of every change in order, and StockBelowThreshold with key, new quantity and level directly behind it for exactly the changes whose level is positive and above the new quantity; nothing else |
| `EventOrder.HistoryInIdOrder` | services/inventory/domains/outbox/repository/repository.go:58-69 | **Main result.** outbox ids of one balance row ascend in commit order although the sequence is not transactional, and no row is overwritten |
| `EventOrder.StepIds` | services/inventory/domains/outbox/repository/repository.go:58-69 | every step keeps the order of ids |
| `Delivery.StreamFollowsHistory` | services/inventory/domains/outbox/repository/relay.go:33-61 | **Main result.** with one relay, whatever fails or crashes before the mark commits, the stream's entries of a balance row are a stuttering prefix of its history |
| `Delivery.DrainedStreamRebuildsBalances` | workers/internal/outboxrelay/relay.go:95-120 | **Main result.** once drained, folding the stream with duplicate event ids dropped rebuilds exactly the balance table |
| `Delivery.HistoryGrows` | services/inventory/domains/outbox/repository/relay.go:34-42 | a step only appends to a history, and what it appends is unpublished |
| `Store.Database.Begin` | pkg/database/transaction/with_tx.go:38-48 | opens a transaction only if the context carries none |
| `Store.Database.End` | pkg/database/transaction/with_tx.go:38-48 | commits or restores everything; a reused transaction is left to its owner |
| `MovementUsecase.ConfirmMovement` | services/inventory/domains/movement/usecase/usecase.go:399-441 | **Main result.** all or nothing, whatever statement or cache command fails: the tables are as before and the refusal is the one its error names, or the draft is confirmed, its warehouses exist and are active, its source and destination move by the totals of its lines and its rows announce the changes; then the tenant's product keys are gone from the cache |
| `MovementUsecase.ConfirmInTx` | services/inventory/domains/movement/usecase/usecase.go:407-430 | the callback: lock, checks, stock, status, audit, outbox |
| `MovementUsecase.ApplyMovement` | services/inventory/domains/movement/usecase/usecase.go:408-422 | lock, status check, warehouse checks and stock in the source's order of errors; the balance rows locked are those of the movement's lines up to where it stopped |
| `MovementUsecase.MarkConfirmed` | services/inventory/domains/movement/usecase/usecase.go:423-428 | compare-and-set of the status, then the audit row, refused exactly when its columns cannot hold the client's address or request id |
| `MovementUsecase.FinishConfirm` | services/inventory/domains/movement/usecase/usecase.go:423-429 | status, audit row and outbox rows of a movement whose stock is applied |
| `MovementUsecase.CommittedMeans` | services/inventory/domains/movement/usecase/usecase.go:407-430 | a committed confirm has that effect, said without the functions that compute it |
| `MovementUsecase.RefusedMeans` | services/inventory/domains/movement/usecase/usecase.go:407-430 | a refused confirm has the reason of its error: no such movement, no draft, a warehouse missing or inactive, too little stock, an overflow, a product gone, unfit audit columns |
| `MovementUsecase.EmitOutbox` | services/inventory/domains/movement/usecase/emit.go:65-141 | under consecutive ids the rows inserted are MovementCreated, then StockChanged of every change in order, with StockBelowThreshold directly behind it exactly when the level is positive and above the new quantity; a missing product aborts |
| `MovementUsecase.EmitChange` | services/inventory/domains/movement/usecase/emit.go:87-138 | one change: StockChanged with its key and quantities, then the product's level, and StockBelowThreshold exactly when the level is positive and above the new quantity |
| `MovementUsecase.EmitThreshold` | services/inventory/domains/movement/usecase/emit.go:110-141 | one row when the level is positive and above the new quantity, none otherwise |
| `MovementUsecase.LookUpLevel` | services/inventory/domains/movement/usecase/emit.go:110-115 | the level is the stored product's or the cached one's; not found only if neither exists |
| `MovementUsecase.InsertEvent` | services/inventory/domains/outbox/repository/repository.go:58-69 | appends one unpublished row under the next id |
| `MovementUsecase.ValidateWarehousesActive` | services/inventory/domains/movement/usecase/usecase.go:284-306 | without a fault it succeeds exactly when every named warehouse exists, belongs to the tenant, is not deleted and is active; else the first that fails, source before destination, decides: a validation error when it exists, not found otherwise |
| `MovementUsecase.CancelMovement` | services/inventory/domains/movement/usecase/usecase.go:366-397 | succeeds exactly on a draft of the tenant, sets its status to cancelled and leaves everything else; another movement is refused as not found or as no draft |
| `MovementUsecase.CreateDraft` | services/inventory/domains/movement/usecase/usecase.go:176-246 | **Main result.** an accepted request is in order, its products were found and its warehouses are active; it is stored field by field as requested, as a draft, or replays the movement with its key and hash and changes nothing; every refusal has the reason of its error; whatever fails, every stored movement keeps the form a confirm relies on |
| `MovementUsecase.CheckNames` | services/inventory/domains/movement/usecase/usecase.go:190-219 | membership, lines and warehouses: success means that all are in order, and each refusal has its reason |
| `MovementUsecase.RequestReachesBalances` | services/inventory/domains/movement/usecase/usecase.go:221-235 | **Main result.** a request stored as a draft and then confirmed lowers the source it named and raises the destination it named by its totals, by kind, and moves nothing else |
| `MovementUsecase.OnlyUnfitTextsAreRefused` | infra/database/migrations/0007_movements.sql:9-15 | a create that passes every check has its header refused by the table exactly when its reference has more than 100 characters or its reference, key or notes contain a NUL |
| `MovementUsecase.LongReference` | infra/database/migrations/0007_movements.sql:9 | a request with a 101-character reference passes every check and is refused |
| `MovementUsecase.NulReference` | infra/database/migrations/0007_movements.sql:9 | the reference a, NUL, b passes every check and is refused |
| `MovementUsecase.RefusedLineIsReplayed` | services/inventory/domains/movement/repository/repository.go:127-178 | after the INSERT of a line was refused, the same create sent again answers with the stored movement, which has only the lines before |
| `MovementUsecase.NulInLineNotes` | infra/database/migrations/0007_movements.sql:41 | a NUL in the notes of the second line does this to a request that passes every check |
| `MovementUsecase.ValidationMirrorsConstraint` | services/inventory/domains/movement/usecase/validation.go:11-43 | the validation accepts exactly what the table constraint accepts, except adjustments naming both warehouses |
| `MovementUsecase.AcceptedCreateReplays` | services/inventory/domains/movement/usecase/usecase.go:248-267 | sending an accepted create again replays the movement it inserted, even if only some lines were stored |
| `MovementUsecase.CheckLines` | services/inventory/domains/movement/usecase/usecase.go:202-210 | every accepted line has a positive quantity and a product that was found; a validation error means that some line has no product or no positive quantity, not found that some product is gone |
| `MovementUsecase.StoreDraft` | services/inventory/domains/movement/usecase/usecase.go:221-235 | the repository call behind the checks: the row is stored as requested or the one with the key is replayed; the tables refuse it exactly when the header's texts do not fit, or the header is inserted and the notes of a line do not fit; conflicts have their reasons |
| `MovementUsecase.ServedAfterFill` | services/inventory/domains/catalog/usecase/products_usecase.go:113-134 | a value served from a cache filled on the way could have been served before |
| `Refinement.ConfirmIsSerialStep` | services/inventory/domains/movement/usecase/usecase.go:407-430 | **Main result.** what a committed confirm does to the tables is the confirm step of the serial machine every concurrent run is equivalent to |
| `Refinement.CancelIsSerialStep` | services/inventory/domains/movement/usecase/usecase.go:366-397 | the same for a cancel |
| `Refinement.RowsAgree` | services/inventory/domains/outbox/repository/repository.go:58-69 | inserting the rows one by one under consecutive ids is the outbox of the serial machine |
| `MovementRepository.CreateIsIdempotent` | services/inventory/domains/movement/repository/repository.go:145-192 | **Main result.** over any run, a key used with a 64-character hash replays the original row for the same hash and is refused for another, in every later status, unless the columns cannot hold the new request |
| `MovementRepository.UsedReferenceConflicts` | services/inventory/domains/movement/repository/repository.go:163-178 | a new key with a used reference is refused, with a conflict unless the columns cannot hold the request, in every later state |
| `MovementRepository.RunKeeps` | infra/database/migrations/0007_movements.sql:18-19 | **Main result.** at most one movement per tenant and reference and per tenant and key; rows are never lost; identity and final statuses never change |
| `MovementRepository.Create` | services/inventory/domains/movement/repository/repository.go:93-143 | replay, refusal or insertion as columns and constraints decide; an inserted row has the requested tenant, kind, source, destination and lines, the trimmed reference and key, the normalised hash, and is a draft; an error can leave it with the first lines, and nothing else; a refused line is the first that does not fit |
| `MovementRepository.InsertMovement` | services/inventory/domains/movement/repository/repository.go:107-136 | behind the check for duplicates: the header and all lines, or the header with the first lines when a statement fails or a line does not fit |
| `MovementRepository.InsertLines` | services/inventory/domains/movement/repository/repository.go:127-136 | one statement per line; a failure leaves a prefix, and a refusal exactly the lines before the first one that does not fit |
| `MovementRepository.HandleCreateDuplicate` | services/inventory/domains/movement/repository/repository.go:163-178 | replay on a matching hash, idempotency error on another, conflict without the key |
| `Creates.DecideMeans` | services/inventory/domains/movement/repository/repository.go:118-178 | of a request whose texts fit: the row with its key is replayed when it was created under the same request hash and is an idempotency conflict otherwise; without such a row a used reference is a conflict and anything else is inserted |
| `MovementRepository.GetByTenantAndIdempotencyKey` | services/inventory/domains/movement/repository/repository.go:145-161 | finds the one row of a key or none |
| `MovementRepository.GetByID` | services/inventory/domains/movement/repository/repository.go:202-237 | the movement of that tenant, or not found |
| `MovementRepository.UpdateStatus` | services/inventory/domains/movement/repository/repository.go:293-306 | compare-and-set of the status of that row only |
| `Text.NormalizeIsIdempotent` | services/inventory/domains/movement/repository/repository.go:180-192 | normalising a stored hash again changes nothing, so comparing with a stored hash is sound |
| `Relay.RelayPublishBatch` | services/inventory/domains/outbox/repository/relay.go:27-62 | **Main result.** publishes and marks exactly the lowest unpublished rows in order; an error keeps the rows before it and can leave one entry of the failed row |
| `Relay.RelayRow` | services/inventory/domains/outbox/repository/relay.go:34-52 | one row: published and marked, or unmarked with at most its own entry in the stream |
| `Relay.SelectLowest` | services/inventory/domains/outbox/repository/relay.go:36-42 | the lowest unpublished id, or none is left |
| `Relay.EventStream.PublishOne` | workers/internal/outboxrelay/relay.go:95-120 | nothing is sent without a secret; otherwise the entry carries the row's id and event |
| `Relay.MarksOneMore` | services/inventory/domains/outbox/repository/relay.go:47-51 | marking the next lowest row extends the batch |
| `Relay.MarksLowestIsUnique` | services/inventory/domains/outbox/repository/relay.go:33-61 | the number of rows a batch publishes determines which rows and what is left |
| `RelayWorkers.WorkersAreSafe` | services/inventory/domains/outbox/repository/relay.go:26-42 | under any interleaving of relays and crashes no row is held twice, entries match their rows, and a published row appears exactly once more than its attempts aborted after the publish |
| `ManyRelays.OneRelayKeepsOrder` | services/inventory/domains/outbox/repository/relay.go:26-42 | **Main result.** with at most n relay transactions open at once, the stream keeps the order of every balance row in every run exactly when n is at most one |
| `ManyRelays.RelaysAreSafe` | services/inventory/domains/outbox/repository/relay.go:26-42 | **Main result.** the same safety for any number of relays on the outbox of the real transactions |
| `ManyRelays.ReachTwoReceipts` | services/inventory/domains/movement/usecase/usecase.go:407-430 | a run that confirms two receipts of one balance row |
| `ManyRelays.Overtaken` | services/inventory/domains/outbox/repository/relay.go:36-42 | a stream in which the second change of a row overtook the first follows no prefix of its history |
| `Backoff.BackoffBound` | workers/internal/outboxrelay/relay.go:48-81 | **Main result.** for every configuration, after k failures the backoff is min(minB 2^k, maxB), for every k, exactly when minB <= maxB < 2^62 ns |
| `Backoff.JitterBound` | workers/internal/outboxrelay/relay.go:122-129 | **Main result.** for every configuration, every sleep is the backoff plus its draw, in [backoff, 1.25 backoff), without a panic, exactly when both settings are at least 4 ns and below 2^62 ns |
| `Backoff.NegativeDelay` | workers/internal/outboxrelay/relay.go:77 | with a larger setting some delay is negative |
| `Backoff.Run` | workers/internal/outboxrelay/relay.go:40-93 | behind k failures in a row the loop sleeps the jittered backoff of k, behind an empty batch the poll interval, behind any other batch not at all; any success starts the count again |
| `Backoff.DelaysAreSleeps` | workers/internal/outboxrelay/relay.go:40-93 | the delays specified iteration by iteration are these sleeps |
| `Backoff.StreakIsCounted` | workers/internal/outboxrelay/relay.go:48-81 | the failures counted are those since the last success |
| `Backoff.OverflowHappens` | workers/internal/outboxrelay/relay.go:77 | with a larger cap some number of failures breaks the bound |
| `EventBus.RetryBound` | pkg/eventbus/retry_dlq.go:39-65 | **Main result.** a message without a counter that always fails is requeued exactly max(0, maxRetry) times and then dead-lettered with one more, exactly when maxRetry is below the largest int64 |
| `EventBus.RequeueDecreases` | pkg/eventbus/retry_dlq.go:39-52 | **Main result.** each requeue lowers maxRetry + 1 - RetryCount, from any starting values, exactly when the counter is not the largest int64 |
| `EventBus.FieldsSurvive` | pkg/eventbus/retry_dlq.go:15-25 | every field that is not retry metadata survives all hops |
| `EventBus.MetadataThroughRedis` | pkg/eventbus/types.go:164-189 | the counter survives its text form |
| `EventBus.HopCounts` | pkg/eventbus/retry_dlq.go:39-65 | one failed delivery raises the counter by one and requeues while within the limit |
| `EventBus.HopOutcome` | pkg/eventbus/processing.go:61-70 | a permanent error or a used-up counter dead-letters, and only a transient one counts |
| `EventBus.HopKeepsFields` | pkg/eventbus/retry_dlq.go:15-25 | the copy carries the error, the reason when it is a dead letter, and every other field as it was |
| `EventBus.CopyIsCopy` | pkg/eventbus/retry_dlq.go:27-90 | a failed message is copied to its own stream exactly when the failure is transient and its counter is below the limit, else to the given dead-letter stream, or dlq: and its stream when none is given; the copy has its fields as text, the next counter, the error, and the reason of a dead letter |
| `EventBus.NeverDead` | pkg/eventbus/retry_dlq.go:39-52 | with the largest limit no number of failures dead-letters |
| `EventBus.Client.HandleMessage` | pkg/eventbus/processing.go:27-80 | **Main result.** whatever command fails, a message leaves the pending list only after it was handled, recognised as a duplicate, or copied; at most one copy is made, to its own stream exactly when the failure is transient and its counter is below the limit and to the dead-letter stream otherwise, with the fields, counter, error and reason due |
| `EventBus.Client.AcquireIdempotency` | pkg/eventbus/idempotency.go:18-31 | set-if-absent |
| `EventBus.Client.Publish` | pkg/eventbus/publish.go:11-29 | refuses an empty stream or payload, otherwise adds the text form |
| `EventBus.HopOf` | pkg/eventbus/processing.go:63-67 | the copy is never empty, so publishing it is not refused for that |
| `ConsumerSafety.NoMessageLost` | pkg/eventbus/processing.go:27-80 | **Main result.** arrivals of one event counting as one message, and messages arriving without a retry_count: at every step and crash point each message that arrived is undelivered, pending, handled or dead-lettered, exactly when no idempotency key is used, or nothing is requeued or read again and dead letters go to a stream other than the one read; keys are those of BuildIdempotencyKey, and where a copy goes is where HandleMessage publishes it |
| `ConsumerSafety.NoArrivalLost` | pkg/eventbus/processing.go:27-80 | **Main result.** the same for every single arrival, or a copy of it, with or without an event id, exactly when no idempotency key is used |
| `ConsumerSafety.SecondArrivalLost` | pkg/eventbus/processing.go:37-50 | with keys, the second arrival of an event is skipped while the first is still being worked on |
| `ConsumerSafety.KeyNamesMessage` | pkg/eventbus/idempotency.go:10-16 | an entry's key stands for its message: its event when one decodes, its arrival otherwise |
| `ConsumerSafety.HandleMessageIsSteps` | pkg/eventbus/processing.go:27-80 | **Main result.** whatever a call of HandleMessage may have done, whichever command failed, steps of the concurrent system do |
| `ConsumerSafety.StartsOnce` | pkg/eventbus/processing.go:37-50 | **Main result.** with keys the handler starts at most once per key: per event when it decodes, per entry otherwise |
| `ConsumerSafety.CopyKeepsName` | pkg/eventbus/retry_dlq.go:27-90 | a requeued or dead-lettered copy is the same message, by its arrival and by its event |
| `ConsumerSafety.StepKeepsSafe` | pkg/eventbus/processing.go:53-79 | every effect except a skip keeps every message safe |
| `ConsumerSafety.SkipKeepsSafe` | pkg/eventbus/processing.go:42-49 | without requeues, without re-reading and with dead letters in another stream a skip is harmless |
| `ConsumerSafety.RequeueLoses` | pkg/eventbus/processing.go:37-50 | with the built key, a copy of a complete event that comes back into its stream, by a requeue or as a dead letter, is skipped and its message lost |
| `ConsumerSafety.SampleComesBack` | pkg/eventbus/retry_dlq.go:39-90 | such a copy of a complete event goes to the stream read and has the event's key |
| `ConsumerSafety.RereadLoses` | pkg/eventbus/processing.go:37-50 | with a key, a crash followed by a second read loses the message |
| `Envelope.SignatureSurvives` | pkg/eventbus/signing.go:14-36 | **Main result.** sign, encode, fail any number of times, decode, verify: the signature holds exactly when the version is 1 |
| `Envelope.DecodeOfEncode` | pkg/eventbus/types.go:76-142 | an encoded event, after any hops, decodes to itself with the defaults filled in, except for its version |
| `Envelope.VersionIsLost` | pkg/eventbus/types.go:118-121 | decoding always yields version 1 |
| `Envelope.CanonicalTellsVersions` | pkg/eventbus/signing.go:39-62 | the signed text distinguishes versions |
| `Envelope.CanonicalTellsPayload` | pkg/eventbus/signing.go:39-62 | and payloads, and publication times |
| `Text.AtoiOfItoa` | pkg/eventbus/types.go:181-186 | decimal text reads back as the same int64 |
| `CacheKeys.PatternIsTenantLocal` | pkg/cache/keys.go:34-36 | **Main result.** a tenant's product pattern matches exactly its own keys beginning with product |
| `CacheKeys.PatternCoversProductKeys` | pkg/cache/keys.go:29-40 | the pattern covers every product and product-list key of the tenant |
| `CacheKeys.PatternSparesOthers` | pkg/cache/keys.go:34-40 | and none of another tenant |
| `CacheKeys.KeysAreDistinct` | pkg/cache/keys.go:29-40 | different products, different lists, and a product and a list, never share a key |
| `CacheKeys.FingerprintIsTail` | pkg/cache/keys.go:84-99 | any two queries share a fingerprint exactly when page, limit and the joined rest of their normal forms agree |
| `CacheKeys.FingerprintIsOwn` | pkg/cache/keys.go:84-99 | **Main result.** a query shares its fingerprint with no different query exactly when its sort and order contain no separator, each one in its search follows white space and each one in its category precedes it |
| `CacheKeys.UnambiguousIsOwn` | pkg/cache/keys.go:96-99 | such a query is told from every other, whatever the other contains |
| `CacheKeys.AmbiguousHasRival` | pkg/cache/keys.go:84-99 | every other query has a different one with the same joined text |
| `ListQueries.AgreesWithAll` | services/inventory/domains/catalog/repository/product_repository.go:45-109 | a query agrees, wherever its joined text is cut, exactly when every query that shares its entry and can be answered has the same page, search, sort column, direction and category |
| `ListQueries.ColumnsHaveNames` | services/inventory/domains/catalog/repository/product_repository.go:49-81 | each sort column is selected by its own name and the descending order by desc, up to case and surrounding space |
| `ListQueries.AgreesIsSteady` | services/inventory/domains/catalog/repository/product_repository.go:49-81 | **Main result.** for a query that can be answered this is so exactly when every separator in its search follows white space and, should sort and order joined contain more than the one separator between them, what precedes any but the last names no column but the default and could not end a normal search, and what follows any but the first does not ask for a descending order |
| `ListQueries.OwnEntryAgrees` | pkg/cache/keys.go:84-99 | a query with a fingerprint of its own that can be answered agrees |
| `CacheKeys.LiteralThenStar` | pkg/cache/redis.go:50 | a literal followed by a star matches exactly its extensions |
| `Cache.Redis.DeletePattern` | pkg/cache/redis.go:42-64 | following the cursor to the end removes every matching key and nothing else; it may stop early only at an error |
| `Cache.Redis.Get` | pkg/cache/redis.go:16-25 | an error and a missing key look the same |
| `Cache.Redis.Set` | pkg/cache/redis.go:27-32 | stores the entry, or nothing changed |
| `Cache.Redis.Delete` | pkg/cache/redis.go:34-39 | removes exactly the keys |
| `Catalog.GetProduct` | services/inventory/domains/catalog/usecase/products_usecase.go:113-134 | answers the cached or the stored product, and caches only what is stored |
| `Catalog.ListProducts` | services/inventory/domains/catalog/usecase/products_usecase.go:41-111 | answers the cached or the current page and caches only the current one; every item of a page that is not served from the cache is a product of the table with the total of its balances; a query the database cannot answer is an error unless something is cached under its key |
| `Catalog.PageNowShowsStock` | services/inventory/domains/catalog/repository/product_repository.go:90-143 | the current page selects among the tenant's undeleted products and shows each with the total of its balances |
| `Catalog.SumStock` | services/inventory/domains/catalog/repository/product_repository.go:126-141 | the stock sum over the warehouses of the tenant |
| `Catalog.CreateProduct` | services/inventory/domains/catalog/usecase/products_usecase.go:150-206 | decides as specified, limits of the columns included, touches one row, invalidates only on success |
| `Catalog.UpdateProduct` | services/inventory/domains/catalog/usecase/products_usecase.go:208-284 | the same; a failed read behind the UPDATE skips the invalidation |
| `Catalog.DeleteProduct` | services/inventory/domains/catalog/usecase/products_usecase.go:286-323 | the same, refused while any balance is positive |
| `Catalog.RestoreProduct` | services/inventory/domains/catalog/usecase/products_usecase.go:325-350 | the same, only for a deleted product |
| `Catalog.CreateMeans` | services/inventory/domains/catalog/usecase/products_usecase.go:150-206 | a create stores the trimmed SKU and name, the category, the reorder level or 0; otherwise the first reason of a refusal that applies |
| `Catalog.UpdateMeans` | services/inventory/domains/catalog/usecase/products_usecase.go:208-284 | an update stores the fields it names and leaves the others; otherwise the first reason of a refusal that applies |
| `Catalog.DeleteAndRestoreMean` | services/inventory/domains/catalog/usecase/products_usecase.go:286-350 | a delete only sets the mark, refused for a missing product or a positive balance; a restore only clears it |
| `Catalog.InvalidateAfterProductWrite` | services/inventory/domains/catalog/usecase/cache_inval.go:15-19 | only removes keys; all product keys of the tenant when no command fails |
| `Catalog.InvalidateAfterCategoryWrite` | services/inventory/domains/catalog/usecase/cache_inval.go:9-13 | the same after a category write |
| `Catalog.WritesKeepSkus` | services/inventory/domains/catalog/repository/product_repository.go:193-198 | no accepted write gives a tenant one SKU twice, counting deleted products |
| `Catalog.OnlyUnfitColumnsAreRefused` | infra/database/migrations/0004_products.sql:6-10 | a product create or update in order is refused by the table exactly when its SKU has more than 100, its name more than 255 or its unit more than 50 characters, one of these or its description contains a NUL, or its price reaches 9999999999999.995 |
| `Catalog.RestoreUndoesDelete` | services/inventory/domains/catalog/repository/product_repository.go:266-300 | restore undoes delete, and delete undoes restore while there is no stock |
| `Catalog.ReadsReflectWrites` | services/inventory/domains/catalog/repository/product_repository.go:146-158 | a read after a write finds the written product, or nothing after a delete |
| `Catalog.UpdateIsIdempotent` | services/inventory/domains/catalog/repository/product_repository.go:202-264 | repeating an accepted update changes nothing, and an update that names no field changes nothing |
| `Catalog.InvalidationKeeps` | services/inventory/domains/catalog/usecase/cache_inval.go:15-19 | a write that concerns one tenant followed by its invalidation keeps the cache coherent |
| `Catalog.FillPageKeeps` | services/inventory/domains/catalog/usecase/products_usecase.go:107-109 | caching the current page keeps the cache coherent |
| `Catalog.FillOneKeeps` | services/inventory/domains/catalog/usecase/products_usecase.go:130-132 | caching the stored product keeps the cache coherent |
| `Catalog.ProductWriteIsLocal` | services/inventory/domains/catalog/repository/product_repository.go:249-251 | writing one product is invisible to other tenants |
| `Warehouses.DeleteWarehouse` | services/inventory/domains/warehouse/usecase/usecase.go:229-266 | deletes only a warehouse of the tenant without positive stock |
| `Warehouses.CreateWarehouse` | services/inventory/domains/warehouse/usecase/usecase.go:150-183 | inserts a warehouse, refused for blank, too long or taken values |
| `Warehouses.UpdateWarehouse` | services/inventory/domains/warehouse/usecase/usecase.go:185-227 | changes code, name and active flag of an existing warehouse with the same refusals |
| `Warehouses.CreateMeans` | services/inventory/domains/warehouse/usecase/usecase.go:150-183 | a create stores the trimmed code and name, active unless asked otherwise; else the first reason of a refusal that applies |
| `Warehouses.UpdateMeans` | services/inventory/domains/warehouse/usecase/usecase.go:185-227 | an update stores the fields it names, the active flag among them, and leaves the others; else the first reason of a refusal that applies |
| `Warehouses.DeleteMeans` | services/inventory/domains/warehouse/usecase/usecase.go:229-266 | a delete switches off and hides a warehouse, refused when it is missing or has a positive balance |
| `Warehouses.WritesKeepCodes` | services/inventory/domains/warehouse/repository/repository.go:178-245 | no accepted write gives a tenant one code twice, counting deleted warehouses |
| `Warehouses.ReadsReflectWrites` | services/inventory/domains/warehouse/repository/repository.go:164-245 | a read after a write finds the written warehouse, or nothing after a delete |
| `Warehouses.GetWarehouse` | services/inventory/domains/warehouse/repository/repository.go:164-176 | the undeleted warehouse of that tenant, or not found |
| `WorldLaws.CacheIsCoherent` | services/inventory/domains/catalog/usecase/cache_inval.go:9-23 | **Main result.** in every sequential run with any list queries and arbitrary evictions, every cached product, and every cached list of a query that shares its entry only with queries of the same effect, is what the repository would return now, exactly when no invalidation is left undone |
| `WorldLaws.ListIsAlwaysRight` | services/inventory/domains/catalog/usecase/products_usecase.go:80-109 | **Main result.** with every invalidation carried out, the cached list of a query is right in every run, for every database and every filtering of it by page, search, sort column, direction and category, exactly when every query that shares its entry and can be answered agrees with it in these; for a query that can be answered itself, exactly when it is steady |
| `WorldLaws.CachedListShowsStock` | services/inventory/domains/catalog/usecase/products_usecase.go:80-109 | in every sequential run with reliable invalidation, the cached list of a query that agrees with its neighbours shows the tenant's undeleted products with the totals of their balances now |
| `WorldLaws.ConfirmGains` | services/inventory/domains/movement/usecase/stock_apply.go:27-40 | a confirm changes the total of a product by what its lines bring or take |
| `WorldLaws.ListAfterConfirm` | services/inventory/domains/movement/usecase/usecase.go:434-436 | **Main result.** a list read after a confirm, from the cache or not, shows for each item the total before it plus what the movement brought or took |
| `WorldLaws.RivalIsServed` | services/inventory/domains/catalog/usecase/products_usecase.go:80-87 | for some filtering of the database, a query that shares its entry with one of another effect is served the page of that one |
| `WorldLaws.DeletedProductsHoldNoStock` | services/inventory/domains/catalog/usecase/products_usecase.go:296-311 | **Main result.** in every sequential run a deleted product has no stock anywhere, even when drafts named it, exactly when no invalidation is left undone |
| `WorldLaws.WarehousesAlwaysStand` | services/inventory/domains/warehouse/usecase/usecase.go:239-254 | **Main result.** in every sequential run stock lies only in undeleted warehouses, whatever happens to the cache |
| `World.StepKeepsCoherent` | services/inventory/domains/catalog/usecase/cache_inval.go:9-23 | every operation keeps the cache coherent |
| `World.StepKeepsProducts` | services/inventory/domains/movement/usecase/emit.go:110-114 | every operation keeps stock to undeleted products, a confirm because its lookup aborts it |
| `WorldLaws.StaleEntryLetsStockIn` | services/inventory/domains/movement/usecase/usecase.go:434-436 | one invalidation left undone lets a confirm put stock on a deleted product |
| `World.ConfirmKeepsCoherent` | services/inventory/domains/movement/usecase/usecase.go:434-436 | a confirm as the method carries it out keeps the cache coherent |
| `World.ThresholdsAreStored` | services/inventory/domains/movement/usecase/emit.go:110-117 | on a coherent cache the thresholds compared with are the stored reorder levels |
| `World.StockIsLocal` | services/inventory/domains/movement/usecase/stock_apply.go:27-40 | a confirm leaves the stock totals of other tenants as they are |

## Left out

- HTTP handlers, wiring, configuration, logging, authentication, roles and the dashboard: no hard property. A confirm by
  a token whose subject has no row in users is refused by the foreign key of audit_logs.user_id; this is not modelled.
- Category tree, warehouse lists and audit listing: easy members. `CreateWarehouse` does not invalidate warehouse lists,
  so nothing is claimed about them; `RestoreProduct` does not re-check the category, so nothing is claimed about that.
- Product fields without influence on any branch but a refusal (description, unit, price) are not stored; metadata, what
  JSONB refuses in it, and timestamps are left out, and so are the address of a warehouse and its refusal for a NUL.
- The content of movement notes: they only decide whether a create is refused.
- `reserved_quantity`: no code writes it.
- The best-effort audit rows of creating, cancelling and catalogue writes, and the Pub/Sub notification after a confirm.
- The `transfer lock mismatch` and unknown-type branches: the keys and the enumerated type make them unreachable.
- Expiry of idempotency keys, and counters stored as floating point or other types.
- Glob character classes and escapes, and the filtering, ordering and paging inside SQL: `Catalog.Config.select` is any
  function of the tenant's undeleted products and of page, limit, search, sort column, direction and category.
- Loss of the connection after a COMMIT was sent: a failing commit counts as a rollback.
- Serializability.Serializable: warehouse checks and product lookups are reads outside the transaction; the reorder levels they find are arbitrary, so concurrent deletions are not covered there.
- WorldLaws.CacheIsCoherent: list queries that share an entry with one of another effect are not claimed to be coherent, since they are not (ListIsAlwaysRight); sequential runs only; a reader that stores an old row after a concurrent invalidation is not covered.
- WorldLaws.DeletedProductsHoldNoStock: sequential runs only, for the same reason.
- WorldLaws.WarehousesAlwaysStand: sequential runs only; the warehouse check of a confirm is not locked.
- Deadlock.PrimitivesNeverDeadlock: rows of one tenant, since rows of different tenants never meet.
- ConsumerSafety.StartsOnce: keys do not expire.
- Cache.Redis.DeletePattern: no other client adds keys during the scan.
- MovementUsecase.CreateDraft: tenant membership is a parameter.
- ConfirmDeadlock.ConfirmsDeadlock: the lengths of ids and references are not limited in the concurrent system.
- Relay.RelayPublishBatch: one relay; several are the subject of RelayWorkers and ManyRelays.
