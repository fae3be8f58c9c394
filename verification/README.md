# Catalogue service: a Dafny model of its protocols and stores

The catalogue service keeps products in PostgreSQL, announces every change on a Kafka topic through a
transactional outbox, and answers reads through a Redis cache. A second, in-memory repository serves as a
stand-in for the database. This project models

* **the outbox** as a labelled transition system: transactions that change a product and record an event, and
  any number of publishers that fetch, publish and mark, with a failure possible at every call and a crash
  between any two (`Outbox`), the theorems about all its runs (`OutboxDelivery`, `OutboxOrder`, `OutboxSequence`,
  `OutboxOvertaking`, `OutboxRebuild`, `OutboxHistory`, `OutboxAccounting`, `OutboxDrain`, `OutboxDrainSharp`), and
  the publisher's own program, proved to be a run of that system whatever others do meanwhile (`OutboxPublisher`);
* **the repositories** as classes: the PostgreSQL one with its transactions and its compiled UPDATE statement
  (`PostgresRepository`, `UpdateStatement`, `Database`, `Listing`), the in-memory one with its slice and map
  (`InMemoryRepository`, proved against `Shop`, whose runs are the subject of `ShopProperties`), and how far the two
  agree (`Backends`);
* **the cache** as a keyed store with expiry (`RedisKeys`, `RedisCache`), the cache-aside repository over it,
  which refines the repository underneath when calls do not overlap (`CachedRepository`), and a second
  transition system for calls that do overlap (`Staleness`), of which those calls are runs (`CachedCalls`);
* **the service layer** over either repository (`Catalog`) and **start and shutdown** of the process with its goroutines, error
  channel and wait group (`Lifecycle`).

Failures, ids, clock values and the answers of PostgreSQL, Redis and Kafka are parameters or labels, and so is what
others do to the shared stores in the pauses of a call (`Meanwhile`), so every theorem covers every choice of them. A run is a list of labels; `After(s, ls)` is the state it leads to.

Assumptions, each a hypothesis where it is used:

* `InCommitOrder`: `created_at` follows commit order without ties. The column defaults to NOW(), the start of
  a transaction, so the database alone does not promise this. Only the theorems about order and rebuilding
  use it; the drain bound asks it only of rows that arrive later than the event in question.
* `Tick` in `Staleness`: a reader fills the cache no later than `delay` after its database read.
* `ScanPromise`: SCAN returns every matching key that is there throughout, and only matching keys. The scan of
  an invalidation reaches cursor zero or an error after finitely many calls (`Terminates`).
* `NeverOvertakes(.., ks)` for the order of the products `ks`, and with it for rebuilding them.
  `OrderIffNoOvertaking` shows that it is the exact condition, for one product as for all, and
  `RebuildProductExactly` says exactly when a consumer ends up with a product as the table has it. The comment in
  `internal/events/producer.go:58` says that the message key guarantees the order of one product's events. The key
  decides the partition, but after a failed publish call the publisher goes on with the next event of the batch, so
  the log itself can hold one product's events in the wrong order; `OneFailureBreaksOrderAndRebuild` is such a run.
  The model follows the code.
* `RefusesOnlyUnstorable`, for comparing the backends over runs: PostgreSQL rejects statements for the sake of their
  text only if the text is not `Storable`, that is, holds U+0000 or is a SKU of more than 600 characters, which may
  be too long for the unique index. Which of those it rejects is left open (`refuses`); the in-memory repository
  takes any text.

The two backends give a new product different ids: the in-memory one numbers them, the PostgreSQL one draws a uuid. Up to
those ids, for any choice of fresh ones, they answer calls alike except where `AnswersAgreeExactly` and
`ListingsAgreeExactly` say: text the database cannot take; a negative price or a negative initial stock, which the
database's CHECK constraints refuse and the in-memory repository does not (the service layer refuses both before either
sees them); a stock sum beyond 32 bits, which one reports as too little stock and the other as a database error; and the
order of listings, which is the order of creation in one and the order of ids in the other. Apart from that the in-memory
repository generates an id already in use if the seed holds an id `prod-k` with k beyond the seed's size (`SafeSeeds`).

## Model

| member | source | states |
|---|---|---|
| OutboxDelivery.NoLoss | internal/outbox/publisher.go:83-103 | after any run, with any failures and any number of publishers, a row marked sent has its message in the log |
| OutboxDelivery.NoInvention | internal/events/producer.go:72-83 | every message in the log agrees with the one outbox row of its event id in topic, key, type, headers and payload, and that row was committed |
| OutboxDelivery.NothingReverts | internal/outbox/publisher.go:108-135 | between any two points of a run: sent stays sent, attempts never fall, rows keep their identity, log and outbox only grow |
| OutboxDelivery.RunIsSound | internal/outbox/publisher.go:77-135 | the invariant behind them: batches are faithful copies of rows, an event about to be marked sent is in the log, the outbox stays the change log of the products |
| OutboxOrder.FetchIsOrdered | internal/outbox/publisher.go:137-147 | a fetched batch leaves nothing out: whatever is older than one of its events is in the log already or stands before it in the batch |
| OutboxOrder.RunIsOrdered | internal/outbox/publisher.go:77-106 | invariant of all runs in commit order: batches, even stale and overlapping ones, never hide an older event that was neither delivered nor reported as failed |
| OutboxSequence.DeliveryFollowsCommits | internal/outbox/publisher.go:83-103 | once an event is in the log, each older event is too, or one of its publish calls failed |
| OutboxOvertaking.RunIsGapless | internal/outbox/publisher.go:137-147 | whatever fails, each publisher's batch stays in commit order and everything older than one of its events is delivered or earlier in the batch |
| OutboxOvertaking.DeliveryKeepsOrderExactly | internal/outbox/publisher.go:93-103 | for any choice of products, one delivery keeps their events in commit order if and only if it does not pass an undelivered one of theirs in its own batch |
| OutboxOvertaking.OrderIffNoOvertaking | internal/events/producer.go:58 | for one product, or any choice of them, over whole runs with arbitrary failures: their first deliveries are a prefix of their commits if and only if no event of theirs ever overtook another in its batch |
| OutboxOvertaking.NoFailureNoOvertaking | internal/outbox/publisher.go:93-100 | only a failed publish call for one of the products themselves can lead to overtaking among them |
| OutboxOvertaking.InOrderWithoutGaps | internal/outbox/publisher.go:137-147 | if no publish call fails, the log without repetitions is a prefix of the commit order, whatever crashes, lost marks and overlapping batches there are |
| OutboxRebuild.ConsumerShowsLast | internal/outbox/publisher.go:77-106 | a consumer that drops repeated ids shows each product as its last event among the first deliveries left it |
| OutboxRebuild.TableShowsLast | internal/repository/postgres/product_repository.go:427-475 | the table shows each product as its last committed event describes it |
| OutboxRebuild.RebuildProduct | internal/outbox/publisher.go:77-106 | once all events of a product are delivered and none overtook another of the same product, the consumer holds it as the table does, even if publish calls for it failed and whatever happened to other products |
| OutboxRebuild.PlaceExactly | internal/events/producer.go:58 | a delivered event stands after all older ones of its product if and only if it never overtook one of them |
| OutboxRebuild.RebuildProductExactly | internal/events/producer.go:58 | for every run, once all events of a product are delivered: its newest event is the last one applied if and only if that event never overtook, and the consumer agrees with the table if and only if that is so or the event applied last says the same |
| OutboxRebuild.Rebuild | internal/outbox/publisher.go:77-106 | end to end: with every event delivered and no overtaking within a product, folding the log over the baseline gives the products table projected onto event fields |
| OutboxRebuild.RebuildWithoutFailures | internal/outbox/publisher.go:77-106 | in particular with no pending row and no failed publish call |
| OutboxHistory.PrefixShowsAPastTable | internal/outbox/publisher.go:77-106 | a consumer of a log in order sees exactly the table that existed when as many events had been committed as it received |
| OutboxHistory.ConsumerSeesAPastTable | internal/outbox/publisher.go:77-106 | in every run without overtaking, whatever else fails, the consumer never sees a table that never existed |
| OutboxHistory.ConsumerSeesAPastProduct | internal/outbox/publisher.go:77-106 | the same for one product, under the condition on that product alone: the consumer shows it as the table had it at some earlier moment |
| OutboxHistory.OneFailureBreaksOrderAndRebuild | internal/outbox/publisher.go:93-100 | a concrete run with one failed publish call: every row ends up sent, yet the events of one product are out of commit order and the consumer keeps the older stock |
| OutboxAccounting.EveryCopyIsAccounted | internal/outbox/publisher.go:83-103 | exact duplicate count for any number of publishers: copies of an event are its mark, redundant marks, lost marks, hidden deliveries and copies not yet marked, and nothing else |
| OutboxAccounting.LedgerCounts | internal/outbox/publisher.go:83-135 | what those four are, in steps of the run: hidden deliveries are the failed publish calls that delivered; a row is sent once a mark for it was applied, every further one is redundant; an acknowledged delivery is marked, lost or still on its way |
| OutboxAccounting.AttemptsCountFailures | internal/outbox/publisher.go:108-121 | after any run a row's attempts are exactly the failure marks applied to it |
| OutboxAccounting.OnePublisherNeverMarksTwice | internal/outbox/publisher.go:137-147 | with one publisher the events left in a batch are still pending, so no mark is redundant |
| OutboxAccounting.ExactlyOnce | internal/outbox/publisher.go:83-103 | with one publisher, no lost mark and no hidden delivery, an event is in the log exactly once if it is sent or its mark is outstanding, and otherwise not at all |
| OutboxDrain.DrainBound | internal/outbox/publisher.go:137-147 | with at most P < 100 rows up to an event that may fail, an event with k healthy ones before it is sent once any one publisher has finished k/(100-P)+1 batches with its own healthy publishes and marks succeeding, whatever newer rows arrive, whatever other publishers do or fail to do, and whoever crashes in between |
| OutboxDrain.HundredPoisonRowsStarveTheRest | internal/outbox/publisher.go:137-147 | the limit of 100 is sharp: if the hundred oldest pending rows always fail, no run ever delivers or marks anything behind them |
| OutboxDrainSharp.DrainBoundIsSharp | internal/outbox/publisher.go:137-147 | the number of batches is sharp: for every P < 100 and every k there is a run from the initial state in which, after k/(100-P) such batches, the event is still pending |
| OutboxPublisher.Producer.PublishRaw | internal/events/producer.go:72-83 | appends exactly one message made of topic, key, payload and the three headers, or none when the delivery was lost |
| OutboxPublisher.Publisher.FetchPending | internal/outbox/publisher.go:137-173 | succeeds exactly when query, every scan and the iteration succeed, and then returns the oldest pending rows in order, copied field by field |
| OutboxPublisher.Publisher.MarkSent | internal/outbox/publisher.go:123-135 | field by field: that one row becomes sent, its attempts and every other row stay, and nothing changes if the update fails |
| OutboxPublisher.Publisher.MarkFailed | internal/outbox/publisher.go:108-121 | field by field: that one row's attempts grow by one, its status and every other row stay, and nothing changes if the update fails |
| OutboxPublisher.Publisher.PublishAndMark | internal/outbox/publisher.go:83-103 | one turn of the loop: publish, then mark sent or failed according to the answer, with whatever others do before either call |
| OutboxPublisher.Publisher.PublishBatch | internal/outbox/publisher.go:77-106 | a failed fetch changes nothing; otherwise, whatever others do between any two calls, database and log end where a run of the protocol ends whose steps by this publisher are exactly fetch, then publish and mark for each event, then finish |
| OutboxPublisher.OthersRun | internal/outbox/publisher.go:77-106 | publishers do not notice each other: a run of others stays a run, with the same effect, beside a publisher in the middle of a batch |
| OutboxPublisher.TurnRuns | internal/outbox/publisher.go:83-103 | undisturbed, one turn of the loop is two steps of the protocol with exactly its effect on rows and log |
| Database.ExecuteKeepsTable | migrations/000001_create_products_table.up.sql:1-12 | the constraints survive every statement: keys match, SKUs stay unique, price and stock stay non-negative |
| Database.OutboxIsChangeLog | internal/repository/postgres/product_repository.go:210-475 | after any list of committed mutations, folding all payloads in commit order over the baseline gives the projected products table |
| Database.OutboxRecordsEachMutation | internal/repository/postgres/product_repository.go:427-475 | mutations and outbox rows are one to one, in order, and each row describes the product as its own transaction left it |
| PostgresRepository.ProductRepository.List | internal/repository/postgres/product_repository.go:41-118 | succeeds exactly when query, every scan and the iteration succeed; then as many rows as the window holds, the i-th being the row that exactly offset + i ids precede |
| PostgresRepository.ProductRepository.GetByID | internal/repository/postgres/product_repository.go:142-208 | the row with that id; "not found" exactly when there is none |
| PostgresRepository.ProductRepository.Create | internal/repository/postgres/product_repository.go:210-274 | whatever fails, product and event are both in or both out, and the answer is determined; an accepted create answers and stores, under the drawn id, every field of the command, active, with one product.created event |
| PostgresRepository.ProductRepository.Update | internal/repository/postgres/product_repository.go:276-357 | the same for an update that runs the built statement's own text and reads the returned row by position |
| PostgresRepository.ProductRepository.UpdateStock | internal/repository/postgres/product_repository.go:359-425 | the same for a stock change: the row's stock plus the delta, everything else as it was |
| PostgresRepository.ProductRepository.InsertOutboxEvent | internal/repository/postgres/product_repository.go:427-475 | adds one pending row with no attempts whose topic, key, type and payload say field by field what the product is, succeeding exactly when marshalling and insert do and the id is new |
| PostgresRepository.OutcomeKeepsChangeLog | internal/repository/postgres/product_repository.go:210-475 | any mutation call, failing anywhere, leaves the outbox the change log of the products |
| PostgresRepository.CallsAreCommits | internal/repository/postgres/product_repository.go:210-475 | any sequence of mutation calls amounts to a list of committed mutations that holds every accepted call and nothing but calls that were made |
| Listing.LessIsPrecedes | internal/repository/postgres/product_repository.go:59-64 | ids compare as text does: a proper prefix first, else the first differing character decides |
| Listing.SortedIdsSpec | internal/repository/postgres/product_repository.go:59-64 | the listing order: every id once, strictly increasing in that comparison |
| Listing.PageExactly | internal/repository/postgres/product_repository.go:59-64 | ORDER BY, LIMIT and OFFSET without sorting: the page is the only list of rows whose i-th one is preceded by exactly offset + i ids and that fills the window |
| UpdateStatement.RenderedStatementReads | internal/repository/postgres/product_repository.go:310-315 | round trip: splitting rendered text into words and signs and parsing them gives back the statement, for every table, column, condition and list of returned columns |
| UpdateStatement.CollectFields | internal/repository/postgres/product_repository.go:283-308 | clauses and arguments collected field by field do to every row what the command's patch does, with the counter one past the arguments |
| UpdateStatement.BuildUpdate | internal/repository/postgres/product_repository.go:283-315 | for every command the text parses, uses $1..$n once each for n arguments, and a reader that looks up table, condition and columns by their names in the text makes of any table what the patch makes, returns that row, or the same "not found" |
| UpdateStatement.ReturnedRowScans | internal/repository/postgres/product_repository.go:120-140 | reading the returned row by position gives back the product |
| Shop.NextIsGood | internal/repository/in_memory/product_repository.go:232-343 | every call keeps ids and SKUs distinct and generated ids fresh |
| Shop.RunIsGood | internal/repository/in_memory/product_repository.go:232-343 | so does every run |
| Shop.IndexFind | internal/repository/in_memory/product_repository.go:118-173 | the map holds an id exactly when the slice does, with the same product |
| Shop.GeneratedIdsDiffer | internal/repository/in_memory/product_repository.go:246 | different counters give different ids |
| Decimal.DigitsDenote | internal/repository/redis/cache.go:426-428 | decimal rendering denotes the number it renders |
| Decimal.RenderDenotes | internal/repository/redis/cache.go:426-428 | a rendered number denotes its value, after a minus sign if it is negative |
| Decimal.NoLeadingZero | internal/repository/in_memory/product_repository.go:246 | no rendered positive number starts with a zero |
| ShopProperties.SafeSeeds | internal/repository/in_memory/product_repository.go:24-47 | ids and SKUs stay distinct in every run if and only if no seed id is prod-k with k beyond the seed's size |
| ShopProperties.WrapIsExact | internal/repository/in_memory/product_repository.go:320-323 | for non-negative stock, the wrapped 32-bit sum is accepted exactly when the true sum fits, and then equals it |
| ShopProperties.WrapIsModular | internal/repository/in_memory/product_repository.go:320-323 | 32-bit addition keeps the sum modulo 2^32 |
| ShopProperties.CreatedIsLast | internal/repository/in_memory/product_repository.go:245-257 | an accepted create puts the product of the command's fields at the end of the list |
| ShopProperties.StockIsConserved | internal/repository/in_memory/product_repository.go:309-343 | over any run a product's stock is its first stock plus the accepted deltas, is never negative, and no product moves |
| ShopProperties.StockOfCreated | internal/repository/in_memory/product_repository.go:232-343 | a product created on the way starts with the command's stock, and from then on has that plus its accepted deltas |
| Backends.CreatesAgreeExactly | internal/repository/in_memory/product_repository.go:232-265 | whatever fresh id the database draws, both backends answer a create alike up to the id if and only if price and stock are not negative |
| Backends.PatchesAgreeExactly | internal/repository/postgres/product_repository.go:283-315 | text the database takes assumed, both answer an update alike, row or "not found", if and only if the command names no negative price for an existing product |
| Backends.StocksAgreeExactly | internal/repository/in_memory/product_repository.go:309-333 | both answer a stock call alike if and only if the sum does not exceed 2^31-1, and accept it alike always |
| Backends.AnswersAgreeExactly | internal/repository/postgres/product_repository.go:210-425 | the three together, for any text: same answer up to the id, errors included, if and only if the database takes the text and the call meets a condition that can be checked before it |
| Backends.ExecutesAlikeExactly | migrations/000001_create_products_table.up.sql:1-12 | text aside, the database accepts a call if and only if the in-memory repository does and the call asks for no negative price or initial stock |
| Backends.CallStaysLinked | internal/repository/in_memory/product_repository.go:232-343 | a call leaves both with the same products, each under its own ids, whether it is accepted or refused |
| Backends.SameProductsThroughout | internal/repository/postgres/product_repository.go:210-425 | over any run of calls with storable text that respect the CHECK constraints, refused ones included, and for whatever uuids the database draws, both hold the same products at every moment |
| Backends.SeedIsLinked | internal/repository/in_memory/product_repository.go:24-47 | a table with the seed's own ids is such a start |
| Backends.ListingsAgreeExactly | internal/repository/postgres/product_repository.go:59-64 | all pages of the two backends agree up to ids if and only if the database's ids came in increasing order |
| InMemoryRepository.NewProductRepository | internal/repository/in_memory/product_repository.go:24-47 | slice and map hold the seed, or the default products when it is empty; refuses exactly when a product is invalid, naming the first fault of the first such product |
| InMemoryRepository.ProductRepository.List | internal/repository/in_memory/product_repository.go:49-116 | the requested slice, clipped, never out of range |
| InMemoryRepository.ProductRepository.GetByID | internal/repository/in_memory/product_repository.go:118-173 | answers from the map; where slice and map are in step, that is searching the slice |
| InMemoryRepository.ProductRepository.Create | internal/repository/in_memory/product_repository.go:232-265 | from any state: refuses exactly a known SKU, otherwise appends a product with every field of the command, active, under prod-(n+1); the map follows, and ids stay distinct if there was room for the id |
| InMemoryRepository.ProductRepository.Update | internal/repository/in_memory/product_repository.go:267-307 | from any state: patches what the map holds and replaces the first slice element with that id, or "not found" and nothing changes; slice and map stay in step |
| InMemoryRepository.ProductRepository.UpdateStock | internal/repository/in_memory/product_repository.go:309-343 | from any state: 32-bit addition, refused when negative; slice and map stay in step |
| InMemoryRepository.ProductRepository.Replace | internal/repository/in_memory/product_repository.go:326-333 | from any state: the loop changes exactly the first element with the product's id, if there is one, and the map takes the product |
| InMemoryRepository.InStep | internal/repository/in_memory/product_repository.go:267-343 | with distinct ids, changing a product changes slice and map alike |
| InMemoryRepository.DefaultSeedIsSafe | internal/repository/in_memory/product_repository.go:177-230 | the default products are valid and their zero-padded ids never collide with generated ones |
| InMemoryRepository.DefaultNumbersAre | internal/repository/in_memory/product_repository.go:177-230 | prices, stock, currency and state of the default products |
| InMemoryRepository.DefaultIdsAre | internal/repository/in_memory/product_repository.go:177-230 | their ids and SKUs |
| InMemoryRepository.DefaultNamesAre | internal/repository/in_memory/product_repository.go:177-230 | their names |
| Domain.SpaceIs | internal/domain/product.go:67-97 | what counts as white space, code point by code point |
| Domain.TrimSpaceTrims | internal/domain/product.go:67-97 | trimming takes blanks off both ends and nothing else |
| Domain.BlankTrims | internal/domain/product.go:67-97 | exactly the blank strings trim to nothing |
| Domain.ProductFault | internal/domain/product.go:45-65 | validation reports the first fault of a product in the source's order, and none exactly when there is none |
| Domain.CreateFault | internal/domain/product.go:67-84 | the same for a create command |
| Domain.UpdateFault | internal/domain/product.go:86-97 | the same for an update command |
| Catalog.RefusalExactly | internal/service/catalog/catalog.go:211-370 | what the service refuses before any repository sees it, and with which error |
| Catalog.CatalogService.ListProducts | internal/service/catalog/catalog.go:49-129 | over either repository: a negative offset is refused and nothing changes; otherwise a page of the requested size, of 20 if none is asked for and of 100 at most |
| Catalog.CatalogService.GetProduct | internal/service/catalog/catalog.go:131-209 | over either repository: a blank id is refused and nothing changes; otherwise the repository's answer, cancellation included |
| Catalog.CatalogService.CreateProduct | internal/service/catalog/catalog.go:211-259 | over either repository: an invalid command changes nothing and reports its fault; a valid one is the repository's create |
| Catalog.CatalogService.UpdateProduct | internal/service/catalog/catalog.go:261-307 | likewise for updates |
| Catalog.CatalogService.UpdateStock | internal/service/catalog/catalog.go:309-370 | over either repository: a blank id and a zero delta are refused and nothing changes; otherwise the repository's stock change |
| Catalog.StoredProductsStayValid | internal/domain/product.go:45-97 | from a valid seed, no run of service calls over the in-memory repository ever stores an invalid product |
| Catalog.StoredRowsStayValid | internal/domain/product.go:45-97 | from valid rows, no list of transactions the service asks for ever stores an invalid product in the database |
| Catalog.ChecksNeverFire | internal/service/catalog/catalog.go:211-370 | what the service lets through never meets a CHECK constraint: the database's own error means that it cannot take the text or that a stock sum exceeds 32 bits |
| Catalog.BackendsHoldTheSame | internal/service/catalog/catalog.go:211-370 | over any sequence of service calls, valid or not, with storable text, database and in-memory repository hold the same products, each under its own ids |
| Catalog.PagesTile | internal/service/catalog/catalog.go:81-100 | for any requested limit, the pages of the size that limit stands for put together are the whole list in order, and their number is the rounded-up quotient |
| RedisKeys.ProductKeysDiffer | internal/repository/redis/cache.go:422-424 | product keys are injective in the id |
| RedisKeys.ListKeysDiffer | internal/repository/redis/cache.go:426-428 | list keys are injective in limit and offset together |
| RedisKeys.PatternMatchesListKeys | internal/repository/redis/cache.go:434 | the scan pattern matches exactly the keys with the list prefix |
| RedisKeys.FamiliesApart | internal/repository/redis/cache.go:422-434 | for arbitrary id text, no product key is a list key; the pattern matches all list keys and no product key |
| RedisKeys.KeysAre | internal/repository/redis/cache.go:422-434 | the keys and the pattern letter by letter |
| RedisCache.Cache.GetProduct | internal/repository/redis/cache.go:42-124 | a live entry is a hit, an absent or expired one a miss, a failure an error |
| RedisCache.Cache.SetProduct | internal/repository/redis/cache.go:126-193 | stores the product under its key with the ttl, unless lost |
| RedisCache.Cache.DeleteProduct | internal/repository/redis/cache.go:195-237 | removes that one key, unless lost |
| RedisCache.Cache.GetProductList | internal/repository/redis/cache.go:239-334 | as for products, per limit and offset |
| RedisCache.Cache.SetProductList | internal/repository/redis/cache.go:336-420 | stores the page under its key with the ttl, unless lost |
| RedisCache.Cache.InvalidateListCache | internal/repository/redis/cache.go:431-474 | a scan that breaks off fails and deletes nothing; after a full cycle, one whose cursor came back as zero, the call reports what became of the DEL, if one was needed, and if that took effect no list key that was there throughout is left and every product key is as last met |
| RedisCache.InvalidationIsCompleteAndPrecise | internal/repository/redis/cache.go:431-474 | with other clients interfering: Redis promises something only of full cycles, and from that promise follows that list keys present throughout go and product keys stay |
| RedisCache.CycleEnds | internal/repository/redis/cache.go:441-453 | the loop ends where the cursor comes back as zero and not before, with exactly the keys the calls returned |
| CachedRepository.ProductRepository.GetByID | internal/repository/cached/product_repository.go:46-164 | error, hit, failed read, "not found" and fill, in that order, each on the stores as others left them before it |
| CachedRepository.ProductRepository.List | internal/repository/cached/product_repository.go:166-285 | the same for pages |
| CachedRepository.ProductRepository.Create | internal/repository/cached/product_repository.go:287-313 | an accepted create invalidates the pages; a rejected one leaves the cache alone |
| CachedRepository.ProductRepository.Update | internal/repository/cached/product_repository.go:315-347 | an accepted update removes the product's entry, then the pages, each only if its deletion takes effect and from the store it meets |
| CachedRepository.ProductRepository.UpdateStock | internal/repository/cached/product_repository.go:349-383 | likewise |
| CachedRepository.SuccessLeaves | internal/repository/cached/product_repository.go:385-391 | a successful invalidation leaves no page, not the product's entry, and every other product entry as it was |
| CachedRepository.ActionStaysCoherent | internal/repository/cached/product_repository.go:46-383 | each call keeps every entry, expired or not, equal to the table, and each read answers as the table does |
| CachedRepository.CacheIsInvisible | internal/repository/cached/product_repository.go:46-383 | refinement over whole runs: with successful invalidations and no hidden commits, every read returns what the repository underneath would, or a read error |
| CachedRepository.EntryLeftExactly | internal/repository/cached/product_repository.go:326-333 | a product's entry survives a write exactly when the write was refused, is about another product, or its deletion was lost |
| CachedRepository.PageLeftExactly | internal/repository/cached/product_repository.go:385-391 | a page survives a write exactly when the write was refused or the invalidation did not reach it |
| CachedRepository.ReadAfterWriteExactly | internal/repository/cached/product_repository.go:46-164 | the read after any write is faithful if and only if no live entry is left or the write did not change that product |
| CachedRepository.PageAfterWriteExactly | internal/repository/cached/product_repository.go:166-285 | the same for pages |
| CachedRepository.MissedInvalidationServesStale | internal/repository/cached/product_repository.go:361-372 | after a committed stock change the next read is faithful if and only if nothing was cached, or the call was accepted and its deletion took effect |
| Staleness.RunStaysTraced | internal/repository/cached/product_repository.go:108-132 | invariant of all interleavings: every entry and every pending fill is genuine for an instant not longer ago than the bound allows |
| Staleness.StalenessIsBounded | internal/repository/cached/product_repository.go:108-132 | whatever is served, product or page, is what a committed version held that was current less than ttl + delay ago |
| Staleness.TheBoundIsReached | internal/repository/cached/product_repository.go:349-372 | the bound is exact even when the deletion succeeds: a run that serves the old row ttl + delay - 1 instants after the change |
| Staleness.DeletionSufficesUnlessRaced | internal/repository/cached/product_repository.go:326-333 | after a deletion every later hit is fresh up to the next change, if and only if no reader was holding an old document at that moment |
| CachedCalls.GetIsRun | internal/repository/cached/product_repository.go:46-164 | whatever others do in its pauses, a read call is a run of the interleaved protocol with miss, read and fill as its own steps |
| CachedCalls.ListIsRun | internal/repository/cached/product_repository.go:166-285 | so is a page read |
| CachedCalls.WriteIsRun | internal/repository/cached/product_repository.go:287-383 | so is a write, with others at work before each deletion and each call of the scan |
| CachedCalls.ReplyIsRecent | internal/repository/cached/product_repository.go:46-164 | what a read call returns is the row as a version current less than ttl + delay ago had it, or as the table its own query met |
| CachedCalls.PageReplyIsRecent | internal/repository/cached/product_repository.go:166-285 | the same for a page |
| Lifecycle.RunIsOrderly | internal/app/app.go:233-325 | invariant of every interleaving of main, servers and publisher: who is alive, what is open, and what the wait group counts at each point of start and shutdown |
| Lifecycle.PublisherNeverMeetsAClosedResource | internal/app/app.go:282-314 | servers are told to stop, then the publisher is cancelled, and it is gone before its producer closes, then Redis, then the database: no fetch, publish or mark is under way when either is closed |
| Lifecycle.NothingAfterTheWait | internal/app/app.go:294-297 | in no run does a publisher step come after the wait for it |
| Lifecycle.SendsNeverBlock | internal/app/app.go:238-257 | whoever has an error to send finds room in the channel even if nobody receives, and the publisher never has one |
| Lifecycle.EveryFailureIsReported | internal/app/app.go:238-250 | every failure of a server has been received, is in the channel, or is about to be sent |
| Lifecycle.FetchedBatch | internal/outbox/publisher.go:77-106 | the publisher takes every row it fetched before it looks at the cancelled context again |
| Lifecycle.ShutdownCanFinish | internal/app/app.go:275-325 | from every reachable state the service can come to a full stop |

## Left out

- Statement-level interleaving of transactions: PostgreSQL's transactions and single statements are atomic steps, so isolation levels and row locks do not appear.
- Kafka's own retries, partitions and acknowledgements: one publish call is one logical delivery, lost, acknowledged, or hidden behind an error; the log is one sequence. `Publish` (`internal/events/producer.go:50-66`) is not called by the publisher and not modelled.
- JSON: payloads and cached documents are values; a document that does not decode counts as a failed cache read.
- Classification of driver errors by their text: outcomes are tagged (`NotFound`, `AlreadyExists`, `InsufficientStock`, or `Storage` for the rest).
- `updated_at`, `sent_at`, `last_error` and the 32-bit width of `attempts`: no decision depends on them.
- Text limits inside the repository model: a statement rejected for U+0000 or for a SKU too long for its index counts as one the driver fails (`statementFails`, or `dbFails` in a read); only `Backends` and `Catalog.ChecksNeverFire` tell it apart.
- Collation: `ORDER BY id` compares code point by code point.
- PostgresRepository.ProductRepository.List: limit and offset are non-negative, as the service layer guarantees; the database's error for negative ones is not modelled.
- InMemoryRepository.ProductRepository.List: the slice bound offset + limit is computed without 64-bit overflow, and locking is not modelled because each call is one step.
- OutboxPublisher.Publisher.PublishBatch: a pass runs to its end; a crash in the middle of one is a step of the protocol, not of this method. What others do within one call of it counts as done before or after that call.
- The ticker loop of the publisher's `Run` appears in `Lifecycle` as goroutine states, not as a method; real time and ticker periods are abstract.
- Glob character classes and backslash escapes: the scan pattern uses neither.
- Lifecycle.ShutdownCanFinish: says that a full stop stays reachable, not that it comes in bounded time, because a select with two ready cases may keep choosing the ticker; the errors Shutdown joins and its deadline are not modelled.
- HTTP and gRPC transport, handlers still running during shutdown, health status, logging, metrics, tracing, configuration, the migrator, and the construction of the application.
