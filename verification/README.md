# Verification of the event and ticket backend

This project models the parts of the event and ticket management backend where a mistake costs money or data, and
proves what they promise. Methods that change state step by step are classes and methods with loops; each is proved
against a function of the old state, and the properties are lemmas about these functions. Protocols that run
concurrently are step machines; their theorems hold for every sequence of steps.

| files | part of the backend |
|---|---|
| `Tables`, `SqlExpressions`, `Booking` | rows and sums, three-valued conditions with `When`/`Case`, the effect of each committed transaction |
| `BookingEffects` | what each transaction does to every row, said without the functions that do it |
| `Conservation`, `Capacity`, `FrozenInventory`, `Reservations` | what serial runs keep: tickets, capacity, inventory, reservations |
| `OrderServices`, `CatalogServices` | the order, event and ticket-category services as classes over the tables |
| `BookingConcurrency`, `BookingTheorems` | interleaved transactions with row locks, serializability, and what follows for every run |
| `ViewPipeline`, `CounterAccuracy`, `CounterPolicies`, `ViewCounters`, `BulkInsert` | view counting: cache failures at any point, readers that fill counters, log table, chunked inserts |
| `FilterKeys`, `RelationFilters`, `LikePatterns` | the query compiler: filter keys, joins against IN-subqueries, LIKE escaping |
| `UnitOfWork` | nested units of work with savepoints and read-only sessions |
| `ResponseCache`, `CachedEndpoints`, `CacheKeys` | the tag-versioned response cache and its keys |
| `Idempotency`, `IdempotentPayments` | the wrapper around idempotent endpoints, and payments behind it |
| `SeedCursor` | bulk insertion and the cursor of the seeding command |

## What the code does that its documentation does not say

- The booking test keeps only the last quantity of a repeated category while every line is inserted, so "strict total
  quantity boundaries" hold for a request exactly when it repeats no category or asks for more than any total
  (`Capacity.SafeRequestIff`).
- The availability test is part of the locking SELECT, and nothing in the code makes the database evaluate it after the
  category row is locked. `BookingConcurrency` assumes that it does, and `BookingTheorems.NoOverselling` depends on it. A
  statement that evaluates the test on a snapshot taken before it waits for the lock, without evaluating it again, is
  outside this machine: bookings tested on one snapshot fit exactly when together they order no more than it had left
  (`Capacity.TestedOnSnapshot`), so such a test protects the totals exactly when nothing is left to sell
  (`Capacity.SnapshotProtectsIff`).
- The Python form of `occupied_count` counts items of cancelled orders, the SQL form does not
  (`Conservation.LoadedCountAgreesIff`).
- Read-only units of work run on an AUTOCOMMIT engine, so a statement that writes in one takes effect at once
  (`UnitOfWork.ReadonlyIsHarmlessIff`).
- Version tokens are millisecond clock readings. Freshness of cached responses holds for a collection of minted tokens
  exactly when no tag gets the same token twice (`ResponseCache.FreshIffNeverReused`).
- A request that does not get the idempotency lock within 0.1 seconds, or whose handler raises, runs the handler without
  the lock; so does one whose answer cannot be stored, and the lock's 10 seconds can pass while a handler runs. At most
  one execution under the lock succeeds exactly when answers are always stored and neither they nor the lock of a request
  that still needs it can expire (`Idempotency.OnceUnderTheLockIff`); at most one execution succeeds at all exactly when,
  besides, nobody gives up waiting and no handler raises (`Idempotency.OnceAtAllIff`).
- A filter key `relation__field__operator` is not an operator filter: it is dropped silently unless the related model
  has an attribute named like the operator (`FilterKeys.RelationWithOperatorIsDropped`).
- Where two relations reach one model, SELECT joins only the first of them while DELETE follows both. On given paths
  both pick the same rows for all tables and filters exactly when no two relations reach the same model
  (`RelationFilters.AgreeIffOnePerModel`).
- A cached view counter can exceed the number of visitors, not only by views that expired from the deduper: a view that
  a failing request sent past the deduper reaches the log, a reader fills the counter from the log, and the next visit
  counts it again. The bound without such views holds exactly unless requests may fail so and readers may fill
  (`CounterPolicies.BoundedIff`).
- Readers are shown the number of distinct visitors exactly when the cache does not fail under a request, nothing expires
  or is evicted, and no counter is counted up while a reader fills it in (`CounterPolicies.TruthfulIff`).

## Model

| member | source | states |
|---|---|---|
| `SqlExpressions.When.Resolve` | backend/src/core/infra/database/query/expressions/when_clause.py:16-48 | A resolved `When` accepts a row exactly when every keyword comparison is true of it (NULL never is); THEN defaults to the `id` argument; it fails exactly for an unknown column or no argument |
| `SqlExpressions.TestAllIsConjunction` | backend/src/core/infra/database/query/expressions/when_clause.py:39-44 | SQL AND over the resolved conditions is true exactly when each is, in three-valued logic |
| `SqlExpressions.Case.Resolve` | backend/src/core/infra/database/query/expressions/case_clause.py:14-21 | One arm for each `When`, in order, each standing for its `When`; it succeeds exactly when all of them resolve |
| `SqlExpressions.EarliestArmDecides` | backend/src/core/infra/database/query/expressions/case_clause.py:14-21 | The earliest matching arm is the result whatever the later arms say, the ELSE value if none matches |
| `SqlExpressions.CaseIsDisjunction` | backend/src/modules/order/services.py:32-37 | `id = CASE WHEN id = c AND available >= q ..` keeps exactly the rows that some requested pair accepts |
| `Booking.Requested` | backend/src/modules/order/services.py:25-26 | The dictionary of requested quantities has exactly the requested categories as keys |
| `Booking.NewItems` | backend/src/modules/order/services.py:53-67 | One item a line, in line order, at the price of the selected category row |
| `OrderServices.OrderService.RequestedQuantities` | backend/src/modules/order/services.py:25-26 | The comprehension's loop computes the last-quantity-wins dictionary |
| `OrderServices.OrderService.AvailabilityClause` | backend/src/modules/order/services.py:34-36 | The `Case` lists every requested category once with its quantity, in some order, with no ELSE value |
| `OrderServices.OrderService.SelectCategories` | backend/src/modules/order/services.py:30-41 | Compiling and evaluating the clause returns exactly the requested categories with enough availability, as stored |
| `OrderServices.OrderService.FirstUnavailable` | backend/src/modules/order/services.py:43-51 | The loop names the first line, in request order, without a selected category, and none exactly when all were found |
| `OrderServices.SubsetOfSameSize` | backend/src/modules/order/services.py:43-43 | Comparing lengths decides whether every requested category was found (pigeonhole) |
| `OrderServices.OrderService.InsertOrder` | backend/src/modules/order/services.py:62-81 | One new pending order of the given user, or of the address when there is no user; one item a line at its category's price; reserved tickets as many as ordered; every other row as before |
| `OrderServices.OrderService.TicketRows` | backend/src/modules/order/services.py:69-73 | One reserved ticket for every unit of every created item, in order |
| `OrderServices.OrderService.Create` | backend/src/modules/order/services.py:19-84 | Refused for its owner or for lack of tickets a booking changes nothing; else exactly the new order, items and tickets appear, column by column, and a cancel task is scheduled exactly on success |
| `OrderServices.OrderService.CompareAndSet` | backend/src/modules/order/services.py:100-104 | The guarded UPDATE changes nothing but the status, and that exactly when it was the expected one, and reports whether it did |
| `OrderServices.OrderService.ConfirmPayment` | backend/src/modules/order/services.py:98-129 | A pending order becomes paid with its own tickets, keeping owner and address; every other row and every other case stays, with the reply of each; a mail exactly on change |
| `OrderServices.OrderService.ExpireOrder` | backend/src/modules/order/services.py:131-152 | A pending order becomes cancelled and exactly its tickets go, keeping owner and address; every other row and every other case stays, with the reply of each |
| `OrderServices.OrderService.MigrateAnonymousOrders` | backend/src/modules/order/services.py:154-169 | Exactly the orders of the address get its user and lose the address, all other rows stay, and the reply is how many they are |
| `OrderServices.SerialsAreUnused` | backend/src/modules/order/services.py:62-67 | The keys the sequences hand out next are used by no row |
| `Capacity.SelectionIsExact` | backend/src/modules/order/services.py:29-40 | The compiled `id IN ids AND id = CASE ..` keeps exactly the requested categories with enough tickets left |
| `Capacity.NoTicketsIff` | backend/src/modules/order/services.py:41-60 | A booking fails exactly when some requested category is missing or short, names the first such line, and changes nothing |
| `Capacity.LastQuantityIsTested` | backend/src/modules/order/services.py:26-26 | The tested quantity of a category is that of the last line that names it |
| `Capacity.TestedAtMostOrdered` | backend/src/modules/order/services.py:26-26 | The tested quantity of a category is never more than what all lines insert |
| `Capacity.TestedAllIff` | backend/src/modules/order/services.py:26-26 | The tested quantity is the inserted one exactly when one line names the category |
| `Capacity.SafeRequestIff` | backend/src/modules/order/services.py:25-81 | The test protects a request on all tables that meet the constraints exactly when it repeats no category or asks beyond the largest total |
| `Capacity.DistinctBookingKeepsWithin` | backend/src/modules/order/services.py:25-81 | An accepted booking of distinct categories keeps every category within its total |
| `Capacity.RepeatedCategoryOversells` | backend/src/modules/order/services.py:26-26 | A request that repeats a category oversells some consistent tables that pass the test |
| `Capacity.PlacedOccupied` | backend/src/modules/order/services.py:53-75 | A booking raises each category's ticket count by exactly the quantities of its lines |
| `Capacity.TestedOnSnapshot` | backend/src/modules/order/services.py:30-40 | Any list of bookings tested on one earlier snapshot fits exactly when, category by category, they order no more than the snapshot had left |
| `Capacity.SnapshotProtectsIff` | backend/src/modules/order/services.py:30-40 | Testing every booking on one snapshot, with new keys for all of them, protects the totals exactly when nothing is left to sell |
| `Capacity.ExecKeepsWithin` | backend/src/modules/ticket/models.py:65-88 | Every transaction keeps capacity if lines are distinct and totals are not set below what is held |
| `Capacity.LoweringTotalIff` | backend/src/modules/ticket/services.py:102-114 | Setting a total keeps capacity exactly when it covers the tickets held |
| `Conservation.PlaceKeepsConsistent` | backend/src/modules/order/services.py:53-81 | A booking keeps conservation: each item of a live order owns exactly its quantity of tickets, with the order's status |
| `Conservation.ConfirmKeepsConsistent` | backend/src/modules/order/services.py:98-129 | A payment keeps conservation |
| `Conservation.ExpireKeepsConsistent` | backend/src/modules/order/services.py:131-152 | An expiry keeps conservation: the cancelled order's items own no ticket, nobody else loses one |
| `Conservation.ExecKeepsConsistent` | backend/src/modules/order/services.py:53-169 | Every transaction keeps conservation |
| `Conservation.SerialConservation` | backend/src/modules/order/services.py:53-169 | Conservation holds in every state a serial run reaches from empty tables |
| `Conservation.OccupiedIsLiveQuantity` | backend/src/modules/ticket/models.py:65-72 | The SQL ticket count of a category is the sum of quantities over its items in live orders |
| `Conservation.LoadedCountAgreesIff` | backend/src/modules/ticket/models.py:59-72 | The Python count is never smaller, and equal exactly when no item of the category belongs to a cancelled order |
| `FrozenInventory.AdminSparesSettled` | backend/src/modules/ticket/services.py:88-124 | No administrative step changes the inventory of an event that left DRAFT, and the event moves along the lifecycle |
| `FrozenInventory.InventoryIsFrozen` | backend/src/modules/event/services.py:80-197 | In every serial run from a non-draft event: lifecycle order, same categories and prices, later items at the category price |
| `CatalogServices.EventService.Publish` | backend/src/modules/event/services.py:80-110 | The owner's draft moves to ON_MODERATION with its details; for anyone else and in any other state nothing changes, with the reply of each case; events past DRAFT keep their inventory |
| `CatalogServices.EventService.Cancel` | backend/src/modules/event/services.py:138-169 | The owner's draft or moderated event moves to CANCELLED with its details; for anyone else and in any other state nothing changes, with the reply of each case |
| `CatalogServices.EventService.Moderate` | backend/src/modules/event/services.py:171-197 | A moderated event moves to APPROVED or REJECTED with owner and details; in any other state nothing changes, with the reply of each case |
| `CatalogServices.EventService.Update` | backend/src/modules/event/services.py:112-136 | The owner's draft gets exactly the given details and keeps the others; for anyone else and in any other state nothing changes |
| `CatalogServices.TicketCategoryService.Create` | backend/src/modules/ticket/services.py:72-86 | The category is added as given exactly in a draft of the user and within the constraints; else nothing changes, with the error of the first failing check |
| `CatalogServices.TicketCategoryService.Update` | backend/src/modules/ticket/services.py:102-114 | Exactly the given columns of a category of the user's draft change; for anyone else and past DRAFT nothing does |
| `CatalogServices.TicketCategoryService.Delete` | backend/src/modules/ticket/services.py:116-124 | Exactly the category goes, if no item or ticket refers to it and it is in a draft of the user; else nothing changes |
| `Reservations.DrainKeepsPaid` | backend/src/modules/order/tasks.py:7-27 | Running all outstanding cancel tasks leaves no pending order and exactly the same paid orders, items and categories |
| `Reservations.DrainedAvailability` | backend/src/modules/order/services.py:131-152 | What is then available is the total minus the sum of paid quantities |
| `BookingConcurrency.CommitIsSerial` | backend/src/modules/order/services.py:29-81 | A commit under row locks has the effect of running its transaction alone at that moment |
| `BookingConcurrency.RunKeepsInv` | backend/src/modules/order/services.py:29-152 | In every interleaving, what a transaction relies on under its locks stays true until it ends |
| `BookingConcurrency.Serializable` | backend/src/modules/order/services.py:29-169 | The committed tables of every interleaving are those of its transactions run one at a time in commit order |
| `BookingTheorems.NoOverselling` | backend/src/modules/order/services.py:25-81 | In every orderly interleaving, committed plus in-flight tickets of a category stay within its total |
| `BookingTheorems.SettledForever` | backend/src/modules/order/services.py:98-152 | PAID and CANCELLED are absorbing whatever races, so an order leaves PENDING at most once |
| `BookingTheorems.OneOwnerAlways` | backend/src/modules/order/services.py:20-27 | In every interleaving an order has exactly one owner, a user or an address |
| `BookingTheorems.OwnersChangeAtMigration` | backend/src/modules/order/services.py:154-169 | In every interleaving an order's owner changes only at a migration of its address, to the user of that address |
| `BookingTheorems.StepPays` | backend/src/modules/order/services.py:100-126 | An order becomes paid only by the commit of a payment, and only if it was not paid before |
| `BookingTheorems.PaidExactlyOnce` | backend/src/modules/order/services.py:98-152 | Tickets mirror their order's status, and once no mail is owed exactly the paid orders have one, and one only |
| `BookingTheorems.MailsAlwaysMatch` | backend/src/modules/order/services.py:126-128 | At any time, mails sent and owed for an order are one if it is paid and none otherwise |
| `BookingTheorems.PendingIsScheduled` | backend/src/modules/order/services.py:81-83 | In every run each pending order has a cancel task outstanding or about to be enqueued |
| `BookingTheorems.ReservationsDrain` | backend/src/modules/order/services.py:83-84 | After any orderly run the outstanding tasks leave no pending order, and availability is total minus paid |
| `ViewPipeline.CoverageStays` | backend/src/modules/views/mixins.py:137-192 | No step (failure, expiry, eviction, redelivery) loses a view that is logged, queued or owed by a request |
| `ViewPipeline.RunKeepsInv` | backend/src/modules/views/mixins.py:137-192 | In every run each view in the deduper is covered, and only submitted views are anywhere |
| `ViewPipeline.SuppressedViewsAreKept` | backend/src/modules/views/mixins.py:154-157 | A view the deduper would suppress is in the log, the queue or an unfinished request |
| `ViewPipeline.NothingLostOrInvented` | backend/src/modules/views/services.py:8-35 | With requests ended and the queue drained, the log is exactly the set of submitted views |
| `CounterAccuracy.CountsAddUp` | backend/src/modules/views/mixins.py:69-179 | In every run counter, counts still to come and counts lost to failures, eviction or overwriting add up to the views new to the deduper, expired ones included, and what readers filled in |
| `CounterAccuracy.RunStaysLow` | backend/src/modules/views/mixins.py:69-179 | In every run neither the views sent nor any counter, with what is still to come, exceed the views new to the deduper and those sent past it; readers store no more than the views sent |
| `CounterAccuracy.CounterIsBounded` | backend/src/modules/views/mixins.py:69-179 | In every run, fills by racing readers included, a counter exceeds the distinct submitted views by at most those that expired from the deduper and those failing requests sent past it |
| `CounterAccuracy.CounterIsExact` | backend/src/modules/views/mixins.py:69-179 | Once requests have ended, a counter is exact precisely when what it missed makes up for what expiry and readers added to it |
| `CounterPolicies.CountedTwice` | backend/src/modules/views/mixins.py:97-115 | A failing request sends a view past the deduper, a reader fills the counter from the log, the same visitor comes again: the counter is 2 for one submitted view |
| `CounterPolicies.BoundedIff` | backend/src/modules/views/mixins.py:69-179 | The bound by submitted and expired views holds in all permitted runs exactly unless failing requests may send views past the deduper and readers may fill |
| `CounterPolicies.SoundCountersAreRight` | backend/src/modules/views/mixins.py:69-179 | Without failures, expiry, eviction and counting during a fill, every counter is the number of distinct submitted views as soon as requests have ended |
| `CounterPolicies.WrongByRace` | backend/src/modules/views/mixins.py:105-114 | A reader counts the log, the object is viewed, the reader stores its count: the shown number is wrong with nothing under way |
| `CounterPolicies.TruthfulIff` | backend/src/modules/views/mixins.py:69-179 | With nothing under way every object shows its number of distinct views in all permitted runs exactly when failures, expiry, eviction and counting during a fill are excluded |
| `ViewCounters.InMemoryCache.GetMany` | backend/src/core/infra/cache/managers/in_place_manager.py:12-15 | The values of the keys in order, None for an absent one |
| `ViewCounters.InMemoryCache.Incr` | backend/src/core/infra/cache/managers/in_place_manager.py:23-39 | Counts up from 0 and stores the result; a value that is no number raises and changes nothing |
| `ViewCounters.InMemoryCache.PfAdd` | backend/src/core/infra/cache/managers/in_place_manager.py:41-61 | The set gains the value; the reply is 1 exactly when it was new |
| `ViewCounters.ViewService.IncrementOne` | backend/src/modules/views/mixins.py:137-192 | Adds exactly the visitor to the object's visitors (nothing for id 0) and keeps counter, deduper, log and queue in agreement |
| `ViewCounters.ViewService.IncrementMany` | backend/src/modules/views/mixins.py:150-179 | The batch form adds the visitor to exactly the listed objects and keeps the agreement, repeated ids included |
| `ViewCounters.ViewService.AddToDedupers` | backend/src/modules/views/mixins.py:152-155 | The unique ids are, once each, exactly the listed objects whose deduper did not hold the visitor |
| `ViewCounters.ViewService.GetViews` | backend/src/modules/views/mixins.py:81-127 | Returns the number of distinct visitors, also for an evicted counter once the queue is drained, and leaves the counter right |
| `ViewCounters.ViewService.GetManyViews` | backend/src/modules/views/mixins.py:38-79 | Exactly the listed ids with their numbers of visitors, repeated ids included; with a drained queue it repairs evicted counters |
| `ViewCounters.ViewService.ConsumeBatch` | backend/src/modules/views/services.py:8-35 | Logging any batch from the front of the queue through `ProcessViewLogs` changes nobody's visitors, and the reply is the growth of the log; with an empty queue the log has as many rows an object as visitors |
| `ViewCounters.ViewService.Serve` | backend/src/modules/views/mixins.py:38-192 | Any sequence of increments, reads and consumer batches keeps the agreement, and every read is answered with the number of visitors so far |
| `ViewCounters.SerialRun` | backend/src/modules/views/mixins.py:38-192 | In every serial run from the empty state each read is answered with the number of distinct visitors in the calls before it |
| `ViewCounters.Recount` | backend/src/modules/views/mixins.py:152-179 | Queueing the new ids adds the visitor to every touched object and counts one where it is new |
| `BulkInsert.Table.FillFromFilters` | backend/src/core/infra/database/query/executors/mutation.py:42-46 | Every item gets the filters without `__` in their key, unless it sets the column itself |
| `BulkInsert.Table.FillFromParent` | backend/src/core/infra/database/query/executors/mutation.py:48-65 | Every item gets the value of the first matching equality of the parent query as foreign key, unless it sets the key itself |
| `BulkInsert.InheritingFills` | backend/src/core/infra/database/query/executors/mutation.py:42-65 | Every column of a new row is its own value, else that of a plain filter, else for the foreign key the first parent equality; it has no other column |
| `BulkInsert.Table.InsertChunks` | backend/src/core/infra/database/query/executors/mutation.py:67-91 | For any chunk size: without conflict skipping the items are stored as they are, in order; with it, of every new key the first item, in order; the total is the growth |
| `BulkInsert.Table.Create` | backend/src/core/infra/database/query/executors/mutation.py:27-96 | Without conflict skipping one filled row an item is stored and returned, in order; with it, of every new key the first filled row; the table is the old rows followed by these |
| `BulkInsert.FirstOfEachKey` | backend/src/core/infra/database/query/executors/mutation.py:71-79 | With conflicts skipped, exactly the items are stored whose key no stored row and no earlier item has |
| `BulkInsert.InsertAllAppend` | backend/src/core/infra/database/query/executors/mutation.py:71-79 | Inserting two lists one after the other is inserting them together, conflicts skipped or not |
| `BulkInsert.InsertIsUnion` | backend/src/core/infra/database/query/executors/mutation.py:75-79 | With conflicts skipped, the keys are the set union, each once, and the table grows by the number of new keys |
| `BulkInsert.Flatten` | backend/src/modules/views/services.py:12-21 | The flat rows are exactly the views of the payloads |
| `BulkInsert.ProcessViewLogs` | backend/src/modules/views/services.py:8-35 | The log becomes its union with the payloads' views, and the result is how many of them were new |
| `FilterKeys.SplitJoin` | backend/src/core/infra/database/query/filters/resolver.py:18-19 | Splitting a key at double underscores gives back the names it was joined from |
| `FilterKeys.Resolve` | backend/src/core/infra/database/query/filters/resolver.py:12-32 | The loop follows the relations named by the key; the specification is `Resolved` |
| `FilterKeys.FieldKey` | backend/src/core/infra/database/query/filters/resolver.py:13-19 | `field` means equality on the model's own attribute |
| `FilterKeys.OperatorKey` | backend/src/core/infra/database/query/filters/resolver.py:13-19 | `field__operator` means that operator on the model's own attribute |
| `FilterKeys.RelationKey` | backend/src/core/infra/database/query/filters/resolver.py:18-32 | `relation__..__field` means equality on the attribute at the end of exactly these relations |
| `FilterKeys.OperatorIff` | backend/src/core/infra/database/query/filters/resolver.py:13-16 | A suffix counts as an operator exactly when the key has two parts and the second is one |
| `FilterKeys.UnknownNamesArePassedOver` | backend/src/core/infra/database/query/filters/resolver.py:24-29 | A name that is no relation of the model reached before it changes nothing about the relations of a key |
| `FilterKeys.LookupHasParts` | backend/src/core/infra/database/query/executors/mutation.py:45-46 | The filters whose values new rows do not inherit are those whose key has more than one part |
| `FilterKeys.PathIsChained` | backend/src/core/infra/database/query/filters/resolver.py:21-29 | The relations of a resolved key form a chain from the model |
| `FilterKeys.PrepareFilters` | backend/src/core/infra/database/query/filters/applier.py:10-42 | One condition for each kept argument, in order: its value with the column, relations and operator, or the annotation and operator, that the form of its key names |
| `FilterKeys.OperatorArgument` | backend/src/core/infra/database/query/filters/applier.py:36-40 | `field__operator` with a value prepares exactly that operator on that column with that value |
| `FilterKeys.AnnotationKey` | backend/src/core/infra/database/query/filters/applier.py:26-34 | For annotations an operator counts after a name of any number of parts |
| `FilterKeys.LeftOutIffDropped` | backend/src/core/infra/database/query/filters/applier.py:22-42 | Leaving an argument out changes neither list exactly when it is None, or names no annotation and has no column |
| `FilterKeys.RelationWithOperatorIsDropped` | backend/src/core/infra/database/query/filters/resolver.py:13-32 | `relation__field__operator` is dropped exactly when its value is None, or it names no annotation and the end model has no attribute of that name |
| `RelationFilters.ApplyContextFilters` | backend/src/core/infra/database/query/filters/applier.py:45-78 | Joins each mentioned relation whose model is not joined yet, in order, and adds every condition |
| `RelationFilters.ApplyModificationFilters` | backend/src/core/infra/database/query/filters/applier.py:100-132 | A local condition, or the first foreign key IN a subquery that joins the rest of the path |
| `RelationFilters.JoinIsExact` | backend/src/core/infra/database/query/filters/applier.py:45-78 | For unambiguous paths SELECT returns a row exactly when each filter holds of it by following its foreign keys |
| `RelationFilters.SubqueryIsExact` | backend/src/core/infra/database/query/filters/applier.py:100-132 | A DELETE condition selects a row exactly when its filter holds of it, nullable foreign keys included |
| `RelationFilters.InAndJoinAgree` | backend/src/core/infra/database/query/filters/applier.py:45-132 | For unambiguous paths both compilations select the same rows |
| `RelationFilters.SharedModelUsesFirstKey` | backend/src/core/infra/database/query/filters/applier.py:67-70 | Of two relations to one model SELECT joins only the first and tests both columns on its row |
| `RelationFilters.AmbiguityDisagrees` | backend/src/core/infra/database/query/filters/applier.py:67-70 | Whenever two relations of the paths reach one model, some tables and filters on these paths make SELECT and DELETE disagree |
| `RelationFilters.AgreeIffOnePerModel` | backend/src/core/infra/database/query/filters/applier.py:45-132 | On paths from the root, SELECT and DELETE pick the same rows for all tables, columns and operators exactly when no two relations reach the same model |
| `LikePatterns.EscapedIsWellFormed` | backend/src/core/infra/database/query/operators.py:8-44 | An escaped value never ends in, or misuses, an escape character |
| `LikePatterns.EscapedMatchesItself` | backend/src/core/infra/database/query/operators.py:21-44 | The three replaces, in this order, make a pattern that matches exactly the value itself at the front of a text |
| `LikePatterns.SubstringIsExact` | backend/src/core/infra/database/query/operators.py:21-28 | `%value%` matches exactly the texts the value occurs in |
| `LikePatterns.PrefixIsExact` | backend/src/core/infra/database/query/operators.py:29-36 | `value%` matches exactly the texts that start with the value |
| `LikePatterns.SuffixIsExact` | backend/src/core/infra/database/query/operators.py:37-44 | `%value` matches exactly the texts that end with the value |
| `LikePatterns.OperatorIsExact` | backend/src/core/infra/database/query/operators.py:8-44 | All seven text operators accept exactly the texts their name says: a piece, prefix or suffix equal to the value, and for the `i` forms and `ieq` the same of the folded texts |
| `LikePatterns.SameMeansEqual` | backend/src/core/infra/database/query/operators.py:21-44 | For the case-sensitive operators the promise is about equal text |
| `UnitOfWork.SqlUnitOfWork.Enter` | backend/src/core/infra/database/uow/units/sql_alchemy.py:59-71 | Opens a session of the chosen mode at depth 0 and a savepoint at each deeper level of write mode |
| `UnitOfWork.SqlUnitOfWork.Exit` | backend/src/core/infra/database/uow/units/sql_alchemy.py:73-92 | Releases or rolls back the innermost savepoint, or closes the session and resets every field |
| `UnitOfWork.SqlUnitOfWork.AsReadonly` | backend/src/core/infra/database/uow/units/sql_alchemy.py:53-57 | Refused exactly once a session that may write is open |
| `UnitOfWork.SqlUnitOfWork.Repository` | backend/src/core/infra/database/uow/units/sql_alchemy.py:94-108 | Every repository handed out belongs to the current session; unknown names are refused |
| `UnitOfWork.SqlUnitOfWork.Commit` | backend/src/core/infra/database/uow/units/sql_alchemy.py:115-119 | Refused exactly in read-only mode; otherwise the session's data becomes the committed data |
| `UnitOfWork.BodyMeans` | backend/src/core/infra/database/uow/units/sql_alchemy.py:59-92 | Running a body with the fields and savepoints computes a meaning defined without them: a failed inner block undoes its writes |
| `UnitOfWork.FailedBlockRestores` | backend/src/core/infra/database/uow/units/sql_alchemy.py:73-82 | A failed inner block restores the working data of its entry and changes no committed data |
| `UnitOfWork.OnlyCommitsCommit` | backend/src/core/infra/database/uow/units/sql_alchemy.py:115-119 | Committed data is what the last commit of the outermost block saw |
| `UnitOfWork.WriteProgram` | backend/src/core/infra/database/uow/units/sql_alchemy.py:59-119 | An outermost block ends in the reset state, failed or not, with exactly its last commit in effect |
| `UnitOfWork.ReadonlyIsHarmlessIff` | backend/src/core/database.py:35-39 | A read-only block changes no committed data exactly when its body does not write |
| `ResponseCache.StepKeepsGood` | backend/src/core/infra/transport/http/cache/decorators.py:36-60 | With tokens not reused, every step of readers, writers and expiry keeps stored and computed responses newer than their tokens |
| `ResponseCache.RunStaysFresh` | backend/src/core/infra/transport/http/cache/decorators.py:36-60 | Every served response answers its own query and is no older than what was announced when its reader read the versions |
| `ResponseCache.ReadersSeeAnnouncedChanges` | backend/src/core/infra/transport/http/cache/decorators.py:82-87 | A reader that begins after an invalidation of one of its tags gets a response computed after that invalidating change |
| `ResponseCache.StaleRunIsStale` | backend/src/core/infra/transport/http/cache/decorators.py:46-46 | With one token minted twice for a tag, a concrete run serves a stale response |
| `ResponseCache.FreshIffNeverReused` | backend/src/core/infra/transport/http/cache/decorators.py:36-87 | For any collection of minted tokens: all runs that mint it are fresh exactly when no tag gets a token twice |
| `CachedEndpoints.HttpCache.CollectVersions` | backend/src/core/infra/transport/http/cache/decorators.py:37-48 | The loop uses the version found for each tag, and a clock reading of that tag's turn exactly for the missing ones |
| `CachedEndpoints.HttpCache.Request` | backend/src/core/infra/transport/http/cache/decorators.py:36-73 | An undisturbed request answers from the entry of its versions or computes and stores; a service exception passes, another one calls the handler again past the cache; each answer is a run of the cache machine |
| `CachedEndpoints.HttpCache.Invalidate` | backend/src/core/infra/transport/http/cache/decorators.py:82-87 | Sets every listed tag to the one clock reading, leaves the other versions alone, and is a run of the machine that announces the change |
| `CachedEndpoints.InvalidationRuns` | backend/src/core/infra/transport/http/cache/decorators.py:82-87 | The machine's writer, minting one token and announcing tag by tag, ends with the versions the wrapper sets and every change announced |
| `CachedEndpoints.RequestRuns` | backend/src/core/infra/transport/http/cache/decorators.py:36-60 | The machine's steps read, install, look up, compute and store reach the state the sequential request computes |
| `CacheKeys.KeysDecodeUniquely` | backend/src/core/infra/transport/http/cache/utils.py:37-40 | For colon-free tags and hashes and digit versions, keys are equal exactly for the same tags in any order, versions and hash |
| `CacheKeys.SortedOneWay` | backend/src/core/infra/transport/http/cache/utils.py:38-38 | Two sorted lists of the same tags are equal |
| `CacheKeys.MachineKeysAreExact` | backend/src/core/infra/transport/http/cache/utils.py:37-40 | With clock readings as versions, key strings of repetition-free tag lists are equal exactly when the machine's keys are |
| `CacheKeys.VersionKeysStandApart` | backend/src/core/infra/transport/http/cache/utils.py:29-40 | Version keys tell tags apart, and no key of a cached response is a version key |
| `CacheKeys.ColonsCollide` | backend/src/core/infra/transport/http/cache/utils.py:37-40 | Any tag that looks like two tags with a version between them shares every key with these two |
| `Idempotency.LockedSuccessOnce` | backend/src/core/infra/transport/http/idempotency/decorators.py:35-52 | Under any interleaving at most one execution under the lock ends in 2xx, and it and all replays give one answer |
| `Idempotency.LaterRequestsReplay` | backend/src/core/infra/transport/http/idempotency/decorators.py:36-38 | Once an answer is stored, every request that arrives later gets it and executes nothing |
| `Idempotency.TwoUnderTheLock` | backend/src/core/infra/transport/http/idempotency/decorators.py:40-50 | If the lock may expire in any phase between taking it and storing the answer, a run from the start executes two requests under the lock, with any two answers |
| `Idempotency.TwoAfterExpiry` | backend/src/core/infra/transport/http/idempotency/decorators.py:41-50 | If the stored answer may expire, a run from the start executes two requests under the lock |
| `Idempotency.TwoUnsaved` | backend/src/core/infra/transport/http/idempotency/decorators.py:45-64 | If an error may come between the handler's answer and storing it, a run from the start succeeds twice under the lock and once more without it |
| `Idempotency.OnceUnderTheLockIff` | backend/src/core/infra/transport/http/idempotency/decorators.py:35-52 | In all permitted runs at most one execution under the lock succeeds exactly when answers are always stored and neither they nor the lock of a request that needs it may expire |
| `Idempotency.TwoByGivingUp` | backend/src/core/infra/transport/http/idempotency/decorators.py:62-64 | If a request may give up waiting, a run from the start succeeds once under the lock and once without it, with any two answers |
| `Idempotency.TwoByRaising` | backend/src/core/infra/transport/http/idempotency/decorators.py:62-64 | If a handler may raise, its unlocked second run stores nothing, and another request succeeds under the lock after it |
| `Idempotency.OnceAtAllIff` | backend/src/core/infra/transport/http/idempotency/decorators.py:31-64 | In all permitted runs at most one execution at all succeeds exactly when, besides, nobody may give up waiting and no handler may raise |
| `IdempotentPayments.RepeatedPaymentIsOne` | backend/src/core/infra/transport/http/idempotency/decorators.py:31-64 | With `confirm_payment` inside, any run leaves the tables of the other transactions plus at most one payment; an answer means paid |
| `IdempotentPayments.PaymentEndpoint.Pay` | backend/src/core/infra/transport/http/idempotency/decorators.py:31-64 | An undisturbed call replays, or leaves the tables as one payment would, and stores exactly a success |
| `SeedCursor.Repository.ExecuteBulk` | backend/src/cli/base.py:139-163 | The created rows are the data in order, with distinct new keys, whatever the chunk size |
| `SeedCursor.OffersOfOne` | backend/src/cli/commands/seed.py:270-270 | With distinct event ids, the offers counted for an event are exactly its own |
| `SeedCursor.NextAtCursor` | backend/src/cli/commands/seed.py:267-277 | At each turn the next event's categories stand at the cursor, and all of them are purchasable or none |
| `SeedCursor.Seeder.CollectPurchasable` | backend/src/cli/commands/seed.py:266-277 | The cursor stays in bounds and collects exactly the created categories of approved events, in order |
| `SeedCursor.Seeder.SeedEvents` | backend/src/cli/commands/seed.py:225-277 | One row an event and one a chosen category, in order, and exactly the categories of approved events become purchasable |

## Left out

- BookingConcurrency.Serializable: assumes, as its machine's `Examine` step does, that the availability test is evaluated with the category row locked; a database that evaluates it on an earlier snapshot is only covered by `Capacity.TestedOnSnapshot` and `Capacity.SnapshotProtectsIff`. Deadlocks of multi-category locking are left out: a blocked step simply does not happen.
- BookingTheorems.PaidExactlyOnce: a crash between a commit and the enqueueing of its mail or cancel task is excluded; the same for `PendingIsScheduled` and `ReservationsDrain`.
- BookingTheorems.NoOverselling: under the same assumption, for requests that name each category once and totals never lowered below what is held; the exact conditions are `Capacity.SnapshotProtectsIff`, `Capacity.SafeRequestIff` and `Capacity.LoweringTotalIff`.
- FrozenInventory.InventoryIsFrozen: stated for serial runs; the race between publishing an event and editing one of its categories is not modelled, administrative calls are single steps.
- Conservation.LoadedCountAgreesIff: is about a category whose items are loaded; the Python form answers 0 when they are not.
- Booking: reads of orders and events, mails, cascades of deleted users, check-in and blocking of tickets are not part of the model; event details are text by column name.
- CatalogServices.EventService: creating events and event categories; the guard that events live in leaf categories uses a key the resolver drops, so no invariant about it is claimed.
- ViewPipeline.NothingLostOrInvented: requests do not crash before their message is sent, and sending succeeds.
- ViewCounters.ViewService: one model and one caller at a time, and no failures (`ViewPipeline` and `CounterPolicies` have those); exact sets instead of HyperLogLog; the lock around filling a counter has no effect in a serial run.
- BulkInsert.Table.Create: column defaults and violations of other constraints.
- FilterKeys.PrepareFilters: values and annotations that resolve themselves are taken as resolved.
- RelationFilters.InAndJoinAgree: to-many relations, composite foreign keys and eager-loading options; an UPDATE with relation filters loses its joins and is not modelled.
- RelationFilters.SubqueryIsExact: a path that visits a model twice joins its table twice under one name, which the database refuses; the model gives such a statement a meaning. `RelationFilters.AgreeIffOnePerModel` is about paths without that.
- SqlExpressions.When.Resolve: an argument along a relation path is a column whose value the row already holds; the scalar subquery behind it is not modelled.
- LikePatterns.OperatorIsExact: case folding is one character to one character, as an uninterpreted function.
- UnitOfWork.WriteProgram: commits stand in the outermost block; failing database calls are excluded.
- UnitOfWork.BodyMeans: a commit inside a nested block is given the effect of one that keeps the savepoints, which the database would end; it speaks of the program for bodies that commit in the outermost block only.
- ResponseCache.RunStaysFresh: a handler reads its data at one moment; failing or partial cache commands are the `Bypass` step or an announcement that never comes.
- CachedEndpoints.HttpCache.Request: a call without a `Request` object, which goes straight to the handler.
- CacheKeys.KeysDecodeUniquely: the hash of the query string is a parameter, its collisions are not modelled.
- Idempotency.LockedSuccessOnce: for runs in which answers are stored and neither entry nor needed lock expires (`Idempotency.OnceUnderTheLockIff` is exact).
- Idempotency.OnceAtAllIff: cache failures answered with status 503, a lock whose release fails, and stored answers that cannot be read back are excluded.
- IdempotentPayments.RepeatedPaymentIsOne: a failing enqueue of the mail after the commit.
- SeedCursor.Repository.ExecuteBulk: an INSERT returns its rows in the order of its values.
- Users, roles, bans, tokens, password hashing, mail rendering, routing and validation: wrappers around libraries or easy members.
