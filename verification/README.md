# Proofs about the e-commerce lakehouse

This project models the parts of the e-commerce lakehouse repository that hold state or race against
each other, and proves what they keep.  `dafny verify dfyconfig.toml` checks all of it.

| module | models | written as |
|---|---|---|
| `Options`, `Calendar` | optional values, results, and the length of a day | datatypes and constants |
| `DemoConfig` | the clamped settings of the public demo | functions |
| `StreamLease` | any number of web processes that share one lease row | a transition system over atomic SQL statements |
| `LeaseProgress` | what each step of a tick does next, and that events go on | lemmas over the runs of `StreamLease` |
| `EventStream` | one web process: pruning, seeding, storage guard, tick, heartbeats | the class `Producer` |
| `Contracts` | the event contract and topic routing | functions |
| `Simulator`, `SimulatorRuns` | the event factory, and what all of its runs keep | the class `EventFactory` and a run semantics |
| `SimulatorHistory` | every event told by its own call and the events before it | functions of the history |
| `Silver`, `SilverReplay` | the micro-batch transform with its seven separate merges, crashes and replays | the class `SilverStore`, and functions on tables |
| `Relational` | the joins, groupings and sums of the SQL models, over sequences of rows | functions |
| `DeltaMerge` | the keyed merge that never deletes | functions and the class `Target` |
| `Gold`, `GoldFacts`, `GoldViews` | staging, intermediate and mart models, and their keys over one Silver state | functions |
| `GoldRows` | every row of the Gold models, told by the Silver tables | lemmas |
| `GoldRuns` | dbt runs over a growing Silver, complete or stopped halfway | a run semantics |
| `EndToEnd` | the simulator through Silver to the stored Gold tables | lemmas |
| `EventSink` | the Kafka-to-PostgreSQL sink with failures and restarts | the class `EventSink` and a run semantics |
| `Metabase` | find-or-create provisioning, interrupted and run again | the class `Metabase` and a run semantics |

Each class method is tied by its `ensures` to a function of the old state, and the theorems are about
runs of that function.  Randomness, clocks, database sizes, failures and crashes are inputs that a run may
choose freely; ids are fresh numbers; money is integer cents; timestamps are integer milliseconds.

## The main results

* **Lease.** For any processes, stalls, crashes, takeovers and clocks, the updates that take effect are at
  least one interval apart, because a process that is still mid-tick and still the owner carries exactly the
  current `last_event_at`.  The insert is not guarded: all inserted events keep their distance in every run exactly when
  no tick fails, and none outlives its claim, before its update, and each half has a concrete run that breaks it.
  In every run an event keeps its distance from all events recorded before its own tick's claim.
* **Progress.** From the log of what reached the database alone: when a claim is granted and what the lease then
  holds, when a tick makes an event, and when its update counts, each if and only if; and after any run, one whole
  tick of an idle process to which the lease is free, with an event due, takes the lease and records its event.
* **Simulator.** Every emitted event is a function of its own call and the events before it: carts, outstanding
  purchases and sessions are what the history says; purchases are conserved and refunded at most once.
* **Silver.** Any crashed attempts followed by a full one equal one uninterrupted attempt, up to the Kafka
  lineage of duplicate deliveries, and the final tables are a function of the Bronze rows alone: each accepted
  event stands in exactly the domain tables that its type and ids call for, column by column.
* **Contract.** What the producer routes and what Silver accepts meet the documented contract under exactly stated
  conditions on the event's own fields, and so does each of the two with respect to the other.
* **Gold.** Over any dbt runs on a growing Silver, whatever subset of its merges each earlier run completed and
  whether or not the first saw any event: some run fails exactly when a session merged once has two customers at a
  later merge.  While sessions have one customer, a complete last run leaves never-deleting tables equal to a rebuild,
  the dates exactly when every run over an empty Silver stood for a day among the final ones.  The three revenue
  totals agree, and equal quantity times price over the orders; every row of every model is told by the Silver tables.
* **Pipeline.** Every stored sale of a simulator run shows its own purchase, at quantity times price, and is refunded
  in full or not at all, however its events are delivered; once all are delivered the stored net revenue equals
  quantity times price over the purchases still outstanding.
* **Sink.** A record below a committed offset is in the table, was malformed, or was rolled back; over whole runs a
  well-formed record is present exactly when some stored batch held its id, and a concrete run loses one; the
  committed offsets, the positions and the skipped records are told by the cycles.
* **Provisioning.** Interrupted runs converge to exactly the state that one complete run leaves, and no run changes
  what was on the server.

## Assumptions

* Silver: an `event_id` is never reused for different content (`docs/data-contract.md:43`); no row's timestamp
  falls between the clock readings of one batch; a Bronze row is identified by its Kafka coordinates.  For a
  simulator run the first of these is proved, not assumed (`EndToEnd.SimulatedContentContract`).
* Lease: owner ids are unique, ticks of one process do not overlap, and a process's own clock is positive and
  does not go backwards between the cadence test and the event's timestamp.
* Silver does not change during one dbt run, and merged Gold tables are written by dbt runs only.
* The sink is the only consumer of its group, and partitions are not rebalanced away from a living process.
* A statement is atomic; a failed one has taken effect or not by the time the failure is seen.

## Where code and documents differ

* `docs/data-contract.md:35-36` asks for a positive price and quantity on purchases and refunds.  The producer
  contract checks only that they are present.  Silver looks at purchases only, and its three-valued conditions let
  through a missing price or quantity, and a missing event type; so a refund at a negative price is routed,
  accepted, and lowers what `fact_sales` calls refunded.  Exactly when each of the two meets the documented
  contract: `Contracts.RoutedMeetsContractExactly`, `Silver.AcceptedMeetsContractExactly` and their converses;
  the inputs: `Silver.ContractBreachesAccepted`, `Silver.RoutedButQuarantined`, `GoldFacts.NegativeRefundReachesSales`.
* A dbt run over an empty Silver stores its own day in `dim_date` (`dbt/models/marts/dim_date.sql:10-11`), which
  no later merge deletes (`GoldRuns.DatesEqualExactly`).
* The message logged after a failed batch says that offsets were not committed (`warehouse/event_sink.py:153`);
  the next successful batch commits past them (`EventSink.RollbackLosesARecord`).

## Model

| member | source | states |
|---|---|---|
| DemoConfig.BoundedInteger | recruiter-site/lib/demo-config.ts:1-5 | a finite setting is rounded to the nearest whole number and ends within the bounds, at the bound it lies beyond; an unset or non-finite one gives the fallback |
| DemoConfig.LoadExactly | recruiter-site/lib/demo-config.ts:8-22 | with nothing set the demo runs on its defaults, and settings far out of range end at their bounds |
| DemoConfig.SeedGoalExactly | recruiter-site/lib/event-stream.ts:131 | the goal of seeding for every kind of setting: 1500 unset, whole events, none to five thousand |
| DemoConfig.SeedingTopsUpTo | recruiter-site/lib/event-stream.ts:126-139 | seeding any existing count, for any setting at all, ends at the larger of the count and the goal, and the goal is at most 5000 |
| DemoConfig.SeedingTopsUp | recruiter-site/lib/demo-config.ts:8-11 | every environment leaves room for the seed cap under the row cap, and keeps at least the thirty days that seeding spans |
| StreamLease.EffectiveUpdatesKeepTheCadence | recruiter-site/lib/event-stream.ts:191-246 | in every run the effective updates are at least one interval apart, events_written counts those since the last takeover, and a pending owner carries the current last_event_at |
| StreamLease.CadenceStep | recruiter-site/lib/event-stream.ts:223-246 | every single step of any process keeps the cadence invariant, with no assumption on database time |
| StreamLease.OwnershipWindowsAreDisjoint | recruiter-site/lib/event-stream.ts:197-218 | with non-decreasing database time expiries never move back and one owner extends the lease only strictly after every expiry granted to another |
| StreamLease.WindowStep | recruiter-site/lib/event-stream.ts:197-246 | each step keeps the windows of different owners disjoint, the claim taking over only after expiry |
| StreamLease.InsertsFollowEarlierRecords | recruiter-site/lib/event-stream.ts:223-246 | with no assumption, an inserted event is at least one interval after every event whose update had taken effect when its own tick claimed the lease |
| StreamLease.FollowStep | recruiter-site/lib/event-stream.ts:191-246 | each step keeps that a pending tick saw a last event no older than any recorded before its claim |
| StreamLease.TimelyInsertsKeepTheCadence | recruiter-site/lib/event-stream.ts:223-246 | in every mode in which no tick fails or outlives its own claim before its update, all inserted events are at least one interval apart and none is abandoned |
| StreamLease.TimelyStep | recruiter-site/lib/event-stream.ts:223-246 | each timely step keeps at most one tick between claim and update, and the spacing of the inserts |
| StreamLease.StalledInsertBreaksSpacing | recruiter-site/lib/event-stream.ts:237-246 | for any interval, a concrete legal run with steady database time and no failure in which a tick that outlives its claim inserts an event too close to another: the insert is not fenced by the lease |
| StreamLease.FailedUpdateBreaksSpacing | recruiter-site/lib/event-stream.ts:239-246 | for any interval, a concrete legal run of one process that is never late and fails between insert and update, so that its next insert comes too close |
| StreamLease.LaxerModeAllows | recruiter-site/lib/event-stream.ts:223-246 | a run that is legal under stronger assumptions is legal, with the same state, under weaker ones |
| StreamLease.InsertsSpacedExactly | recruiter-site/lib/event-stream.ts:237-246 | all runs keep all inserted events one interval apart if and only if no tick fails, and none outlives its claim, before its update |
| StreamLease.InsertsAreAccountedFor | recruiter-site/lib/event-stream.ts:203-246 | every inserted event is recorded, being recorded, or abandoned by a tick of its own that failed, crashed or lost the lease |
| StreamLease.TickStep | recruiter-site/lib/event-stream.ts:223-246 | each step keeps ticks distinct, each tick inserting and settling at most once |
| StreamLease.AccountStep | recruiter-site/lib/event-stream.ts:239-246 | each step keeps inserts equal to records plus abandoned plus those between insert and update |
| LeaseProgress.EveryRunTellsTheLease | recruiter-site/lib/event-stream.ts:197-246 | in every run each column of the lease row is told by the log: the last grant, the last takeover, the last record and their number |
| LeaseProgress.ClaimGrantedExactly | recruiter-site/lib/event-stream.ts:191-221 | in every run an idle process is granted its claim if and only if the lease was never granted, is its own, or its last grant has expired; the new lease keeps the last event, and the start and the counter exactly on a renewal |
| LeaseProgress.DecisionExactly | recruiter-site/lib/event-stream.ts:233-239 | in every run a tick that storage lets through makes an event if and only if none was recorded before its own claim or the clock is one interval past the latest such; for a process that still holds the lease that is the latest of all |
| LeaseProgress.UpdateCountsExactly | recruiter-site/lib/event-stream.ts:240-246 | in every run the update counts the event and extends the lease if and only if the process still holds it, and otherwise leaves it alone |
| LeaseProgress.StopExactly | recruiter-site/lib/event-stream.ts:264-279 | a failed statement ends the tick and leaves the process idle, a crash ends the process; an event inserted only is abandoned |
| LeaseProgress.ProcessesFollowActions | recruiter-site/lib/event-stream.ts:227-231 | a process is ready exactly when it has prepared its history once, and dead exactly when it has crashed |
| LeaseProgress.CrashIsFinal | recruiter-site/lib/event-stream.ts:59 | a crashed process never acts again, so no owner id is used twice |
| LeaseProgress.EventsGoOn | recruiter-site/lib/event-stream.ts:223-246 | after any run, one whole tick of an idle process to which the lease is free, with an event due, is possible, and claims the lease, inserts the event and has it counted |
| EventStream.Producer.constructor | recruiter-site/lib/event-stream.ts:126-170 | a process over any rows and any lease starts valid, with its settings within their clamps and its history not ready |
| EventStream.Producer.InsertEvents | recruiter-site/lib/event-stream.ts:105-124 | adds exactly the given events under fresh ids and changes no other row |
| EventStream.NewRowsAt | recruiter-site/lib/event-stream.ts:105-124 | an insert leaves under each new id the time of its event, and every old row as it was |
| EventStream.SeedTimesCoverTheWindow | recruiter-site/lib/event-stream.ts:135-139 | every whole millisecond of the last thirty days can be drawn for a seeded event |
| EventStream.AnySeedTimesCanBeDrawn | recruiter-site/lib/event-stream.ts:135-139 | and so can any sequence of such instants |
| EventStream.Producer.SeedHistoryIfNeeded | recruiter-site/lib/event-stream.ts:126-144 | tops the table up to the goal; a failure at any statement leaves whole chunks of 250 or the whole top-up, every old row, and new rows at most thirty days old |
| EventStream.Producer.SendAll | recruiter-site/lib/event-stream.ts:141-143 | sends all events when enough inserts succeed, and otherwise whole chunks of 250, or all when the failed last insert has taken effect |
| EventStream.Producer.PruneHistoryIfNeeded | recruiter-site/lib/event-stream.ts:146-170 | keeps exactly the newest rows that are not older than the cutoff, at most the row cap of them; failing at any statement, it leaves the table as it was, without its old rows, or pruned |
| EventStream.PrunedExactly | recruiter-site/lib/event-stream.ts:146-170 | a table is pruned if and only if what is kept was there, is not older than the cutoff and fits the cap, and a row is dropped only for being older or for a cap full of rows at least as new |
| EventStream.Producer.DeleteOldest | recruiter-site/lib/event-stream.ts:158-169 | deletes exactly that many rows, each at least as old as every row kept |
| EventStream.Producer.StorageAllowsWrite | recruiter-site/lib/event-stream.ts:172-189 | answers from the last reading within five minutes unless forced, and otherwise compares a new reading with the guard |
| EventStream.Producer.ClaimLease | recruiter-site/lib/event-stream.ts:191-221 | takes the lease exactly when it is missing, its own or expired, keeping the last event, and the start and the counter when it is its own; touches nothing else |
| EventStream.Producer.PrepareHistory | recruiter-site/lib/event-stream.ts:227-231 | prunes, checks the guard and, unless paused, seeds: done, it leaves the pruned table or the prepared number of rows as the guard says; cut short at any statement it leaves a table with the same fate and is not ready |
| EventStream.Producer.Tick | recruiter-site/lib/event-stream.ts:223-254 | refused exactly while another's lease runs, and then nothing changes; else ready afterwards, paused exactly when the reading in force reaches the guard, and otherwise emitting exactly when there is no last event or the clock is an interval past it; the whole lease row is stated, and the rows: prepared, kept, or grown by the event |
| EventStream.Producer.Emit | recruiter-site/lib/event-stream.ts:237-253 | inserts one event, updates the lease only as its owner, and prunes on every 120th event |
| EventStream.Producer.Maintain | recruiter-site/lib/event-stream.ts:248-253 | resets the counter and prunes to the row cap |
| EventStream.Producer.RunHeartbeats | recruiter-site/lib/event-stream.ts:262-280 | each heartbeat is one tick whose outcome and lease follow from the lease before it; the row count stays within the cap plus the events since maintenance, and within the cap plus 120 at every statement |
| EventStream.Producer.HeartbeatsKeepTheCadence | recruiter-site/lib/event-stream.ts:234-246 | the events of successive heartbeats are at least one interval apart |
| EventStream.Producer.RetryPreparation | recruiter-site/lib/event-stream.ts:227-231 | preparation cut short at any of its statements, failed or effective, any number of times and retried later, ends with as many rows as one uninterrupted preparation of the original table |
| EventStream.PruneLeavesRecentRows | recruiter-site/lib/event-stream.ts:146-170 | a table within the cap loses exactly its rows older than the cutoff |
| EventStream.FirstDeleteKeepsFate | recruiter-site/lib/event-stream.ts:150-153 | stopping after the first delete of a prune does not change how many rows any later preparation leaves |
| EventStream.PruneKeepsFate | recruiter-site/lib/event-stream.ts:146-170 | pruning early does not change how many rows any later preparation leaves |
| EventStream.SeedKeepsFate | recruiter-site/lib/event-stream.ts:126-144 | a partial seeding does not change how many rows any later preparation leaves |
| EventStream.SeededRowsSurvivePruning | recruiter-site/lib/demo-config.ts:11 | rows at most thirty days old survive a prune at the same instant, for every environment |
| Contracts.RoutedExactly | generator/contracts.py:41-56 | an event is routed exactly when its envelope is complete, its type known, and a purchase or refund has its four fields; purchases, refunds, inventory updates and reviews alone go to their topics |
| Contracts.RefusalExactly | generator/contracts.py:41-54 | a refusal names exactly the missing fields of the envelope in order, or the unknown type, or the first missing value of a purchase or refund |
| Contracts.RoutedMeetsContractExactly | docs/data-contract.md:11-36 | a routed event meets the documented contract if and only if a purchase or refund has positive amounts |
| Contracts.MeetingContractRoutedExactly | docs/data-contract.md:11-36 | an event that meets the documented contract is routed if and only if a purchase or refund names user and product |
| Simulator.EventFactory.constructor | generator/events.py:45-64 | builds one product for each number from one up, with positive prices, and empty tables |
| Simulator.EventFactory.MakeEnvelope | generator/events.py:66-83 | opens a session for a user that has none, and otherwise uses the one there is |
| Simulator.EventFactory.Take | generator/events.py:138-144 | pops the latest product of a filled cart whenever any cart is filled, else picks a random product and leaves the carts alone |
| Simulator.EventFactory.MakeAddToCart | generator/events.py:119-125 | the event and the new carts, sessions and purchases of an addition |
| Simulator.EventFactory.MakeRemoveFromCart | generator/events.py:127-135 | the event and the new tables of a removal |
| Simulator.EventFactory.MakePurchase | generator/events.py:137-158 | the event and the new tables of a purchase, the event itself becoming outstanding |
| Simulator.EventFactory.MakeRefund | generator/events.py:160-179 | refunds and removes one outstanding purchase, or makes a purchase when there is none |
| Simulator.EventFactory.MakeUserLogin | generator/events.py:192-198 | may replace the user's session before the event carries it |
| Simulator.EventFactory.MakeBrowsing | generator/events.py:106-208 | views, searches, reviews and inventory updates leave carts and purchases alone |
| Simulator.EventFactory.Make | generator/events.py:97-104 | an unsupported type changes nothing; any other gives the event and the state of one simulator step |
| SimulatorRuns.EveryRunKeepsTheInvariant | generator/events.py:45-208 | over every run the ledger, the sessions, the prices and the carts stay consistent with the emitted events |
| SimulatorRuns.PurchasesAreConserved | generator/events.py:137-179 | emitted purchases are the outstanding ones plus the refunds; no order is refunded twice, each refund copies its purchase, and outstanding means not refunded |
| SimulatorRuns.CartsFollowTheEvents | generator/events.py:119-144 | the carts are what replaying the events gives, and every purchase or removal takes the latest product of a filled cart when there is any |
| SimulatorRuns.CartEffect | generator/events.py:119-144 | one event changes the cart of its own user only, pushing or popping as its type says |
| SimulatorRuns.LedgerRefund | generator/events.py:160-179 | refunding one outstanding purchase keeps the ledger exact |
| SimulatorRuns.SessionsBelongToOneUser | generator/events.py:66-83 | over every run a session id belongs to one user, across logins and refunds |
| SimulatorRuns.SimulatedEventsMeetTheContract | generator/contracts.py:41-56 | every simulated event passes the producer contract and is routed by its own type |
| SimulatorHistory.EventsAreExplained | generator/events.py:66-208 | in every run each event is, column by column, what its call and the events before it explain: user, product, catalogue columns, quantity, order and refund ids, the taking of the latest product of a filled cart, the refund of the drawn outstanding purchase |
| SimulatorHistory.SessionsFollowTheCalls | generator/events.py:66-83 | in every run an event of a user carries the number of that user's latest opening, which is the user's first event or a login drawn to replace the session |
| SimulatorHistory.ReloginIsFresh | generator/events.py:192-198 | a login drawn to replace the session carries one that no event before it has |
| Silver.Classify | spark/jobs/silver_transform.py:104-119 | the chain of three-valued conditions accepts exactly what two-valued reasoning about the present fields accepts |
| Silver.ReasonExactly | spark/jobs/silver_transform.py:104-119 | each reason is given if and only if its condition is the first of the chain that the event's fields meet |
| Silver.AcceptedMeetsContractExactly | spark/jobs/silver_transform.py:104-119 | what Silver accepts meets the documented contract if and only if it has a type, a purchase has both amounts, and a refund has two positive ones |
| Silver.MeetingContractAcceptedExactly | spark/jobs/silver_transform.py:104-119 | what meets the documented contract is accepted if and only if it is not in the future and a purchase names user and product |
| Silver.RoutedAcceptedExactly | spark/jobs/silver_transform.py:104-119 | what the producer routes is accepted if and only if it is not in the future and a purchase has positive amounts |
| Silver.AcceptedRoutedExactly | generator/contracts.py:41-56 | what Silver accepts would be routed if and only if it has a type and a purchase or refund has its four fields |
| Silver.ContractBreachesAccepted | docs/data-contract.md:34-36 | an event with no type, a purchase with no price or no quantity, and a refund at a negative price are accepted against the documented contract, the refund being routed as well |
| Silver.RoutedButQuarantined | spark/jobs/silver_transform.py:114-118 | a purchase at price zero is routed by the producer contract and quarantined by Silver |
| Silver.SilverStore.MergeInsertOnly | spark/jobs/common.py:26-41 | inserts the unseen keys of a frame and changes no stored row, an empty frame included |
| Silver.SilverStore.DropDuplicates | spark/jobs/silver_transform.py:121-124 | keeps one valid row for each event id that has any |
| Silver.SilverStore.MergeTable | spark/jobs/silver_transform.py:153-261 | one of the seven merge statements, on its own table |
| Silver.SilverStore.TransformBatch | spark/jobs/silver_transform.py:75-262 | an attempt that dies after any number of its merges leaves exactly those merges done |
| SilverReplay.CrashedAttemptsConverge | spark/jobs/silver_transform.py:153-261 | any crashed attempts and then a full one leave the tables of one uninterrupted attempt, up to the lineage of duplicates |
| SilverReplay.MergesReach | spark/jobs/silver_transform.py:153-261 | from any mixture of merged and unmerged tables, the first n merges leave n merged tables and disturb no other |
| SilverReplay.SilverRepresentsBronze | spark/jobs/silver_transform.py:104-261 | after any batches and replays events holds one row for each id with a valid row, quarantine exactly the rejected rows, and each accepted event stands in exactly the domain tables that its type, user and product call for, every column being the delivered event's |
| SilverReplay.SilverDependsOnBronzeOnly | spark/jobs/silver_transform.py:104-261 | two histories over the same classified Bronze rows end in the same Silver state |
| SilverReplay.EveryRowIsKeptOnce | spark/jobs/silver_transform.py:121-124 | each Bronze row is kept by its id or by its coordinates, as its own verdict says |
| SilverReplay.BatchKeepsRepresentation | spark/jobs/silver_transform.py:75-262 | one batch with its crashes extends what Silver represents by exactly that batch |
| SilverReplay.PicksProjectAlike | spark/jobs/silver_transform.py:124 | whichever duplicate is kept, the domain tables get the same rows |
| SilverReplay.ProjectionOfMerge | spark/jobs/common.py:26-41 | merging the projections is projecting the merge |
| Relational.InnerJoinIsOneToOne | dbt/models/marts/fact_orders.sql:24-26 | where every left row has exactly one match the join keeps each once, in order |
| Relational.LeftJoinIsOneToOne | dbt/models/intermediate/customer_metrics.sql:32-34 | where no left row has two matches the left join keeps each once, in order, matched exactly when there is a match |
| Relational.GroupSumsAddUp | dbt/models/intermediate/sales_metrics.sql:1-11 | distinct keys that cover the rows partition them: the group sums add up to the plain sum |
| Relational.JoinIgnoresOrder | dbt/models/marts/fact_orders.sql:24-26 | a join with at most one match does not depend on how the joined table is stored |
| DeltaMerge.UpsertSucceeds | dbt/macros/materializations/delta_merge.sql:36-43 | merging tables with unique keys succeeds, takes every source row, keeps every unmatched target row and nothing else |
| DeltaMerge.MergeEqualsRebuildExactly | dbt/macros/materializations/delta_merge.sql:36-43 | the merged table equals the view exactly when every key it held is still in the view |
| DeltaMerge.RemergeFailsExactlyOnDuplicates | dbt/macros/materializations/delta_merge.sql:36-43 | a first merge accepts any view; merging the view again fails exactly when it has two rows for one key |
| DeltaMerge.MergingFailsExactly | dbt/macros/materializations/delta_merge.sql:36-43 | over any sequence of merges some merge fails exactly when a key of one view has two rows in a later view |
| DeltaMerge.MergedKeys | dbt/macros/materializations/delta_merge.sql:36-43 | the table holds exactly the keys that some merged view had |
| DeltaMerge.MergedEqualsLastExactly | dbt/macros/materializations/delta_merge.sql:36-43 | after any sequence of merges of uniquely keyed views the table equals the last view exactly when every earlier view's keys are still in it |
| DeltaMerge.Target.Materialize | dbt/macros/materializations/delta_merge.sql:21-43 | one run creates the table, or replaces a view of that name, and then merges, leaving the rows unchanged if the merge fails |
| Gold.DimDates | dbt/models/marts/dim_date.sql:8-22 | every date from the first event's to the last event's, each once, or only today when there is none |
| GoldFacts.OrderLinesOneToOne | dbt/models/marts/fact_orders.sql:24-26 | the two dimension joins keep every order line once, in order, with its own customer and product |
| GoldFacts.FactOrdersGrain | dbt/models/marts/fact_orders.sql:8-26 | fact_orders has exactly one row per order line |
| GoldFacts.FactSalesGrain | dbt/models/marts/fact_sales.sql:8-33 | fact_sales has exactly one row per order line, its refunded amount being the sum of that order's refunds |
| GoldFacts.CustomerMetricsGrain | dbt/models/intermediate/customer_metrics.sql:1-34 | one row per customer, with the gross of that customer's orders and the numbers of its distinct orders and sessions, no join multiplying any of them |
| GoldFacts.RefundedIsNotNegative | dbt/models/marts/fact_sales.sql:8-12 | refunds of no negative amount never make a refunded amount negative |
| GoldFacts.NegativeRefundReachesSales | dbt/models/marts/fact_sales.sql:8-12 | a refund at a negative price, accepted by Silver, makes the refunded amount of its order negative |
| GoldFacts.LifetimeGrossTotalsOrders | dbt/models/intermediate/customer_metrics.sql:1-34 | lifetime revenue over all customers totals the order lines |
| GoldFacts.SalesMetricsTotalOrders | dbt/models/intermediate/sales_metrics.sql:1-11 | revenue per day and product totals the order lines |
| GoldFacts.SalesTotalOrders | dbt/models/marts/fact_sales.sql:24-33 | gross revenue over fact_sales totals the order lines |
| GoldFacts.SessionCountsAddUp | dbt/models/marts/fact_sessions.sql:8-21 | the event and purchase counts of all sessions add up to the events and purchases that have a session: none counted twice, none left out |
| GoldFacts.CountryCountsAddUp | dbt/models/marts/dim_country.sql:8-14 | the counts of all countries add up to the events that name one |
| GoldFacts.LatestIsLatest | dbt/models/staging/stg_products.sql:4-6 | the chosen row is a row of the product, and no timed row of the product is later |
| GoldViews.CustomerKeys | dbt/models/intermediate/customer_metrics.sql:20-34 | dim_customer has exactly one row for each customer with any activity in Silver |
| GoldViews.ProductKeys | dbt/models/staging/stg_products.sql:1-16 | dim_product has exactly one row for each product with any activity in Silver |
| GoldViews.CountryKeys | dbt/models/marts/dim_country.sql:8-14 | dim_country has exactly one row for each country that any event names |
| GoldViews.OrderFactKeys | dbt/models/marts/fact_orders.sql:8-26 | at a completed batch fact_orders has exactly one row for every row of silver.orders, under its event id |
| GoldViews.SaleKeys | dbt/models/marts/fact_sales.sql:8-33 | and so has fact_sales, whatever refunds there are |
| GoldViews.InventoryKeys | dbt/models/marts/fact_inventory.sql:8-17 | at a completed batch fact_inventory has exactly one row for every inventory update that names a product, and no other |
| GoldViews.OrderHasActivity | spark/jobs/silver_transform.py:159-217 | at every completed batch an order line has its customer's and its product's activity |
| GoldViews.SilverIsJoinable | dbt/models/staging/stg_customers.sql:1-14 | so both dimensions hold a match for every order line |
| GoldViews.RevenueAgrees | dbt/models/intermediate/sales_metrics.sql:1-11 | at every completed batch the three revenue totals equal quantity times price over the rows of silver.orders |
| GoldViews.SessionKeys | dbt/models/marts/fact_sessions.sql:8-21 | fact_sessions has a row for exactly the sessions seen, and two or more for exactly those with two customers |
| GoldViews.SessionKeysUniqueExactly | dbt/models/marts/fact_sessions.sql:8-21 | fact_sessions has unique keys exactly when no session has two customers |
| GoldViews.DatesExactly | dbt/models/marts/dim_date.sql:8-22 | dim_date has exactly the days between those of any two events, and over no event today alone |
| GoldViews.DatesGrowExactly | dbt/models/marts/dim_date.sql:8-22 | when Silver grows, the earlier days are all still there exactly unless an empty Silver stood for a day that is not |
| GoldRows.OrderFactsShow | dbt/models/marts/fact_orders.sql:8-26 | a row of fact_orders shows its row of silver.orders, with quantity times price, its own customer and product, and the day of the order |
| GoldRows.RefundsShow | dbt/models/staging/stg_refunds.sql:1-12 | a staged refund shows its row of silver.refunds, with quantity times price |
| GoldRows.SalesShow | dbt/models/marts/fact_sales.sql:8-33 | a row of fact_sales shows its order row, with quantity times price, less quantity times price over the refund rows of its order |
| GoldRows.CustomersShow | dbt/models/intermediate/customer_metrics.sql:1-34 | a customer's row has quantity times price over its order rows, and the numbers of its distinct orders and sessions in Silver |
| GoldRows.ProductsShow | dbt/models/staging/stg_products.sql:1-16 | a product's row has the category and price of a row of its activity than which none with a time is later |
| GoldRows.SessionsShow | dbt/models/marts/fact_sessions.sql:8-21 | a session's row counts the events and the purchases in Silver of that session and customer |
| GoldRows.CountriesShow | dbt/models/marts/dim_country.sql:8-14 | a country's row counts the events in Silver that name it |
| GoldRows.InventoryFactsShow | dbt/models/marts/fact_inventory.sql:8-17 | a row of fact_inventory shows its inventory update |
| GoldRows.MetricsShow | dbt/models/intermediate/sales_metrics.sql:1-11 | a row of sales_metrics has quantity times price, the units and the distinct orders over the order rows of its day, category and product |
| GoldRows.EveryOrderIsMeasured | dbt/models/intermediate/sales_metrics.sql:1-11 | each order row belongs to exactly one row of sales_metrics |
| GoldRuns.RunsMergeSeparately | dbt/macros/materializations/delta_merge.sql:36-43 | though facts join stored dimensions, after any runs each table is its own views over Silver merged one after the other, and a run fails when one of these merges does |
| GoldRuns.RunsFailExactly | dbt/models/marts/fact_sessions.sql:1-21 | some run over a growing Silver fails exactly when a session that an earlier run merged has two customers when a later run merges it; no other table ever fails |
| GoldRuns.FactsIgnoreStorage | dbt/models/marts/fact_sales.sql:30-33 | facts built over merged dimensions equal facts built over the dimension views |
| GoldRuns.DatesEqualExactly | dbt/models/marts/dim_date.sql:8-22 | the stored dates equal a rebuild exactly when the day of every run over an empty Silver lies among the last run's days |
| GoldRuns.GoldEqualsRebuildExactly | dbt/macros/materializations/delta_merge.sql:36-43 | however many earlier runs stopped after however many of their merges, and whether or not Silver began empty, one complete run succeeds and equals a rebuild in seven tables, and in the dates under exactly that condition |
| GoldRuns.NonEmptyStartEqualsRebuild | dbt/macros/materializations/delta_merge.sql:36-43 | when the first run sees any event, all eight tables equal a rebuild |
| EndToEnd.SimulatedContentContract | docs/data-contract.md:43 | deliveries of a simulator run never use one event id for two contents |
| EndToEnd.SimulatedEventsQuarantinedExactly | spark/jobs/silver_transform.py:104-119 | a simulated event is quarantined exactly when the batch's clock is behind it |
| EndToEnd.RefundedIsAllOrNothing | dbt/models/marts/fact_sales.sql:8-12 | what is refunded on an order is its whole gross once its refund has arrived in Silver, and nothing before |
| EndToEnd.EverySaleIsAllOrNothing | dbt/models/marts/fact_sales.sql:8-33 | for every simulator run and every delivery of it, each sale shows its purchase's customer, product, time, quantity and price, has quantity times price as its gross, and is refunded by zero or by exactly that |
| EndToEnd.NetRevenueEqualsOutstanding | dbt/models/marts/fact_sales.sql:24-33 | when everything is delivered and nothing quarantined, net revenue equals quantity times price, written out, over the outstanding purchases |
| EndToEnd.SilverGrows | spark/jobs/common.py:26-41 | later batches never change or drop an event of an earlier state |
| EndToEnd.SessionsStayOwned | dbt/models/marts/fact_sessions.sql:8-21 | the one-user sessions of the simulator reach Silver as one-customer sessions |
| EndToEnd.ScheduledRunsEqualRebuild | dbt/macros/materializations/delta_merge.sql:36-43 | dbt runs at any times between the batches of a simulator run's deliveries, each but the last stopping after any of its merges, never fail and equal a rebuild, the dates of an empty start aside |
| EndToEnd.StoredRevenueIsOutstanding | dbt/models/marts/fact_sales.sql:1-33 | after any such runs every stored sale shows its purchase and is refunded in full or not at all, and after full, punctual delivery their net revenue is quantity times price over what is outstanding |
| EventSink.StagedPresents | warehouse/event_sink.py:39-44 | a batch keeps every stored row, adds only its own records, and leaves each of its well-formed records present by id |
| EventSink.RedeliveryChangesNothing | warehouse/event_sink.py:39-44 | delivering present or discarded records again leaves the table as it is |
| EventSink.CycleKeepsSound | warehouse/event_sink.py:118-154 | each pass of the loop, whatever fails or dies in it, keeps every record below the position accounted for |
| EventSink.NothingIsLostSilently | warehouse/event_sink.py:118-154 | in every run each record below a committed offset is present, was discarded as malformed, or was rolled back |
| EventSink.NoRollbackNoLoss | warehouse/event_sink.py:118-154 | without a rollback in a surviving process every well-formed record below a committed offset is in the table |
| EventSink.CompleteRunsAgree | warehouse/event_sink.py:118-154 | two rollback-free runs over a whole log hold the same events, however they were cut and restarted |
| EventSink.PresentExactly | warehouse/event_sink.py:118-154 | in every run, with any rollbacks, deaths and restarts, a well-formed record is in the table if and only if some stored cycle's batch held a well-formed record with its id |
| EventSink.CommittedExactly | warehouse/event_sink.py:149-150 | in every run the committed offsets are those of the last cycle whose batch was stored with a reported commit and then committed to Kafka |
| EventSink.NothingCommitted | warehouse/event_sink.py:149-150 | and the earliest ones as long as there is no such cycle |
| EventSink.PositionExactly | warehouse/event_sink.py:118-157 | a living process goes on from where it polled to, even after a rollback, and a new one from the committed offsets |
| EventSink.SkippedExactly | warehouse/event_sink.py:151-154 | a record was skipped if and only if a process lived on after a batch that held it and did not reach the table |
| EventSink.RollbackThenCommitSkipsExactly | warehouse/event_sink.py:149-154 | after a survived rollback and a completed pass, a rolled-back record is present exactly when its id was stored before or came again in the second batch |
| EventSink.RollbackLosesARecord | warehouse/event_sink.py:151-154 | a concrete run in which a well-formed record below the committed offset is missing |
| EventSink.DeathLosesNothing | warehouse/event_sink.py:83-101 | a process that dies at any point restarts from the committed offsets, with nothing skipped |
| EventSink.EventSink.constructor | warehouse/event_sink.py:22-37 | an empty table and the earliest offsets |
| EventSink.EventSink.Stage | warehouse/event_sink.py:123-148 | the statements of one transaction, discarding malformed messages and raising on the first other failure |
| EventSink.EventSink.RunCycle | warehouse/event_sink.py:119-154 | one pass of the loop has the effect of one step of the run semantics |
| EventSink.EventSink.Run | warehouse/event_sink.py:104-157 | the loop over any script of passes, deaths and restarts, with every record below a committed offset accounted for |
| Metabase.FindStays | dashboards/bootstrap_metabase.py:92-111 | whatever a request adds, the first dashboard and the first card of a name stay the same |
| Metabase.ExecuteDoesAll | dashboards/bootstrap_metabase.py:169-182 | after a run, from any server, everything it asked for is there |
| Metabase.RerunGoesOn | dashboards/bootstrap_metabase.py:169-182 | a second run over an interrupted one leaves what the longer of the two leaves alone |
| Metabase.InterruptedRunsConverge | dashboards/bootstrap_metabase.py:169-182 | from any server, interrupted runs and then a complete one leave exactly what one complete run leaves, and a further run changes nothing |
| Metabase.NothingIsDisturbed | dashboards/bootstrap_metabase.py:92-166 | from any server, no run changes, moves or removes a dashboard, a card or an attachment that was there |
| Metabase.StepKeepsSane | dashboards/bootstrap_metabase.py:92-166 | each request keeps names unique, dashboards and cards as the manifest describes them, and every card at the row and column of one of its listings |
| Metabase.DistinctPlacesAreDisjoint | dashboards/bootstrap_metabase.py:154-157 | cards at different positions have rectangles that do not overlap |
| Metabase.ManifestIsProvisioned | dashboards/bootstrap_metabase.py:92-182 | through any interruptions, from an empty server, one dashboard and one card for each name, described as in the manifest, each card once on each dashboard that lists it, at the row and column of its listing, without overlap |
| Metabase.Metabase.DashboardId | dashboards/bootstrap_metabase.py:92-104 | finds the first dashboard of that name or creates one, and returns it |
| Metabase.Metabase.CardId | dashboards/bootstrap_metabase.py:106-125 | finds the first card of that name or creates one, and returns it |
| Metabase.Metabase.AttachCard | dashboards/bootstrap_metabase.py:127-166 | adds the card at its place unless the dashboard has it, and keeps the cards that were there |
| Metabase.Metabase.Provision | dashboards/bootstrap_metabase.py:169-182 | the two loops issue exactly the requests of the manifest's program, in order |

## Left out

* StreamLease: the rows that pruning and seeding change are not part of the multi-process system, which
  tracks the lease and the inserted events; `EventStream` proves those rows for a single process.
* EventStream.Producer.Tick: models a tick without failed statements; failures are covered by `StreamLease` for the
  lease and the inserts, and by `RetryPreparation` for every statement of the preparation.
* EventStream.Producer.SeedHistoryIfNeeded: does not model the sort of the seeded events by time, since only
  their set matters to the table.
* Simulator.EventFactory.constructor: does not model a catalogue of no products, with which the original
  factory can make no product event.
* DemoConfig: a setting is a number already; JavaScript's conversion of text to numbers is not modelled.
* Contracts.MeetsContract: does not include the fields that the document requires of "customer events", without
  saying which events these are, nor those that it calls important; neither has a rule that the code checks on all.
* Silver.Classify: JSON, timestamp and regular-expression parsing and the normalisation of text columns come
  before it and are not modelled; a payload that does not parse is an event with no fields.
* Silver.SilverStore.MergeInsertOnly: does not model the check of the temporary view's name, which the seven
  fixed names pass.
* Gold models: the descriptive columns (names, devices, first and last times, `product_views`, `cart_additions`) are
  left out or kept as one `attributes` text; ties in `max_by` go to the later row of a fixed scan; the PostgreSQL
  branch of the models, `inventory_metrics` and the averages of `sales_metrics` are not modelled.
* Gold amounts: a sum over NULLs only reads as zero, amounts do not overflow `decimal(14, 2)`, and prices are
  whole cents.
* Hashes (`stable_hash`, quarantine ids) are taken to be injective, and stand as their arguments.
* DeltaMerge.Target.Materialize: does not model the temporary view, which each run drops before and after.
* EventSink.EventSink.Run: a stop request only ends the script; connecting, retrying and sleeping are not modelled.
* Metabase.Metabase.AttachCard: the temporary negative ids that the server replaces are not modelled, nor are login,
  database registration, the text of a card's query file, and two clients that provision at the same time.
* The Databricks notebooks, the Airflow DAG, the job gateway, the JDBC publisher, the quality checks, the
  dashboards' SQL and the web pages are not modelled.
