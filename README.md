# Restaurant order reports: a Dafny model

This project models the server-side functions of a restaurant ordering app,
all of which live in `functions/index.js`:

- **`onOrderCompleted`**: fires when an order's status becomes `completed`.
  It first creates or updates that day's **daily report** (`dailyReports/YYYY-MM-DD`):
  total revenue, order count, per-item sales counts, and revenue per hour bucket.
  Then it runs one **item report** transaction per order line (`itemReports/<itemId>`),
  which keeps each item's all-time quantity sold and revenue.
- **`createItemSalesMap`** and **`formatDate`**, plus the two-digit hour key.
  These build the report keys and the first item-count map.
- **`cleanupOldOrders`**: the nightly sweep. In one batch it moves every completed or
  cancelled order created before the cutoff from `orders` to `archivedOrders`.
- The **guard of `onOrderReady`**: that function's body only logs.

Modules:

- `Optional`: `Option` and a map lookup that may miss.
- `DateKeys`: the date key and the hour key, with their parsers and round trips.
- `Orders`: the order and line-item values, the two status guards, and per-item sums over the lines.
- `Reports`: what one daily-report transaction and one item-report transaction write, written as
  functions on values. It also holds the facts proved about them: the create and update paths,
  folds over several orders, commutation, and order independence.
- `Archival`: the sweep's selection and its effect on the two collections, as functions, with lemmas.
- `Store`: the document store as a class `Database`. Its fields are `dailyReports`,
  `itemReports`, `orders` and `archivedOrders`. Its methods are the functions themselves.
  The loops of these methods are proved against the `Reports` and `Archival` functions.

Each store transaction is one atomic read-then-write step. Whether a transaction or the
sweep's batch commits is an input to the method: a boolean, or for the item fan-out the set
of line indices whose transaction fails. The local-time reading of an order's timestamp is
also an input (`LocalDateTime`: year, 0-based month, day and hour), and so is the sweep's cutoff.

Two behaviours of the code are worth stating up front:

- **`createItemSalesMap` is last-wins.** Every line writes its own quantity under its id, so a
  later line with the same id overwrites an earlier one. Repeated lines in a day's first order
  are therefore not summed, while the update path sums them.
  `DuplicateLinesOverwriteOnCreate` and `FirstOrderWithRepeatedItemUndercounts` show two
  `coffee × 1` lines counted as 1. `CreateAgreesWithMergeWhenDistinct` and
  `CreateDiffersFromMergeWhenRepeated` show that, for positive quantities, the create path and
  the update path agree exactly when the item ids in the order are distinct.
- **Failures are partial.** The item fan-out does not stop at the first failure. Every line
  whose transaction commits is applied, and the handler only logs the error. `OnOrderCompleted`
  states exactly which lines reach the item reports.

## Model

| member | source | states |
|---|---|---|
| Orders.RedeliveryDoesNotAggregate | functions/index.js:20 | an update whose previous status is already `completed` never passes the completion guard |
| Orders.GuardsAreExclusive | functions/index.js:115 | no single update passes both the completion guard and the ready guard |
| Orders.EntriesOfAbsorbingStatus | functions/index.js:20 | along a status history that never leaves `completed` once reached, the guard fires exactly once if the history reaches `completed` from another status, and otherwise never |
| Orders.Ids | functions/index.js:140-146 | an id is in the set exactly when some line carries it |
| Orders.SumsOfAbsentId | functions/index.js:52-55 | an id that no line carries contributes 0 quantity and 0 revenue |
| Orders.SumOfDistinctLine | functions/index.js:52-55 | with distinct ids, the summed quantity for a line's id is that line's quantity |
| DateKeys.DecimalString | functions/index.js:132-133 | `String(n)` is a non-empty string of digits; it is one digit exactly when n < 10; it has no leading zero |
| DateKeys.DecimalStringRoundTrip | functions/index.js:132-133 | reading `String(n)` back as decimal gives n |
| DateKeys.PadStart | functions/index.js:132-133 | `padStart`: the length is the larger of the width and the input length; the input is a suffix; every added character is the fill |
| DateKeys.TwoDigitsRoundTrip | functions/index.js:132-133 | below 100, the padded value is two digits that read back as the number |
| DateKeys.YearStringRoundTrip | functions/index.js:131-134 | the year as written in the template, minus sign included, reads back as the year |
| DateKeys.FormatDateRoundTrip | functions/index.js:130-135 | for months and days below 100, the date key parses back to the same year, 0-based month and day |
| DateKeys.SameDateKeyIffSameDay | functions/index.js:130-135 | two orders share a daily report exactly when they fall on the same calendar day (both directions) |
| DateKeys.FormatDateShape | functions/index.js:130-135 | a four-digit year with a valid month gives a 10-character `YYYY-MM-DD` key with digits in every field |
| DateKeys.SameHourKeyIffSameHour | functions/index.js:28 | two hours share an hour bucket exactly when they are equal |
| DateKeys.HourKeyShape | functions/index.js:28 | an hour of the day gives two digits that read back as the hour |
| Reports.AddAt | functions/index.js:58-59 | `m[k] = (m[k] \|\| 0) + v` adds k as a key and raises only k's count, by v |
| Reports.ItemSalesMapKeys | functions/index.js:140-146 | the keys of `createItemSalesMap` are exactly the order's item ids |
| Reports.ItemSalesMapLastWins | functions/index.js:142-144 | an id's value is the quantity of the last line carrying that id |
| Reports.MergeItemCountsSums | functions/index.js:48-55 | the update loop adds the order's ids as keys and raises each id's count by the sum of that id's quantities; missing keys count as 0 |
| Reports.MergeItemCountsCommute | functions/index.js:52-55 | merging two orders' lines gives the same counts in either order |
| Reports.CreateAgreesWithMergeWhenDistinct | functions/index.js:36-55 | with distinct ids, `createItemSalesMap` equals the update loop applied to an empty map |
| Reports.DuplicateLinesOverwriteOnCreate | functions/index.js:140-146 | two `coffee × 1` lines give 1 in `createItemSalesMap` but 2 in the update loop |
| Reports.ItemSalesMapValueOfSomeLine | functions/index.js:142-144 | every value in `createItemSalesMap` is the quantity of some line carrying that id |
| Reports.CreateDiffersFromMergeWhenRepeated | functions/index.js:36-55 | with positive quantities, an order that repeats an item id gets a different `createItemSalesMap` than the update loop applied to an empty map |
| Reports.ApplyDailyTouchesOneDate | functions/index.js:32-68 | one daily transaction writes only its own date's document; every other date keeps its report |
| Reports.DailyCreatePath | functions/index.js:36-44 | a new daily report holds the date, the order's total, count 1, the order's ids with last-line quantities, and one hour bucket holding the total |
| Reports.DailyUpdatePath | functions/index.js:45-66 | the update raises revenue by the total, the count by 1, each item count by that item's summed quantity, and only this hour's bucket, by the total; it keeps all other keys |
| Reports.CreateIsUpdateOfEmptyWhenDistinct | functions/index.js:36-66 | with distinct ids, creating a report is the same as updating an empty one |
| Reports.DailyTransitionsCommute | functions/index.js:33-68 | two completions on one day give the same report in either commit order, once the report exists or when neither order repeats an item |
| Reports.DailyFoldFromExisting | functions/index.js:45-66 | after a run of orders on an existing report, each total has grown by the sum over those orders |
| Reports.DailyFoldFromNothing | functions/index.js:36-66 | from no report, after N orders the day holds the sum of their totals, count N and summed hour buckets for any orders; each item count is the item's summed quantity when the first order repeats no item |
| Reports.FirstOrderWithRepeatedItemUndercounts | functions/index.js:140-146 | a day whose first order has two `coffee × 1` lines records 1 coffee although 2 were sold |
| Reports.ApplyItemEffect | functions/index.js:73-89 | one item transaction raises only its item's totals, by the quantity and `price * quantity`; it creates the report when missing and leaves every other report as it was |
| Reports.ApplyItemsTotals | functions/index.js:71-92 | every line is applied once, duplicates included: each item's totals grow by the sums over its lines; the order's ids become keys; other reports are unchanged; reports stay stored under their own ids |
| Reports.ItemTotalsNeverDecrease | functions/index.js:71-92 | with no negative quantities or prices, no item total ever goes down |
| Reports.ItemTransitionsCommute | functions/index.js:71-90 | two lines' transactions give the same reports in either commit order |
| Reports.ItemReportsOrderIndependent | functions/index.js:71-92 | any rearrangement of the lines gives the same item reports |
| Archival.SweepMovesSelected | functions/index.js:161-180 | every live order created before the cutoff with status completed or cancelled ends up archived under its own id with the same data, and is no longer live |
| Archival.SweepKeepsOthers | functions/index.js:161-180 | every other live order stays live with its data, and every other archived order is unchanged |
| Archival.SweepLosesNothing | functions/index.js:174-180 | every order is afterwards either still live with its data, or archived with its data and no longer live |
| Archival.SweepCount | functions/index.js:172-179 | the number selected equals the number of orders that left the live collection |
| Archival.EmptySelectionChangesNothing | functions/index.js:166-169 | a sweep that selects nothing changes neither collection |
| Archival.SecondSweepIsNoOp | functions/index.js:157-183 | an immediate second sweep with the same cutoff selects nothing and changes nothing |
| Store.CreateItemSalesMap | functions/index.js:140-146 | the loop builds exactly the last-wins map, whose keys are the order's ids |
| Store.AddItemCounts | functions/index.js:48-55 | the copy-and-add loop builds the merged counts: the keys are the old keys plus the order's ids, and each count is the old count (0 if missing) plus the id's summed quantity |
| Store.CommittedItemsAll | functions/index.js:71-92 | when no item transaction fails, every line reaches the item reports |
| Store.StageArchiveBatch | functions/index.js:171-180 | the `forEach` stages one move per selected id, each carrying the live order's data, and counts exactly the selected orders |
| Store.BatchIsSweep | functions/index.js:174-182 | committing the staged moves writes the sweep's archive |
| Store.Database.RunDailyTransaction | functions/index.js:32-68 | a committed transaction writes the created or updated report for the date; a failed one changes nothing; reports stay stored under their own dates |
| Store.Database.RunItemTransaction | functions/index.js:72-89 | a committed transaction writes the created or incremented report for the line's item; a failed one changes nothing |
| Store.Database.RunItemTransactions | functions/index.js:71-92 | the item reports receive exactly the committing lines, in list order; the result says whether every line committed |
| Store.Database.OnOrderCompleted | functions/index.js:13-99 | outside the guard nothing changes; if the daily transaction fails, nothing changes and the error is logged; otherwise the daily report for the order's date key and hour key is updated and the committing lines reach the item reports; the success line is logged exactly when every line commits; the handler never throws |
| Store.Database.CleanupOldOrders | functions/index.js:156-187 | with nothing selected, or when the batch fails, nothing changes; otherwise every selected order is moved to the archive, every other order stays live, and the logged count is the number selected |

## Left out

- Firebase plumbing is not modelled: trigger registration, `admin.initializeApp`,
  document references, and `console.log`/`console.error`. The logs appear only as
  the outcome the methods return (`Skipped`, `Reported`, `ErrorLogged`, `NothingToArchive`,
  `Archived(count)`, `BatchFailed`).
- Transaction retries, contention and the concurrency of `Promise.all` are not modelled.
  Each transaction is one atomic step, and whether it commits is an input.
  The fan-out runs as a loop in list order. `Reports.ItemReportsOrderIndependent` and
  `Reports.ItemTransitionsCommute` show that the commit order does not change the item reports.
- Time is not modelled. `Timestamp.toDate()`, the local-time getters and the `Asia/Ho_Chi_Minh`
  schedule are left out. So is `setDate(getDate() - 30)`. The local reading of `createdAt`
  and the sweep's cutoff are inputs.
- Amounts, prices and quantities are JavaScript doubles in the source and unbounded integers
  here. Floating-point rounding is not modelled.
- Firestore query execution, the batch-size limit and partial reads are not modelled.
  The selection is a filter over the live map. A batch the store rejects, for example one that is too large,
  is the `commits = false` case.
- Malformed documents are not modelled, and the model's orders and reports always carry every
  field. In the source, an order without `createdAt` throws at `toDate()` before the `try`, and
  the failure surfaces as a function error. An order without `items` throws at `items.forEach`
  inside the daily transaction, and the catch logs it. An order without `totalAmount` fails the
  day's first transaction, because `set` rejects an `undefined` field value, and the catch logs it;
  on an existing report it writes `NaN` into `totalRevenue` and the hour bucket. A stored daily report without
  `itemSalesCount` or `hourlyRevenue` is spread as an empty map.
- Item ids are assumed not to be names of `Object.prototype` properties. The source keeps counts
  in plain JavaScript objects. For an id such as `constructor` or `toString` that is not yet an
  own key, `x[id] || 0` reads the inherited function, and the addition then stores a string.
  An id of `__proto__` creates no key at all. The model treats every id as an ordinary map key.
- The body of `onOrderReady` only writes a log line, so only its guard is modelled (`Orders.ShouldNotifyReady`).
- `Store.Database.OnOrderCompleted` protects only against re-delivery in the form
  completed→completed. An event with the same before and after states delivered twice would be
  aggregated twice, because nothing records which events were already counted.
