# Pixel-Systems core, modelled and verified in Dafny

This project models the sequential logic of the Pixel-Systems repository and proves
properties of it with Dafny 4.11. The centre is the laptop-rental bookkeeping app:

- the nightly revenue sweep (`laptop_rental/update_daily_revenue.py`), which resets
  every asset's revenue and pro-rates each rental's monthly payment over calendar months;
- the revenue helpers of `laptop_rental/rentals/utils.py`;
- the REST handlers of `laptop_rental/rentals/api_views.py`, where superusers write
  directly and other users leave pending records that staff approve or reject.

Beside it sit the repository's data-structure and algorithm exercises and two small
apps: three hash tables (`n.py`, `Dsa/search.py`,
`Django/student/management/hashing.py`), a linked list (`Dsa/node.c`), a three-way
quicksort (`Dsa/quick_sort.py`), a breadth-first search on a snakes-and-ladders
board (`Dsa/snake.py`), a C++ inventory system (`oops/miniproject.cpp`), the
integer and state rules of a platformer (`game.py`), a keyword chatbot
(`Django/pawssible/chatbot/views.py`) and the `try_get` column lookup of the
spreadsheet import command.

One module per source file: `DailyRevenue`, `RentalUtils`, `Approval`,
`VoterTable`, `ChainedMap`, `StudentTable`, `SnakesAndLadders`, `QuickSort`,
`Inventory`, `Platformer`, `Chatbot`, `ImportHelpers`, `LinkedList`. Shared modules
hold what Python's libraries provide: `Calendar` (proleptic Gregorian dates, the
leap-year rule, `toordinal`, stepping a day or a month), `Money` (half-up and
half-even rounding to cents), `Text` (`lower`, `in`, `strip`), `Sets` and `Options`.

Code that changes state in place is modelled as a class whose methods say the whole
new state: the revenue column, the API store, the hash tables, the inventory, the
shop, the player and the game. Loops become `while` loops with invariants. Pure code
is written as functions with lemmas about them.

Points of the rental code worth knowing when reading the model:

- `update_daily_revenue.py` rounds twice, first the daily rate and then each month's
  amount, while `rentals/utils.py` rounds once at the end.
  `RentalUtils.RoundingOrderMatters` shows the two files giving 2195.74 and 2195.77
  for the same rental.
- Approving an edit copies only `brand` and `model_no` onto the original asset.
- Approving or rejecting a pending record that does not exist answers 404.

## Model

| member | source | states |
|---|---|---|
| `DailyRevenue.RevenueLedger.constructor` | laptop_rental/update_daily_revenue.py:15 | The ledger holds the given revenue column of the asset table. |
| `DailyRevenue.RevenueLedger.UpdateRevenueForRentals` | laptop_rental/update_daily_revenue.py:17-84 | The new revenue column has the old key set and depends only on the rentals and today. Each asset gets the sum of the totals of the counted rentals that reference it. The returned count is the number of counted rentals that have an asset. |
| `DailyRevenue.RentalTotal` | laptop_rental/update_daily_revenue.py:46-73 | The month loop's running total equals the month-segment specification: the rounded daily rate times the days, rounded again, summed over the visited months. |
| `DailyRevenue.AddRental` | laptop_rental/update_daily_revenue.py:32-79 | One rental's pass: a rental with payment > 0 that starts no later than today adds its month-by-month total to its own asset's entry, and nothing else changes. The flag says whether it was counted against an asset. |
| `DailyRevenue.MonthLength` | laptop_rental/update_daily_revenue.py:54-59 | The day before the first of the next month (December rolls to January) is the Gregorian length of the month. |
| `DailyRevenue.Segments` | laptop_rental/update_daily_revenue.py:52-73 | Every visited month is 28 to 31 days long and counts between 1 and that many days. The loop visits no month exactly when the start is after the effective end. |
| `DailyRevenue.DaysCoverage` | laptop_rental/update_daily_revenue.py:49-73 | The days counted over all months equal the inclusive day count from start to effective end, or 0 when start is after end. |
| `DailyRevenue.EffectiveEndNotAfterToday` | laptop_rental/update_daily_revenue.py:39-44 | The counted window ends at min(end date or today, today). |
| `DailyRevenue.SkippedRentalChangesNothing` | laptop_rental/update_daily_revenue.py:32-37 | A rental with payment <= 0, or starting after today, changes no asset's revenue. |
| `DailyRevenue.UnreferencedAssetEarnsNothing` | laptop_rental/update_daily_revenue.py:26-27 | An asset that no counted rental references ends the sweep at revenue 0, whatever it held before. |
| `DailyRevenue.SweepIsIdempotent` | laptop_rental/update_daily_revenue.py:18-27 | A second sweep with the same rentals and today gives the same revenue column. |
| `DailyRevenue.RecomputedStep` | laptop_rental/update_daily_revenue.py:75-79 | Processing one more rental adds its total onto its own asset's entry and changes nothing else. A rental without an asset changes nothing. |
| `DailyRevenue.AssetRevenueAppend` | laptop_rental/update_daily_revenue.py:34-79 | Rentals are counted independently: a sweep over two batches of rentals is the sum of the two sweeps. |
| `DailyRevenue.SecondRoundingIsExact` | laptop_rental/update_daily_revenue.py:62-70 | Once the daily rate is a whole number of cents, the second half-up rounding of the month's amount changes nothing. |
| `DailyRevenue.SegmentDrift` | laptop_rental/update_daily_revenue.py:62-70 | A month's charged amount is within half a cent per charged day of the exact proration payment * days / days_in_month. |
| `DailyRevenue.TotalCentsNonNegative` | laptop_rental/update_daily_revenue.py:32-73 | A positive payment never yields a negative rental total. |
| `DailyRevenue.FullMonthExample` | laptop_rental/update_daily_revenue.py:49-73 | All of January 2024 at 3100.00 is charged exactly 3100.00. |
| `DailyRevenue.TwoMonthExample` | laptop_rental/update_daily_revenue.py:49-73 | 2024-01-20 to 2024-02-10 at 3000.00 is charged 2195.74: 12 days at 96.77, then 10 days at 103.45 in the 29-day leap-year February. |
| `Money.RoundHalfUp` | laptop_rental/update_daily_revenue.py:62 | The result is the integer nearest to num/den, with ties rounded away from zero. |
| `Money.RoundHalfUpUnique` | laptop_rental/update_daily_revenue.py:62 | Half-up rounding is the only integer meeting that nearest-with-ties-up bound. |
| `Money.RoundWholeIsExact` | laptop_rental/update_daily_revenue.py:70 | Quantizing a whole number of cents returns it unchanged. |
| `Money.RoundCentsHalfEven` | laptop_rental/rentals/utils.py:51 | round(x, 2) in cents lies within half a cent of 100x, with exact ties going to the even neighbour. |
| `RentalUtils.CalculateDailyRate` | laptop_rental/rentals/utils.py:8-16 | The result is within half a cent of the payment divided by the day count of the target month. With no target date, today's month is used. |
| `RentalUtils.CalculateRentalRevenue` | laptop_rental/rentals/utils.py:18-51 | The loop's total is the exact sum over the visited months of active days times monthly/days_in_month, rounded once at the end. A missing end date is replaced by today. |
| `RentalUtils.Windows` | laptop_rental/rentals/utils.py:29-49 | Every visited month is 28 to 31 days long. The walk steps to the first of the next month and so terminates. |
| `RentalUtils.RunningTotalStep` | laptop_rental/rentals/utils.py:43-49 | Charging one month's window and stepping to the next month keeps running total + remaining total constant. |
| `RentalUtils.ActiveDaysCoverage` | laptop_rental/rentals/utils.py:29-49 | The active days add up to (end - start).days + 1, or to 0 when the rental ends before it starts. |
| `RentalUtils.ActiveDaysInMonth` | laptop_rental/rentals/utils.py:34-40 | Each month's window [max(start, first of month), min(end, last of month)] has between 1 and days_in_month days. |
| `RentalUtils.WindowsMatchSegments` | laptop_rental/rentals/utils.py:29-49 | The clipped-window walk visits the same months, with the same day counts, as the revenue sweep's walk. |
| `RentalUtils.ActiveDaysIsDaysToCount` | laptop_rental/rentals/utils.py:34-40 | One month's clipped window has the same length as the sweep's days_to_count for that month. |
| `RentalUtils.ReversedRangeEarnsNothing` | laptop_rental/rentals/utils.py:26-29 | When the end is before the start the loop never runs and the result is 0. |
| `RentalUtils.CalendarMonthEarnsPayment` | laptop_rental/rentals/utils.py:40-46 | A rental covering exactly one calendar month earns exactly the monthly payment, in exact arithmetic. |
| `RentalUtils.ExactTotalNonNegative` | laptop_rental/rentals/utils.py:43-46 | A non-negative monthly payment gives a non-negative total. |
| `RentalUtils.ShareNonNegative` | laptop_rental/rentals/utils.py:43-46 | One month earns between 0 and the monthly payment. |
| `RentalUtils.TwoMonthWindows` | laptop_rental/rentals/utils.py:29-49 | 2024-01-20 to 2024-02-10 visits two months: 12 of 31 days, then 10 of 29 days. |
| `RentalUtils.RoundingOrderMatters` | laptop_rental/rentals/utils.py:43-51 | For that rental at 3000.00, rounding once gives 2195.77, while the revenue sweep's per-month rounding gives 2195.74. |
| `Approval.ApiStore.constructor` | laptop_rental/rentals/api_views.py:12-16 | The store holds the asset, pending product, rental, pending rental and customer tables the handlers write, all empty at the start and consistent. |
| `Approval.ApiStore.ProductCreate` | laptop_rental/rentals/api_views.py:116-143 | A superuser's create adds exactly one live asset stamped with the editor and adds no pending record. Anyone else adds exactly one pending 'add' record copying the form, and the live assets are unchanged. |
| `Approval.ApiStore.ProductUpdate` | laptop_rental/rentals/api_views.py:145-158 | A missing asset gives 404 and no change. A superuser's update rewrites the writable fields. Anyone else adds one pending 'edit' record referencing the asset, and the asset is not modified. |
| `Approval.ApiStore.RentalCreate` | laptop_rental/rentals/api_views.py:173-191 | An unknown customer or asset is refused. A superuser's create adds one live rental and no pending one. Anyone else adds one pending rental with status defaulting to 'ongoing' and payment to 0. |
| `Approval.ApiStore.CustomerCreate` | laptop_rental/rentals/api_views.py:199-204 | A non-superuser is told "accepted" but nothing is stored in any table. A superuser's create adds the customer. |
| `Approval.ApiStore.ApproveProduct` | laptop_rental/rentals/api_views.py:225-250 | Non-staff are refused and a missing pending id gives 404, both with no change. Otherwise the live assets become ApprovedAssets of the pending record, exactly that pending record is deleted, and every other table is unchanged. |
| `Approval.ApiStore.RejectProduct` | laptop_rental/rentals/api_views.py:252-255 | Exactly that pending record is deleted, or 404 with no change. The live assets and every other table are untouched. |
| `Approval.ApprovedAssets` | laptop_rental/rentals/api_views.py:230-247 | An edit with an original patches only that row. Otherwise exactly one row is added at the fresh key. Every other row is unchanged. |
| `Approval.Patched` | laptop_rental/rentals/api_views.py:231-236 | Approving an edit sets brand and model_no from the pending record, and every other field of the asset is as before. |
| `Approval.AssetFromPending` | laptop_rental/rentals/api_views.py:239-247 | The new asset takes the pending record's asset_id, brand, model_no, type and condition, has edited_by = submitter, and starts at revenue 0. |
| `Approval.ApprovedEditKeepsIdentity` | laptop_rental/rentals/api_views.py:230-236 | An approved edit keeps the asset's asset_id and every other field but brand and model_no. |
| `Approval.ApprovedAddAddsOneRow` | laptop_rental/rentals/api_views.py:237-247 | Approving an add, or an edit with no original, grows the asset table by exactly one row. |
| `Approval.ApiEditApprovalBlanksBrand` | laptop_rental/rentals/api_views.py:151-157 | An edit submitted through the API carries no field values, so approving it sets the original's brand and model_no to empty strings. |
| `Approval.UpdatedAsset` | laptop_rental/rentals/api_views.py:147-148 | A superuser's direct update never writes edited_by or revenue, which the serializer keeps read-only. |
| `Approval.GetQueryset` | laptop_rental/rentals/api_views.py:92-114 | A row is returned iff it passes every filter whose parameter is present, and as often as it occurs in the input. Those filters are a case-insensitive match on asset_id/brand/model_no/serial_no, the purchase-date bounds and the asset type. |
| `Approval.Filter` | laptop_rental/rentals/api_views.py:100-112 | A row is in the filtered queryset iff it is in the input and passes the test. A passing row occurs as often as in the input, and any other row not at all. |
| `Approval.FilterIdempotent` | laptop_rental/rentals/api_views.py:100-112 | Applying the same filter twice is the same as applying it once. |
| `Approval.FilterAppend` | laptop_rental/rentals/api_views.py:100-112 | Filtering keeps the rows in their order: a concatenation is filtered part by part. |
| `Approval.FilterThenFilter` | laptop_rental/rentals/api_views.py:100-112 | Chaining two filters is the same as one filter by both tests. |
| `Approval.GetQuerysetIsOneFilter` | laptop_rental/rentals/api_views.py:100-114 | The chain of conditional filters is one order-keeping filter by "passes every present parameter". |
| `Approval.NoParamsNoFilter` | laptop_rental/rentals/api_views.py:94-114 | With no query parameters, every row is returned in order. |
| `Approval.StatusCode` | laptop_rental/rentals/api_views.py:124-255 | Each reply has one HTTP status: 202 exactly for "submitted for approval" and 404 exactly for a missing record. |
| `VoterTable.VoterRecordHashTable.constructor` | n.py:6-13 | The table has exactly `size` slots, all empty. |
| `VoterTable.VoterRecordHashTable.HashKey` | n.py:15-20 | house_no % size is always a slot index. |
| `VoterTable.VoterRecordHashTable.InsertRecord` | n.py:22-41 | The record is appended to the end of slot house_no % size, duplicate IDs included. No other slot changes. Every record stays in its house's slot. |
| `VoterTable.VoterRecordHashTable.SearchRecordById` | n.py:43-62 | Returns the slot and record of the first match in slot-then-chain order, and nothing iff no record has the ID. |
| `VoterTable.VoterRecordHashTable.DeleteRecordById` | n.py:64-76 | Removes exactly the first match in slot-then-chain order and keeps the others in order. An absent ID changes nothing. |
| `VoterTable.FirstMatchSpec` | n.py:49-52 | The located record has the ID and no record before it in slot-then-chain order does. Nothing is located iff no record has the ID. |
| `VoterTable.InsertAndDeleteCounts` | n.py:22-76 | Insert grows the record count by one. Deleting a found record shrinks it by one. |
| `VoterTable.AbsentIdDeletesNothing` | n.py:76 | With no record holding the ID, delete finds nothing to remove. |
| `VoterTable.RemoveAt` | n.py:73 | `del chain[j]` removes one record and keeps the order of the others. |
| `ChainedMap.HashTable.constructor` | Dsa/search.py:2-4 | The table has exactly `size` empty buckets. |
| `ChainedMap.HashTable.HashFunction` | Dsa/search.py:6-7 | key % size lies in [0, size) for size > 0. |
| `ChainedMap.HashTable.Insert` | Dsa/search.py:9-19 | An existing key gets the new value in place and the bucket length is unchanged. A new key is appended to bucket key % size. Other buckets are unchanged. Keys stay unique per bucket and every pair stays in its key's bucket. |
| `ChainedMap.HashTable.Search` | Dsa/search.py:21-27 | Returns the key's value from its bucket. Not-found is returned iff no pair anywhere has the key. |
| `ChainedMap.Put` | Dsa/search.py:9-19 | After an insert the key maps to the new value, every other key reads as before, keys stay unique, and the bucket grows only for a new key. |
| `ChainedMap.InsertThenSearch` | Dsa/search.py:9-27 | After insert(k, v), search(k) finds v. |
| `ChainedMap.PutIdempotent` | Dsa/search.py:9-19 | Inserting the same pair twice is the same as inserting it once. |
| `StudentTable.StudentHashTable.constructor` | Django/student/management/hashing.py:4-5 | A new table is an empty dict with the given string hash. |
| `StudentTable.StudentHashTable.Insert` | Django/student/management/hashing.py:10-12 | The student is stored at slot hash(id) % 100 and overwrites any previous occupant. Slots stay unique and within the 100. |
| `StudentTable.StudentHashTable.Search` | Django/student/management/hashing.py:14-16 | Returns whoever occupies slot hash(id) % 100, or nothing, without comparing ids. |
| `StudentTable.StudentHashTable.Delete` | Django/student/management/hashing.py:18-21 | The id's slot is emptied. An empty slot stays as it was. |
| `StudentTable.StudentHashTable.GetAllSorted` | Django/student/management/hashing.py:23-24 | Returns every stored student exactly once, in non-decreasing name order, and at most 100 of them. |
| `StudentTable.Slot` | Django/student/management/hashing.py:7-8 | The slot always lies in [0, 100). |
| `StudentTable.SlotsBound` | Django/student/management/hashing.py:7-12 | Distinct slots drawn from 100 mean the table never holds more than 100 students. |
| `StudentTable.InsertThenSearch` | Django/student/management/hashing.py:10-16 | Inserting a student and then searching for their id returns that student. |
| `StudentTable.SearchIgnoresIds` | Django/student/management/hashing.py:14-16 | A different id that hashes to the same slot returns the stored student, whose id is not the one searched for. |
| `StudentTable.SearchReturnsWrongStudent` | Django/student/management/hashing.py:14-16 | A concrete collision: searching for "B" returns the student stored under "A". |
| `StudentTable.SortByName` | Django/student/management/hashing.py:24 | The result is sorted by name and is a permutation of the input. |
| `SnakesAndLadders.MinDiceThrows` | Dsa/snake.py:4-39 | A non-negative result r means the last cell is reachable in r throws and in no fewer. -1 means no sequence of throws reaches it. |
| `SnakesAndLadders.ThrowDice` | Dsa/snake.py:27-36 | The queue gains exactly the entries of `Appended`: in die order 1..6, one per throw landing on a cell that was unmarked, holding where the token ends up at dist + 1. `visited` becomes the old marks plus every landing cell on the board. The search invariant is kept: BFS order, a witness walk for every entry, every expanded throw covered. |
| `SnakesAndLadders.Throw` | Dsa/snake.py:27-36 | One throw of the `for dice` loop appends and marks what `Appended` and `MarkedAfter` give for one more throw, and keeps the search invariant. |
| `SnakesAndLadders.ThrowStep` | Dsa/snake.py:27-30 | A throw lands on an unmarked cell iff the earlier throws did not mark it, since each throw lands on a different cell. It then adds one entry and one mark, otherwise nothing. |
| `SnakesAndLadders.AppendedShape` | Dsa/snake.py:27-36 | The throws 1..k append at most k entries, each at distance dist + 1. |
| `SnakesAndLadders.MarkedAfterAt` | Dsa/snake.py:27-30 | After the throws 1..k a cell is marked iff it was marked before or lies in cell+1..cell+k. |
| `SnakesAndLadders.Land` | Dsa/snake.py:29-36 | A throw onto an unmarked cell marks exactly that cell and queues exactly one entry: the cell the token ends up on, one throw further on. The search invariant is kept. |
| `SnakesAndLadders.Step` | Dsa/snake.py:27-36 | A throw d from c moves to board[c+d] if that is not -1, else to c+d. Throws reaching n or beyond are discarded. |
| `SnakesAndLadders.QueueBound` | Dsa/snake.py:11-30 | Cells are marked at most once, so at most n entries are ever enqueued. |
| `SnakesAndLadders.ExpandNewOrder` | Dsa/snake.py:20-36 | Enqueuing at the dequeued distance + 1 keeps distances non-decreasing along the queue. |
| `SnakesAndLadders.QueuedWithin` | Dsa/snake.py:19-36 | Once every entry closer than k has been expanded, the end of every walk of length k is queued at distance at most k. |
| `SnakesAndLadders.Found` | Dsa/snake.py:22-24 | When the last cell is dequeued, its distance is reachable and minimal. |
| `SnakesAndLadders.NotFound` | Dsa/snake.py:39 | An exhausted queue means no walk reaches the last cell. |
| `SnakesAndLadders.OneCellBoard` | Dsa/snake.py:15-24 | On a one-cell board the start cell is the last cell, reached in 0 throws. |
| `SnakesAndLadders.WalkStaysOnBoard` | Dsa/snake.py:3-8 | With board entries that are -1 or valid indices, every walk stays on the board. |
| `QuickSort.QuickSort` | Dsa/quick_sort.py:1-27 | The result is sorted and a permutation of the input. A list of length <= 1 is returned unchanged. |
| `QuickSort.Partition` | Dsa/quick_sort.py:13-24 | smaller < pivot, equal = pivot, larger > pivot, and together they hold the input's multiset. |
| `QuickSort.PartsShorter` | Dsa/quick_sort.py:13-27 | The pivot lands in equal, so smaller and larger are each strictly shorter than the input. |
| `QuickSort.JoinSorted` | Dsa/quick_sort.py:27 | Sorted smaller + equal + sorted larger is sorted. |
| `QuickSort.SortedUnique` | Dsa/quick_sort.py:10-27 | Two sorted lists with the same multiset are equal. |
| `QuickSort.QuickSortIsTheSort` | Dsa/quick_sort.py:10-27 | The result is the unique sorted permutation of the input. |
| `QuickSort.QuickSortIdempotent` | Dsa/quick_sort.py:10-27 | A sorted list comes back unchanged, so sorting twice is sorting once. |
| `Inventory.InventorySystem.constructor` | oops/miniproject.cpp:55-61 | The system starts with five products, ids 1 to 5, each with sold = 0, and no purchases. |
| `Inventory.InventorySystem.PurchaseProduct` | oops/miniproject.cpp:104-129 | For the first product with the id: stock grows by qty, sold is unchanged, and exactly one Purchase with totalCost = cost * qty is appended. An unknown id changes nothing. |
| `Inventory.InventorySystem.ShipProduct` | oops/miniproject.cpp:132-152 | qty > stock is refused with no change. Otherwise qty moves from stock to sold. An unknown id changes nothing. The purchase log is never touched. |
| `Inventory.InventorySystem.CalculateProfitLoss` | oops/miniproject.cpp:164-178 | Total profit is the sum of profits and total investment is the sum of cost * (stock + sold). PROFIT is reported iff total profit > 0. |
| `Inventory.ProfitOf` | oops/miniproject.cpp:43-45 | profit() is (price - cost) * sold, with sold converted exactly to a real: nothing sold earns 0, and with units sold the profit is positive iff price > cost and negative iff price < cost. |
| `Inventory.Restock` | oops/miniproject.cpp:113 | A purchase changes only the stock, by exactly qty. |
| `Inventory.Dispatch` | oops/miniproject.cpp:145-146 | A shipment keeps stock + sold, raises sold by qty, and changes nothing else. |
| `Inventory.ShipKeepsStockNonNegative` | oops/miniproject.cpp:141-146 | Shipping 0 <= qty <= stock leaves stock >= 0. |
| `Inventory.DispatchEffect` | oops/miniproject.cpp:145-146 | A shipment keeps a product's investment and raises its profit() = (price - cost) * sold by the margin on qty. |
| `Inventory.RestockEffect` | oops/miniproject.cpp:113-114 | A purchase raises a product's investment by cost * qty and keeps its profit. |
| `Inventory.ShipReport` | oops/miniproject.cpp:164-169 | A shipment leaves the report's total investment unchanged and adds the margin on the shipped units to its total profit. |
| `Inventory.PurchaseReport` | oops/miniproject.cpp:164-169 | A purchase adds its logged total cost to the report's investment and leaves total profit unchanged. |
| `Inventory.Find` | oops/miniproject.cpp:111-112 | The scan finds the first product with the id, or reports that none has it. |
| `Inventory.FreshSystemReportsLoss` | oops/miniproject.cpp:164-176 | The freshly built system has total profit 0, so it reports LOSS, and total investment 713000. |
| `Platformer.Clamp` | game.py:34-36 | On reals, as the game passes float positions and velocities: with min <= max the result is in [min, max], and a value already in range is returned unchanged. |
| `Platformer.ClampIdempotent` | game.py:34-36 | Clamping twice is clamping once. |
| `Platformer.Wrap` | game.py:758-760 | (i ± 1) % n is always in [0, n), going from the first entry to the last and from the last to the first. |
| `Platformer.WrapRoundTrip` | game.py:758-760 | Down then up, or up then down, returns to the same selection. |
| `Platformer.Apply` | game.py:625-634 | A "life" adds 1 to lives, a "skin" sets the skin colour, a "trail" sets the trail colour. Nothing else changes. |
| `Platformer.Buy` | game.py:611-623 | With coins >= cost, exactly cost is paid and the item applied. Otherwise the player is unchanged. |
| `Platformer.BuyKeepsCoinsNonNegative` | game.py:617-619 | Buying never takes coins below zero. Only a bought extra life changes lives. |
| `Platformer.Shop.constructor` | game.py:593-609 | The shop opens on the first of its ten items with an empty message. |
| `Platformer.Shop.BuyItem` | game.py:611-623 | An empty item list changes nothing. Otherwise the player becomes Buy of the selected item and the message says how it went. |
| `Platformer.Shop.ShowMessage` | game.py:636-638 | The message and its timer are set, and the selection stays. |
| `Platformer.Shop.ApplyItem` | game.py:625-634 | The player's new state is Apply of the item's kind. |
| `Platformer.Shop.MoveUp` | game.py:757-758 | The selection wraps upward and stays in [0, len(items)). |
| `Platformer.Shop.MoveDown` | game.py:759-760 | The selection wraps downward and stays in [0, len(items)). |
| `Platformer.TakeHit` | game.py:389-400 | While invincible: returns False and changes nothing. Otherwise lives - 1, invincible set, returns True. |
| `Platformer.HurtTwiceLosesOneLife` | game.py:389-400 | A second hit straight after a first does nothing, so two hits cost one life. |
| `Platformer.Player.constructor` | game.py:253-274 | A new player has the constructor's defaults: facing right, not invincible, timers, velocity and power-up timers at zero. Lives, coins, skin and trail are the given ones, as `reset_game_state` sets them. |
| `Platformer.Player.Hurt` | game.py:389-400 | The player's new state and the result are TakeHit of the old state. |
| `Platformer.PowerDuration` | game.py:402-404 | speed and jump last 8.0, star lasts 6.0, any other kind 0. |
| `Platformer.Player.ApplyPowerup` | game.py:402-404 | Only the kind's timer changes, to its duration. |
| `Platformer.Game.constructor` | game.py:648-665 | The game starts in the menu at level 0 with selection 0, an empty name, a zero clock, unpaused, and a fresh player with 3 lives, no coins and the default looks. |
| `Platformer.Game.NextLevel` | game.py:885-895 | level_index goes up by one. If the index < 7 the state becomes "game", unpaused, with the clock kept and a fresh player carrying lives, coins, skin and trail. Otherwise it becomes "victory" at the current time, with the player, the clock and `paused` unchanged. The menu and name are kept. |
| `Platformer.Game.WarpToLevel` | game.py:897-907 | A valid target sets level_index to it and plays it as NextLevel plays a level: unpaused, the clock kept, a fresh player carrying lives, coins, skin and trail. An invalid one falls back to NextLevel, with the same outcomes. The menu and name are kept. |
| `Platformer.Game.MenuMove` | game.py:764-769 | The menu selection wraps around the three entries and stays in [0, 3). State, level, name, clock, victory time, `paused` and the player are unchanged. |
| `Platformer.Game.VictoryKey` | game.py:812-821 | Return with a name goes to the menu. Backspace drops the last character. A printable character is appended only while the name is shorter than 12, so a name of at most 12 characters stays within 12. Level, menu selection, clock, victory time, `paused` and the player are unchanged. |
| `Platformer.Game.GameOverKey` | game.py:799-811 | R restarts at level 0 with a zero clock, unpaused, and a fresh player with 3 lives, no coins and the default looks. Q returns to the menu. Any other key changes nothing. On every key but R the level, clock, `paused` and the player object with all its fields stay. |
| `Platformer.Game.ResetGameState` | game.py:667-691 | A new player carries over lives, coins, skin and trail. The clock restarts and the game is unpaused. |
| `Platformer.BackspaceUndoesTyping` | game.py:818-821 | Backspace after typing a character restores the name. |
| `Chatbot.Reply` | Django/pawssible/chatbot/views.py:184-187 | The reply is the value of the first key, in table order, that occurs in the message, or the fallback when none does. It is always a table value or the fallback. |
| `Chatbot.GetBotReply` | Django/pawssible/chatbot/views.py:56-187 | The reply is the fallback, or the value that the literal gives last to some key occurring in the message. |
| `Chatbot.ReplyFromLiteral` | Django/pawssible/chatbot/views.py:184-187 | A reply other than the fallback is the last value of a literal key that occurs in the message. |
| `Chatbot.LookupAt` | Django/pawssible/chatbot/views.py:184-186 | With unique keys, looking up entry i's key finds entry i's value. |
| `Chatbot.BuildDict` | Django/pawssible/chatbot/views.py:56-180 | Evaluating the literal gives every key the value of its last occurrence. |
| `Chatbot.BuildDictOrder` | Django/pawssible/chatbot/views.py:56-180 | Keys are ordered by their first occurrence in the literal. |
| `Chatbot.BuildDictUnique` | Django/pawssible/chatbot/views.py:56-180 | The built dict holds each key once. |
| `Chatbot.RepeatedKeyExample` | Django/pawssible/chatbot/views.py:79-111 | A repeated key such as 'food' keeps the position of its first occurrence and takes the value of its last. |
| `Chatbot.GreetingShadows` | Django/pawssible/chatbot/views.py:184-186 | Any message containing "hi" gets the value of 'hi'. |
| `Chatbot.ChickenIsGreeted` | Django/pawssible/chatbot/views.py:184-186 | "chicken" gets the same reply as "hi". |
| `Chatbot.ChatbotResponse` | Django/pawssible/chatbot/views.py:41-54 | A POST's message (empty when absent) is lowercased and answered with status 200. Any other method gets 'Invalid request' with status 400. |
| `Chatbot.CaseNeverMatters` | Django/pawssible/chatbot/views.py:46 | The message's letter case never changes the reply. |
| `ImportHelpers.TryGet` | Django/laptop_rental/rentals/management/commands/import_all_data.py:24-38 | Returns the unstripped value under the first key, in argument order, that is not None, is in the row and holds a usable value. Returns None when no key qualifies. |
| `ImportHelpers.FirstQualifying` | Django/laptop_rental/rentals/management/commands/import_all_data.py:26-37 | The chosen key qualifies and every key before it does not. |
| `ImportHelpers.UsableIsStripTest` | Django/laptop_rental/rentals/management/commands/import_all_data.py:32-36 | A value is usable iff it is not NaN and str(v).strip() is not empty. |
| `ImportHelpers.TryGetAppend` | Django/laptop_rental/rentals/management/commands/import_all_data.py:26-38 | Keys after a hit are never looked at. After a miss, only the later keys decide. |
| `ImportHelpers.NumberIsUsable` | Django/laptop_rental/rentals/management/commands/import_all_data.py:34-35 | A number under a present key is never blank, so it is always accepted. |
| `ImportHelpers.SkipsUnusable` | Django/laptop_rental/rentals/management/commands/import_all_data.py:27-37 | A None key, a missing column, a NaN and a blank string are all passed over, and the found value comes back unstripped. |
| `LinkedList.Create` | Dsa/node.c:11-26 | Needs a non-empty array, since a[0] is always read. The list from `first` has exactly max(n, 1) fresh nodes holding a[0..max(n, 1) - 1] in order, so an n below 1 gives the one-node list of a[0]. The last node's next is null and no node repeats, so the list is acyclic. |
| `LinkedList.Display` | Dsa/node.c:28-33 | Visits the nodes in list order, stopping at null, and yields their values. |
| `LinkedList.SampleRun` | Dsa/node.c:34-39 | Building from the first six of {1,4,6,8,3,2,5} displays 1 4 6 8 3 2. |

## Left out

- Django ORM, DRF serializers, routers, authentication, transactions and HTTP plumbing. The tables are maps inside one store object. Primary keys, which the database hands out, are fresh-key parameters.
- `Approval.ApiEditApprovalBlanksBrand`: the `PendingProduct` model is not part of this model. The lemma assumes that `brand` and `model_no`, which `PendingProduct.objects.create` omits on the API edit path, default to the empty string. If those fields were nullable, approval would copy None instead.
- `Approval.ApiStore.ProductUpdate`: a superuser's update is modelled as a full update of the writable columns. The serializer's partial-update and validation rules are not modelled.
- The approval dashboard's `list`, `login_api`, the read-only option view sets and `RentalViewSet.get_queryset`: they read or authenticate and change nothing. The inherited `destroy` of `ProductAssetViewSet`, `RentalViewSet` and `CustomerViewSet` and the inherited `update`/`partial_update` of `RentalViewSet` and `CustomerViewSet` also write, directly and without an approval step; they are not modelled.
- Pending customers, rentals, repairs and configurations have no approve or reject handler in these files, so only the product approval is modelled.
- `utils.log_action`, the module-level logger, and every `print` of progress or debug output.
- The clock: `date.today()` and `time(0)` become a `today` or `date` parameter.
- Dates are limited below by year 1, as Python's `date` is. Python's upper limit of year 9999 is not modelled.
- `RentalUtils.CalculateDailyRate`, `RentalUtils.CalculateRentalRevenue`: Python float division and `round` are modelled on exact reals. `round(x, 2)` is taken as round-half-to-even of the exact value, so float representation error is not captured.
- `Inventory.InventorySystem.PurchaseProduct`, `Inventory.InventorySystem.ShipProduct`: C++ `double` prices and costs are exact reals. 32-bit `int` overflow of stock and sold is not modelled, because integers here are unbounded.
- The inventory's `listProducts`, `displayProduct`, `balanceStock`, `purchaseReport` and `menu`, the menus of `n.py` and `Dsa/search.py`, `get_voter_details`, and both tables' `display` functions: these are console input and output only.
- `game.py`: physics, camera, particles, per-frame timers, drawing, `Level._generate` (random), the high-score file `times.txt`, and the game-event handler (jump and pause). The victory screen's write to `times.txt` is left out and only its state change is kept. Colours are RGB triples. One shop item is renamed in the model; its cost and colour are kept.
- `Platformer.Game.VictoryKey`: `str.isprintable()` is modelled on ASCII only (space to tilde).
- `StudentTable.StudentHashTable`: Python's per-process randomised `hash` of a string is a parameter of the table.
- `StudentTable.StudentHashTable.GetAllSorted`: Python's `sorted` is stable. The model proves sortedness and permutation but does not state stability.
- `Chatbot`: each reply text is stood for by the source line that holds it. Lowercasing and `in` are modelled on ASCII case mapping only.
- `ImportHelpers`: a cell is missing, text or an integer. Float cells, dates and pandas' other NA kinds are not modelled. The rest of the import command (date and decimal parsing, the ORM writes) is left out.
- `LinkedList.Create`: `malloc` failure is not modelled. The global `first` is the method's result. An `n` larger than the array reads past its end in C; the model requires `n <= a.Length`.
- `VoterTable.VoterRecordHashTable.HashKey`, `VoterTable.VoterRecordHashTable.InsertRecord`: a table of size 0 raises ZeroDivisionError at `house_no % self.size`. The model requires a positive size for these calls and does not model the exception.
- `ChainedMap.HashTable.HashFunction`, `ChainedMap.HashTable.Insert`, `ChainedMap.HashTable.Search`: a table of size 0 raises ZeroDivisionError at `key % self.size`. The constructor accepts size 0 as the source does, but these calls require a positive size and the exception is not modelled.
- `SnakesAndLadders.MinDiceThrows`: `n` is the board's length and is at least 1. With `n == 0` the source raises IndexError at `visited[0] = True`, with a board shorter than `n` it can raise IndexError at `board[next_cell]`, and a snake or ladder leading off the board (or to a negative cell, which Python indexes from the end) is excluded by `ValidBoard`. None of these error paths is modelled.
- `Approval.GetQueryset`: `start_date` and `end_date` are taken as already parsed dates and `type` as an integer. A malformed date, for which `parse_date` returns None and the filter then fails, and a non-integer `type` are not modelled. `icontains` is modelled with ASCII case folding, while the database may fold case more widely.
- `ImportHelpers.UsableIsStripTest`: `str.strip` is modelled on ASCII whitespace only. Python also strips `\xa0` and the other Unicode spaces, so a cell holding only those is blank in the source but usable in the model.
