# Point-of-sale core, modelled in Dafny

This project models the core of a desktop point-of-sale application for a small shop: the product
catalogue, sales with their items, and the reports built on them. The original is an Electron app
whose main process keeps the data in SQLite; its renderer is React.

The model covers these pieces:

- **Database** (`Schema`). The three tables `products`, `sales` and `sale_items` are a `class Db`.
  Its fields are the tables as sequences, plus the AUTOINCREMENT counters. `Valid()` holds these
  constraints:
  - product codes are UNIQUE;
  - ids are distinct and below their counters;
  - every item references an existing sale and an existing product (the two FOREIGN KEYs).
- **Product service** (`ProductService`):
  - listing with search and an "include inactive" switch, newest first;
  - creation, which fails on a duplicate code;
  - updating name and price;
  - deactivation and the activation toggle;
  - lookup of an active product by exact code.
- **Sale service** (`SaleService`):
  - creation of a sale in one transaction: a header row, then one item row per line, and a rollback
    when an item names a product that does not exist;
  - the paged, date-filtered, newest-first history with each sale's items;
  - cancelling and restoring a sale.
- **Stats service** (`StatsService`, `SalesChart`):
  - the dashboard figures;
  - the ten best-selling products;
  - the sales chart. It groups completed sales by hour, day or month, according to the length of
    the range. It then walks the range with a JavaScript `Date` and fills the buckets that have no
    sales with zero.
- **Point-of-sale screen** (`PosSection`). The cart is a sequence of entries. Scanning a code with
  Enter looks the product up and adds it; rows can be removed; checkout sends the cart as a sale.
  The screen's state (cart and barcode field) is a class whose methods are the event handlers.
- **Barcode scanner hook** (`BarcodeScanner`). A global key listener buffers single characters
  typed less than 100 ms apart and hands the trimmed buffer over on Enter. It ignores keys while
  an input has focus.
- **Sales history table** (`SalesHistoryTable`):
  - pagination by ten and the footer's row range;
  - expanding and collapsing rows;
  - the units column;
  - the payment-method icon.
- **Products page and product dialog** (`ProductsPage`, `ProductDialog`):
  - a client-side list paged by fifteen;
  - toggling a product's status;
  - adding a created product at the front;
  - the zod form schema and the two save buttons.

Shared pieces are kept apart from these modules:

- `Text` holds JavaScript's string operations: `trim`, ASCII `toLowerCase`, `includes` and
  `padStart(2, '0')`.
- `Calendar` holds proleptic Gregorian dates and the arithmetic of `Date`'s `setDate`,
  `setHours` and `setMonth`.
- `Seqs` holds filtering, sorting (the SQL `ORDER BY`), `LIMIT`/`OFFSET` windows and sums.

The clock (`datetime('now','localtime')`, `Date.now()`), random ids and the answers of IPC calls
are parameters of the operations that use them.

`src/main/database.ts` repeats the three services almost line for line: it is the older,
monolithic form of the same queries. One model serves both, and some rows below cite the
`database.ts` copy.

## Model

| member | source | states |
|---|---|---|
| `Schema.InWindowByDay` | src/main/services/stats.service.ts:6-8 | The string window from `start 00:00:00` to `end 23:59:59` holds a timestamp exactly when its day lies between the two dates. |
| `Schema.Db.constructor` | src/main/database/schema.ts:4-42 | A fresh database has empty tables and counters at zero, and satisfies the UNIQUE, id and FOREIGN KEY constraints. |
| `ProductService.GetProducts` | src/main/services/product.service.ts:6-27 | The result is exactly the products matching the search (name or code contains it), active ones only unless inactive ones are included, each with its multiplicity, ordered by creation time descending. |
| `ProductService.ListAllIsPermutation` | src/main/database.ts:56-77 | With an empty search and inactive products included, the listing is a permutation of the table. |
| `ProductService.IncludeInactiveWidens` | src/main/services/product.service.ts:16-18 | Including inactive products never drops a product from the listing. |
| `ProductService.GetProductByCode` | src/main/services/product.service.ts:56-58 | A found product is in the table, has exactly that code and is active; nothing is found exactly when no active product carries the code. |
| `ProductService.ProductByCodeUnique` | src/main/database.ts:322-325 | Under the UNIQUE constraint on codes, the lookup returns the one active product with that code. |
| `ProductService.NewProductRow` | src/main/services/product.service.ts:30-36 | An inserted product row carries the given id, code, name, price and time, and is active by default. |
| `ProductService.CreateProduct` | src/main/database.ts:79-86 | A duplicate code fails with a UNIQUE error and changes nothing; otherwise the new row is appended with the next id, and the sales tables and the constraints are kept. |
| `ProductService.ItemsStillReference` | src/main/database/schema.ts:38-39 | Appending a product keeps every item's foreign keys valid. |
| `ProductService.WithNameAndPrice` | src/main/services/product.service.ts:39-43 | The update changes name and price of the rows with the id and nothing else. |
| `ProductService.WithActive` | src/main/services/product.service.ts:50-53 | The update sets the active flag of the rows with the id and nothing else. |
| `ProductService.WithActiveIdempotent` | src/main/database.ts:97-100 | Setting the same status twice is the same as setting it once. |
| `ProductService.UpdatesKeepConstraints` | src/main/database/schema.ts:8-9 | Updates never touch codes or ids, so uniqueness of codes and ids is kept. |
| `ProductService.UpdateProduct` | src/main/database.ts:88-91 | The product table becomes the name-and-price update of the old one; everything else is unchanged and the constraints hold. |
| `ProductService.DeleteProduct` | src/main/services/product.service.ts:45-47 | Deletion is logical: the row stays and is marked inactive; nothing else changes. |
| `ProductService.ToggleProductStatus` | src/main/database.ts:97-100 | The status becomes the given one for the rows with the id; nothing else changes. |
| `ProductService.SetActive` | src/main/database.ts:93-95 | The shared status update: the table becomes `WithActive` of the old one and nothing else changes. |
| `ProductService.SameIdsKeepReferences` | src/main/database/schema.ts:39 | A product table with the same ids keeps every item's product reference valid. |
| `SaleService.ItemRows` | src/main/services/sale.service.ts:18-33 | One item row per line, in order, with consecutive ids, the sale's id, the line's product, name, quantity and price, and subtotal price times quantity. |
| `SaleService.CreateSale` | src/main/services/sale.service.ts:5-39 | When every line names an existing product, the header (next id, the given total and method, `completed`, now) and the item rows are appended and the sale id is returned. Otherwise the transaction fails with a foreign-key error and no table changes. The constraints hold either way. |
| `SaleService.CommitKeepsConstraints` | src/main/database/schema.ts:30-40 | The committed header and item rows keep ids distinct and below the counters, and keep every item's foreign keys valid. |
| `SaleService.Ordered` | src/main/services/sale.service.ts:43-52 | The selected sales are a permutation of those in the date window (all sales when no range is given), ordered by creation time descending. |
| `SaleService.WithItems` | src/main/services/sale.service.ts:57-64 | Each sale is returned with exactly its own items and its creation time as timestamp. |
| `SaleService.GetSales` | src/main/database.ts:138-159 | The page is the ordered selection with its first `offset` rows skipped: sale i of the page is sale offset + i of `Ordered`, for min(limit, n - offset) sales of the n in range. Each is in the window and in the table, newest first, with exactly its items. |
| `SaleService.PagesTile` | src/main/services/sale.service.ts:52 | Two consecutive pages put together are the page of their combined length: paging neither skips nor repeats a sale. |
| `SaleService.WithStatus` | src/main/services/sale.service.ts:68-75 | The status update changes the status of the sales with the id and nothing else. |
| `SaleService.CancelThenRestore` | src/main/database.ts:161-167 | Cancelling then restoring a completed sale gives the table back unchanged. |
| `SaleService.StatusUpdateNoOp` | src/main/services/sale.service.ts:69 | When every sale with the id already has the status (in particular when no sale has the id), the update changes nothing. |
| `SaleService.StatusUpdatesOverwrite` | src/main/services/sale.service.ts:74 | Two status updates of the same id leave the second one's status. |
| `SaleService.CancelSale` | src/main/services/sale.service.ts:68-70 | The sale becomes `cancelled`; products, items and counters are unchanged. |
| `SaleService.RestoreSale` | src/main/services/sale.service.ts:73-75 | The sale becomes `completed`; products, items and counters are unchanged. |
| `SaleService.SetStatus` | src/main/database.ts:161-163 | The shared status update: the sales table becomes `WithStatus` of the old one and nothing else changes. |
| `StatsService.CountSelected` | src/main/services/stats.service.ts:16-18 | The COUNT of sales with a status in the window is at most the number of sales. |
| `StatsService.CountZeroIffNoneSelected` | src/main/services/stats.service.ts:16-18 | The COUNT is zero exactly when no sale has that status in the window. |
| `StatsService.SumSelected` | src/main/services/stats.service.ts:11-13 | SUM over no qualifying row is NULL, and a number otherwise. |
| `StatsService.GetDashboardStats` | src/main/services/stats.service.ts:5-36 | The figures are the completed count and income and the cancelled count and amount, with NULL sums read as zero. The average times the count is the income when there are sales, and the average is zero otherwise. |
| `StatsService.CountsPartitionWindow` | src/main/database.ts:171-199 | Completed plus cancelled counts are all the sales of the window. |
| `StatsService.CancelMovesSale` | src/main/services/stats.service.ts:21-25 | Cancelling one completed sale of the window moves one sale and its amount from the completed figures to the cancelled ones. |
| `StatsService.GroupRow` | src/main/services/stats.service.ts:46-51 | A product's row carries its id, the product name of an item of the group, and the SUMs of quantity and subtotal over the group. |
| `StatsService.Groups` | src/main/services/stats.service.ts:51 | GROUP BY product_id: exactly one row per product id among the joined items. |
| `StatsService.RankingKeepsGroups` | src/main/database.ts:201-219 | Ordering the groups keeps exactly the same rows with distinct product ids. |
| `StatsService.TopTen` | src/main/services/stats.service.ts:52-53 | At most ten rows, drawn from the groups and sold-descending. Every group left out sold no more than the tenth row. |
| `StatsService.RankedRowsDescribeGroups` | src/main/services/stats.service.ts:46 | Every ranked row's sold and revenue are its group's totals, and its name is one of its items' names. |
| `StatsService.RankingCoversProducts` | src/main/services/stats.service.ts:49-53 | Every product sold in the window is ranked, or the list is full and the product sold no more than the tenth. |
| `StatsService.Ranking` | src/main/services/stats.service.ts:46-53 | The ranking of joined items: at most ten distinct products, sold-descending, each with its group's totals, and none left out that sold more than the last. |
| `StatsService.GetTopProducts` | src/main/services/stats.service.ts:39-57 | The best sellers among items of completed sales in the window: at most ten, distinct, sold-descending, totals per product, and no omitted product sold more than the tenth. |
| `Calendar.DaysInMonth` | src/main/services/stats.service.ts:119 | Months have 28 to 31 days, and 29 exactly for February of a leap year. |
| `Calendar.NextDay` | src/main/services/stats.service.ts:119 | `setDate(getDate() + 1)` gives the next valid date. |
| `Calendar.AddDays` | src/main/database.ts:222-320 | Adding k days gives a valid date k days later. |
| `Calendar.MonthStep` | src/main/services/stats.service.ts:137-138 | `setMonth(getMonth() + 1)` then `setDate(1)` always gives a valid date. |
| `Calendar.MonthStepCases` | src/main/services/stats.service.ts:137 | The month step lands on the first of the next month, or on the first of the month after when the day does not exist in the next month. |
| `Calendar.MonthStepAdvance` | src/main/services/stats.service.ts:138 | The month step lands on a first of month, later than the cursor, one or two months ahead, and exactly one ahead from a first. |
| `SalesChart.DiffDaysCountsDays` | src/main/services/stats.service.ts:64-67 | `Math.ceil(abs(end - start) / day)` with end at 23:59:59.999 is the number of days of the range, both ends included. |
| `SalesChart.GranularityByLength` | src/main/services/stats.service.ts:72-81 | Ranges of at most 2 days are hourly, 3 to 90 daily and longer ones monthly. |
| `SalesChart.Step` | src/main/services/stats.service.ts:115-138 | Each step of the walk yields a valid cursor strictly later than the one before. |
| `SalesChart.StepCursorAt` | src/main/services/stats.service.ts:103-143 | The i-th cursor of the walk is the start stepped i times. |
| `SalesChart.GuardByDay` | src/main/services/stats.service.ts:103 | `current <= end` holds exactly when the cursor's day is not after the end date. |
| `SalesChart.FillRange` | src/main/services/stats.service.ts:100-145 | The filling loop: point i is the label, key and total (0 when the key has no row) of the cursor after i steps. Every emitted cursor is on or before the end date, the cursor after the last point is past it, and a reversed range emits nothing. |
| `SalesChart.GetSalesChart` | src/main/services/stats.service.ts:60-146 | Point i is the point of the i-th cursor, whose day is within the range. The walk stops at the first cursor past the end, and a reversed range gives no points. |
| `SalesChart.HourlyWalkLength` | src/main/services/stats.service.ts:112-115 | An hourly chart has 24 points per day, one per hour of each day in order. |
| `SalesChart.DailyWalkLength` | src/main/services/stats.service.ts:116-119 | A daily chart has one point per day of the range, in order. |
| `SalesChart.MonthCursorOnFirst` | src/main/services/stats.service.ts:138 | After the first month every cursor of the monthly walk is on the first of a month. |
| `SalesChart.MonthKeysIncrease` | src/main/services/stats.service.ts:120-121 | Month keys along the walk strictly increase, so no month appears twice. |
| `SalesChart.MonthStepBounded` | src/main/services/stats.service.ts:137-138 | One month step moves the cursor at most 62 days. |
| `SalesChart.MonthlyWalkEnds` | src/main/services/stats.service.ts:120-139 | A monthly chart has at least two points and starts at the start's month. Its last point is the end's month. |
| `SalesChart.MonthStepSkipsFebruary` | src/main/services/stats.service.ts:137 | From 31 January the walk's next month is March. |
| `Calendar.IntendedMonthStep` | src/main/services/stats.service.ts:137-138 | With `setDate(1)` before `setMonth(+1)`, the step lands on the first of the next month, exactly one month on, from any day. |
| `Calendar.IntendedWalkVisitsEveryMonth` | src/main/services/stats.service.ts:137-138 | The walk with that step is i months on after i steps, so it passes through every month. |
| `Calendar.MonthStepIntendedFromFirst` | src/main/services/stats.service.ts:137-138 | The step as written and that step agree exactly when the cursor's day exists in the next month. |
| `SalesChart.KeyTextInjective` | src/main/services/stats.service.ts:107-121 | Distinct buckets have distinct key texts. |
| `SalesChart.DatePrefixInjective` | src/main/services/stats.service.ts:113 | Two key texts made of a zero-padded date and equally long suffixes are equal only when date and suffix are. |
| `SalesChart.CountedSaleKeyProper` | src/main/services/stats.service.ts:74-80 | The strftime key of a counted sale is a well-formed bucket of the chosen granularity. |
| `SalesChart.FillIsBucketTotal` | src/main/services/stats.service.ts:141-142 | The filled value of a key is the sum of completed sales in the window falling into that bucket, and zero when there are none. |
| `SalesChart.CursorNotBeforeStart` | src/main/services/stats.service.ts:101 | No cursor of the walk lies before the start date. |
| `SalesChart.WalkPointTotal` | src/main/services/stats.service.ts:83-142 | Each point's total is the sum of the completed sales of its hour, day or month within the window. |
| `Text.Lower` | src/renderer/src/components/reports/SalesHistoryTable.tsx:147 | `toLowerCase` keeps the length and lowers each character. |
| `Text.TrimSpec` | src/renderer/src/hooks/useBarcodeScanner.ts:37 | The trimmed text is empty exactly when the input is all whitespace; otherwise it starts and ends with a non-space character, and it occurs in the input. |
| `Text.TrimStartDropsSpace` | src/renderer/src/hooks/useBarcodeScanner.ts:37 | Every character removed from the front is whitespace. |
| `Text.TrimEndDropsSpace` | src/renderer/src/hooks/useBarcodeScanner.ts:37 | Every character removed from the back is whitespace. |
| `Text.TrimDropsOnlySpace` | src/renderer/src/hooks/useBarcodeScanner.ts:37 | The input is some whitespace, then the trimmed text, then some whitespace: `trim` removes the leading and trailing whitespace and nothing else. |
| `Text.TrimIdempotent` | src/renderer/src/components/sales/PosSection.tsx:29 | Trimming twice is trimming once. |
| `Text.Pad2Injective` | src/main/services/stats.service.ts:108-110 | `padStart(2, '0')` of numbers below 100 gives distinct texts for distinct numbers. |
| `PosSection.AddToCart` | src/renderer/src/components/sales/PosSection.tsx:56-70 | A product already in the cart gets one more unit at subtotal quantity times price. A new one is appended with quantity 1 and subtotal its price. |
| `PosSection.RemoveFromCart` | src/renderer/src/components/sales/PosSection.tsx:72-76 | The remaining entries are exactly those of other products, in their original order (the cart filtered by `id != productId`); a product not in the cart leaves it unchanged. |
| `PosSection.AddKeepsInvariant` | src/renderer/src/components/sales/PosSection.tsx:58-68 | Adding keeps one entry per product, positive quantities and subtotal equal to quantity times price. |
| `PosSection.RemoveKeepsInvariant` | src/renderer/src/components/sales/PosSection.tsx:73 | Removing keeps the cart invariant and the product is gone. |
| `PosSection.RemoveKeepsIdsUnique` | src/renderer/src/components/sales/PosSection.tsx:72-74 | Removing keeps product ids distinct. |
| `PosSection.BumpAddsPrice` | src/renderer/src/components/sales/PosSection.tsx:63 | One more unit adds the price to the subtotal. |
| `PosSection.AddToCartTotals` | src/renderer/src/components/sales/PosSection.tsx:124 | Adding a product adds one unit, and adds its price to the total. |
| `PosSection.AddToCartBumps` | src/renderer/src/components/sales/PosSection.tsx:124 | Scanning a product already at position k adds one unit and that entry's price to the total. |
| `PosSection.CheckoutRequest` | src/renderer/src/components/sales/PosSection.tsx:84-90 | The request carries one line per cart entry with its product, name, price and quantity, and the chosen method. |
| `PosSection.CheckoutTotalMatchesStoredItems` | src/renderer/src/components/sales/PosSection.tsx:84 | The total sent equals the sum of the subtotals the sale service stores for the items. |
| `PosSection.PosScreen.constructor` | src/renderer/src/components/sales/PosSection.tsx:17-19 | The screen starts with an empty cart and an empty barcode field. |
| `PosSection.PosScreen.HandleScan` | src/renderer/src/components/sales/PosSection.tsx:27-53 | Enter with a non-blank field looks up the trimmed code. A found product is added and the field cleared; a missing one only clears the field; a failed call changes nothing. Any other key, or a blank field, does nothing. |
| `PosSection.PosScreen.Type` | src/renderer/src/components/sales/PosSection.tsx:143 | Typing sets the field to the typed text and keeps the cart. |
| `PosSection.PosScreen.Remove` | src/renderer/src/components/sales/PosSection.tsx:72 | The cart loses the product's entries; the field is unchanged. |
| `PosSection.PosScreen.HandleCheckout` | src/renderer/src/components/sales/PosSection.tsx:79-107 | An empty cart sends nothing. Otherwise the cart is sent with its total. Success empties cart and field; failure keeps both. |
| `BarcodeScanner.KeyDown` | src/renderer/src/hooks/useBarcodeScanner.ts:17-49 | Keys are ignored while an input has focus. A gap over 100 ms empties the buffer, Enter empties the buffer and hands over its trimmed contents exactly when the last key came within 100 ms and the trimmed buffer is not empty, and a one-character key is appended. |
| `BarcodeScanner.CodeOfTrimmed` | src/renderer/src/hooks/useBarcodeScanner.ts:37-42 | A handed-over code is non-empty and already trimmed; nothing is handed over exactly when the buffer is all whitespace. |
| `BarcodeScanner.EmittedCodesAreTrimmed` | src/renderer/src/hooks/useBarcodeScanner.ts:39-41 | Every code of a run of keys is non-empty and trimmed. |
| `BarcodeScanner.AfterAppend` | src/renderer/src/hooks/useBarcodeScanner.ts:10-11 | The state after two runs of keys is that after their concatenation. |
| `BarcodeScanner.CodesAppend` | src/renderer/src/hooks/useBarcodeScanner.ts:41 | The codes of two runs are the codes of the first followed by those of the second. |
| `BarcodeScanner.BurstAppends` | src/renderer/src/hooks/useBarcodeScanner.ts:46-48 | Fast single-character keys append to the buffer and emit nothing. |
| `BarcodeScanner.EnterStep` | src/renderer/src/hooks/useBarcodeScanner.ts:36-44 | A quick Enter empties the buffer and emits its trimmed content when it is not blank. |
| `BarcodeScanner.BurstThenEnter` | src/renderer/src/hooks/useBarcodeScanner.ts:28-48 | A scanner burst then Enter emits the trimmed buffer plus burst and leaves the buffer empty. |
| `BarcodeScanner.ScanAfterPause` | src/renderer/src/hooks/useBarcodeScanner.ts:30-31 | After a pause over 100 ms a scan emits exactly its own trimmed characters, whatever the buffer held. |
| `BarcodeScanner.Scanner.constructor` | src/renderer/src/hooks/useBarcodeScanner.ts:8-11 | Mounting starts with an empty buffer and the current time. |
| `BarcodeScanner.Scanner.HandleKey` | src/renderer/src/hooks/useBarcodeScanner.ts:13-56 | When the hook is inactive no key changes anything. Otherwise each key updates buffer and time and emits as `KeyDown` says. |
| `SalesHistoryTable.TotalPages` | src/renderer/src/components/reports/SalesHistoryTable.tsx:154 | `Math.ceil(totalRows / 10) \|\| 1` is at least 1, 1 for no rows, and otherwise the least page count holding all rows. |
| `SalesHistoryTable.FooterDescribesFetchedPage` | src/renderer/src/components/reports/SalesHistoryTable.tsx:75-83 | On a page within range the fetch is non-empty and the footer's start-to-end range counts exactly the rows fetched. A page past the end fetches nothing. |
| `SalesHistoryTable.OffsetMonotone` | src/renderer/src/components/reports/SalesHistoryTable.tsx:155-156 | Later pages start at later offsets. |
| `SalesHistoryTable.PageMovesStayInRange` | src/renderer/src/components/reports/SalesHistoryTable.tsx:376-389 | Previous and next stay within 1 to the page count. Each stays put only at its end and otherwise moves by one. |
| `SalesHistoryTable.ToggleRow` | src/renderer/src/components/reports/SalesHistoryTable.tsx:106-110 | Toggling flips whether the row is expanded and leaves every other row as it was. |
| `SalesHistoryTable.ToggleKeepsNoDuplicates` | src/renderer/src/components/reports/SalesHistoryTable.tsx:108 | The expanded list never holds an id twice. |
| `SalesHistoryTable.ToggleTwice` | src/renderer/src/components/reports/SalesHistoryTable.tsx:107-109 | Toggling twice restores the expanded set, and the list itself when the row was collapsed. |
| `SalesHistoryTable.DropAppended` | src/renderer/src/components/reports/SalesHistoryTable.tsx:108 | Filtering out an id just appended to a list without it gives the list back. |
| `SalesHistoryTable.TotalUnits` | src/renderer/src/components/reports/SalesHistoryTable.tsx:207-210 | Missing quantities count as zero: no quantities give 0, and non-negative ones give a non-negative sum. |
| `SalesHistoryTable.TotalUnitsOfPresent` | src/renderer/src/components/reports/SalesHistoryTable.tsx:208 | With every quantity present the units are their sum. |
| `SalesHistoryTable.HistoryShowsCartUnits` | src/renderer/src/components/reports/SalesHistoryTable.tsx:207-210 | A sale's units column equals the units shown in the cart it was checked out from. |
| `SalesHistoryTable.PaymentIconFor` | src/renderer/src/components/reports/SalesHistoryTable.tsx:146-152 | The lower-cased method gets the banknote when it contains "efectivo". Otherwise it gets the card for "tarjeta", then the arrows for "transferencia", and no icon when it contains none of them. |
| `SalesHistoryTable.LowerIdempotent` | src/renderer/src/components/reports/SalesHistoryTable.tsx:147 | Lower-casing twice is lower-casing once. |
| `SalesHistoryTable.PaymentIconIgnoresCase` | src/renderer/src/components/reports/SalesHistoryTable.tsx:146-147 | The icon does not depend on letter case. |
| `SalesHistoryTable.CashGetsBanknote` | src/renderer/src/components/sales/PosSection.tsx:256 | The "Efectivo" button's sales show the banknote. |
| `SalesHistoryTable.CardGetsCreditCard` | src/renderer/src/components/sales/PosSection.tsx:271 | The "Tarjeta" button's sales show the card. |
| `SalesHistoryTable.TransferGetsArrows` | src/renderer/src/components/sales/PosSection.tsx:280 | The "Transferencia" button's sales show the arrows. |
| `SalesHistoryTable.TransferNamesNoOtherMethod` | src/renderer/src/components/reports/SalesHistoryTable.tsx:148-150 | "transferencia" contains neither "efectivo" nor "tarjeta", so the earlier checks do not capture it. |
| `SalesHistoryTable.Initial` | src/renderer/src/components/reports/SalesHistoryTable.tsx:57-63 | The table starts on page 1 with no row expanded, a reachable state. |
| `SalesHistoryTable.HandlersKeepReachable` | src/renderer/src/components/reports/SalesHistoryTable.tsx:94-96 | Every handler keeps page at least 1 and expanded ids distinct. A date-range change goes back to page 1, page moves keep the expanded rows, and toggling keeps the page. |
| `ProductDialog.Validate` | src/renderer/src/components/products/ProductDialog.tsx:26-32 | The form passes exactly when code has a character, name three and price is a non-negative number. On failure every failing field, and only those, is reported. |
| `ProductDialog.EmptyFormRejected` | src/renderer/src/components/products/ProductDialog.tsx:45-49 | The default form fails on code and name, and only on them. |
| `ProductDialog.BlankCodeAccepted` | src/renderer/src/components/products/ProductDialog.tsx:27 | The length checks look at the raw text: a code of one space passes. |
| `ProductDialog.SaveAndClose` | src/renderer/src/components/products/ProductDialog.tsx:60-63 | A valid form is submitted and the dialog closes; an invalid one submits nothing and changes nothing. |
| `ProductDialog.SaveAndContinue` | src/renderer/src/components/products/ProductDialog.tsx:66-78 | A valid form is submitted and reset to the defaults with the dialog kept open; an invalid one submits nothing and changes nothing. |
| `ProductDialog.SubmittedValuesAcceptable` | src/renderer/src/components/products/ProductDialog.tsx:53-57 | Submitted values always satisfy the schema. A second "save and continue" right after one submits nothing, and nothing can be submitted right after opening. |
| `ProductsPage.TotalPages` | src/renderer/src/components/pages/Products.tsx:26 | `Math.ceil(length / 15)` is zero exactly for an empty list and otherwise the least page count holding all products. |
| `ProductsPage.PageIsWindow` | src/renderer/src/components/pages/Products.tsx:27-28 | From page 1 on, the slice is the window of at most 15 products at the page's start index. |
| `ProductsPage.PageZeroShowsNothing` | src/renderer/src/components/pages/Products.tsx:107 | On an empty list "next" would reach page 0, whose slice is empty. |
| `ProductsPage.EveryProductOnItsPage` | src/renderer/src/components/pages/Products.tsx:26-28 | Product i is shown as entry i mod 15 of page i div 15 + 1, and that page is within the page count. |
| `ProductsPage.FooterCountsShownProducts` | src/renderer/src/components/pages/Products.tsx:88-89 | On every page in range the footer's range counts exactly the products shown, at least one. |
| `ProductsPage.Toggle` | src/renderer/src/components/pages/Products.tsx:31-33 | Only the active flag can change, and it flips exactly on the products with the id. |
| `ProductsPage.ToggleTwice` | src/renderer/src/components/pages/Products.tsx:32 | Toggling twice gives back the list. |
| `ProductsPage.Create` | src/renderer/src/components/pages/Products.tsx:36-44 | The created product, active with the submitted fields, is put in front of the unchanged list. |
| `ProductsPage.CreatedShownFirst` | src/renderer/src/components/pages/Products.tsx:42 | A created product is the first shown on page 1, and every other product moves down one place. |
| `ProductsPage.InitialReachable` | src/renderer/src/components/pages/Products.tsx:11-23 | Whatever the random draws, the page starts on page 1 of 4 with the 50 generated products (`Mock`), and each of them passes the dialog's schema: a code `779…`, a name `Producto de Ejemplo n` and a price between 1000 and 50999. |
| `ProductsPage.HandlersKeepReachable` | src/renderer/src/components/pages/Products.tsx:95-107 | Every handler keeps the list non-empty, the page in range and the fields valid. The list never shrinks, and the page shown is always the window at its start index. |

## Left out

- Time zones, daylight saving time and the local clock are not modelled: a timestamp is a calendar date plus seconds of the day. The current time is a parameter.
- Years before 1000 and after 9999 are not modelled. In that range SQLite's `strftime('%Y')` and JavaScript's `${year}` write the same four digits.
- `split('-').map(Number)` on malformed date strings, and JavaScript's two-digit-year rule in `new Date`, are not modelled: input dates are well-formed days.
- Prices and amounts are exact reals, not IEEE doubles, so rounding in sums, averages and `price * quantity` is not modelled.
- `LIKE '%search%'` is modelled as a substring test after ASCII case folding ('A'..'Z' to 'a'..'z') of both sides, as SQLite's `LIKE` does by default. The `%` and `_` wildcards inside a search term, and case folding of non-ASCII letters, are not modelled.
- `toLowerCase` is modelled for ASCII letters only. UTF-16 code-unit lengths (zod's `min`, `key.length === 1`) are modelled as character counts.
- `StatsService.GroupRow`: the row's name is stated as that of an item of its group, because SQLite picks some row of the group. The order among products tied on `sold` is left unspecified for the same reason.
- `SaleService.CreateSale` fails only on the product FOREIGN KEY; NOT NULL violations (a missing name, price or quantity on a line) cannot arise in the model because its lines are typed.
- `SaleService.Ordered`: sales with the same `created_at` (one-second resolution, so ties are ordinary) are kept in table order, the same on every query. SQL promises no order among equal `ORDER BY` keys, so `SaleService.PagesTile` relies on this choice.
- `SaleService.GetSales`: negative LIMIT and OFFSET values are excluded by the types (`nat`), so SQLite's reading of a negative LIMIT as "no limit" is not modelled. The default arguments `limit = 50, offset = 0` are not modelled either: the model takes both as given, so a request that omits one of them, which falls back to its default, is not covered.
- The IPC bridge is not part of this model. The renderer's `window.api.getProductByCode` and `window.api.createSale` are not exposed under those names by the preload script. The screen therefore takes each call's outcome (found, not found, threw; resolved, rejected) as a parameter instead of calling the services.
- `SalesHistoryTable`'s `totalRows` is a prop with default 0, and the reports page renders the table without props, so it never fetches. The model takes `totalRows` to be the number of sales in the range and the date range to be present. It does not model the `loadSales` error state, the order in which React runs the two effects on a date-range change, or the confirm dialogs around cancel and restore (the operations themselves are `SaleService.CancelSale` and `SaleService.RestoreSale`).
- `formatDateTime`, `toLocaleString`, toasts, focus handling, loading flags and styling are display only and not modelled.
- Products page: the random codes and prices of the 50 generated products and the `Date.now() + Math.random()` ids are parameters. `handleEdit` and `handleDelete` only log and are not modelled.
- The zod coercion of the price field is modelled as an optional number: a text for which `Number()` gives NaN is absent. A cleared field is `Number('') = 0`, so it is present as 0 and accepted.
- The database client module and `initDB`'s `CREATE TABLE IF NOT EXISTS` on an existing file are not modelled; the model starts from empty tables.

## Findings

| source | as written | input that shows it | evidently intended | confidence | as-written member | corrected member |
|---|---|---|---|---|---|---|
| src/main/services/stats.service.ts:137-138 | the monthly chart steps with `setMonth(getMonth() + 1)` and then `setDate(1)`, so a start day missing from the next month overflows past it | a monthly range starting on 31 January 2025: the second point is March, and February never appears | one point per month, each the first of the next month (`setDate(1)` first) | high, not executed | `SalesChart.MonthStepSkipsFebruary` | `Calendar.IntendedWalkVisitsEveryMonth` |

Only the first step can skip a month, since every later cursor is on day 1. The chart model keeps the step as written, `Calendar.MonthStep`, because the chart's output is what the program shows.
