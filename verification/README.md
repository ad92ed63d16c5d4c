# single-engineer-backend, modelled in Dafny

This project models the business core of the single-engineer backend. The
backend is an Express/Mongoose service for a one-person repair and
installation business. The owner keeps:

- an inventory of generic and serialized items;
- a customer book;
- bills that price a cart of services and items;
- payments against those bills;
- work orders, bank accounts for receiving payments, push-notification
  tokens and support tickets.

Every operation becomes a pure function over an immutable store. Each
collection is a `seq` of records in insertion order, and every record
carries its `id` and owner (`createdBy`). A `findOne` is the first record
that matches. An operation returns the new store, or a typed `Error` that
stands in for the HTTP error response.

Amounts and timestamps are unbounded integers. A calendar `Date`
(year, month, day) or a start-of-day timestamp is passed in wherever the
controller asks JavaScript's `Date` for one.

Modules follow the repository:

| module | file | models |
|---|---|---|
| `Common`, `Text`, `Sorting` | common.dfy, text.dfy, sorting.dfy | Option/Result, folds, trimming and case mapping, the sort used for `.sort(...)` |
| `Numbering` | numbering.dfy | `BILL-`, `WO-` and `TICK-` document numbers, and reading them back |
| `ItemModel` | item_model.dfy | models/Item.js |
| `BillModel` | bill_model.dfy | models/Bill.js and the status rule |
| `Records` | records.dfy | the customer, service and work-order documents the billing engine reads |
| `Billing` | billing.dfy | `createBill` |
| `Payments` | payments.dfy | `updateBillPayment`, `payCustomerDue` |
| `Dashboard` | dashboard.dfy | `getDashboardMetrics` |
| `InventoryController` | inventory_controller.dfy | `addItem`, `checkSerialNumber`, `updateStock` |
| `CustomerController` | customer_controller.dfy | `addCustomer`, `getAllCustomers`, `getCustomer`, `deleteCustomer` |
| `BankAccountController` | bank_account_controller.dfy | add, update, delete and set-primary of bank accounts |
| `WorkOrderController` | work_order_controller.dfy | `WO-` numbering, `createWorkOrder`, `deleteWorkOrder`, `markAsCompleted`, the two lists |
| `NotificationController` | notification_controller.dfy | `registerFcmToken`, `removeFcmToken` |
| `HelpSupport`, `SupportController` | help_support.dfy, support_controller.dfy | the ticket model's pre-save numbering and `submitSupportTicket` |

## Model

| member | source | states |
|---|---|---|
| Numbering.SequencePartWidth | controllers/billController.js:11 | `padStart(4, '0')` of count + 1 reads back as count + 1; it has exactly four digits up to 9999 and is the plain numeral from 10000 on |
| Numbering.NumeralWidth | controllers/billController.js:11 | a number has at most four decimal digits exactly when it is below 10000 |
| Numbering.TwoDigitYearValue | controllers/billController.js:9 | `slice(-2)` of the year reads as the year modulo 100 |
| Numbering.TwoDigitsValue | controllers/billController.js:10 | the month padded to two places reads as the month |
| Numbering.YearMonthStampValue | controllers/billController.js:9-11 | for a valid date the stamp reads as (year mod 100) × 100 + month, in four digits from year 10 on |
| Numbering.IsoDayStampValue | models/HelpSupport.js:46 | for a valid date the day stamp reads as year × 10000 + month × 100 + day |
| Numbering.BillNumberParses | controllers/billController.js:7-13 | a bill number reads back as the `BILL-` prefix, the stamp of its date and the owner's bill count + 1, and for a valid date the stamp's value is (year mod 100) × 100 + month, in four digits from year 10 on |
| Numbering.BillNumbersDistinct | controllers/billController.js:7-13 | bill numbers issued under different owner counts differ, whatever their dates |
| Numbering.BillNumberShape | controllers/billController.js:7-13 | for a valid date the number is `BILL-`, four stamp digits, a dash and at least four sequence digits |
| Numbering.WorkOrderNumberParses | controllers/workOrderController.js:5-11 | a work-order number reads back as `WO-`, the stamp and the count + 1, and for a valid date the stamp's value is (year mod 100) × 100 + month, in four digits from year 10 on |
| Numbering.TicketNumberParses | models/HelpSupport.js:46-50 | a ticket number reads back as `TICK-`, the day stamp and the day's ticket count + 1, and for a valid date the stamp's value is year × 10000 + month × 100 + day, in eight digits for a four-digit year |
| Numbering.IsoDayStampLength | models/HelpSupport.js:46 | for a valid date with a four-digit year the day stamp has exactly eight digits |
| ItemModel.NewSerial | models/Item.js:8-12 | a new serial entry is `available` and carries no customer or bill |
| ItemModel.AvailableStock | models/Item.js:80-85 | the virtual is the stock quantity of a generic item and, for a serialized item, the number of its entries whose status is `available` |
| ItemModel.CountAvailableAppend | models/Item.js:80-85 | the available count of two lists of serials joined is the sum of their counts |
| ItemModel.CountAvailableSell | models/Item.js:80-85 | marking one available serial sold lowers the available count by exactly one |
| ItemModel.CountAvailableSameStatus | models/Item.js:80-85 | rewriting a serial entry without changing its status keeps the available count |
| ItemModel.HoldsSerialAt | controllers/inventoryController.js:19-21 | the serial lookup finds a document exactly when some entry of some item, of any owner, carries the number |
| ItemModel.UniqueAt | controllers/inventoryController.js:231-268 | under serial uniqueness (the unique index across items, the stock-intake checks within one item), two different places in the whole item collection hold different serial numbers |
| ItemModel.SameSerialNumbersKeepUnique | models/Item.js:92-98 | a write that keeps every serial number in place keeps serial uniqueness |
| ItemModel.UniqueSerialPosition | controllers/inventoryController.js:231-268 | under serial uniqueness, which within one item the stock-intake checks keep, a serial number sits at exactly one position of the item |
| BillModel.StatusFor | controllers/billController.js:154-159 | paid exactly when received covers the total, partial exactly when 0 < received < total, pending exactly otherwise |
| BillModel.ConsistentOwingIffUnpaid | controllers/billController.js:303-312 | on a bill whose due and status agree with its amounts, a positive due is the same as not being paid |
| Records.FindLiveCustomer | controllers/billController.js:21 | finds a non-deleted customer of the owner with that id, and finds none exactly when there is none |
| Records.FindLiveService | controllers/billController.js:44 | finds a non-deleted service of the owner with that id, and finds none exactly when there is none |
| Billing.FindLiveItem | controllers/billController.js:66 | finds a non-deleted item of the owner with that id, whatever its type, and finds none exactly when there is none |
| Billing.FindSellable | controllers/billController.js:75-77 | finds an entry with the requested serial that is still available, and finds none exactly when there is none |
| Billing.PriceService | controllers/billController.js:42-62 | a service line fails exactly when the service is not found; otherwise it is priced at the service price times `qty \|\| 1`, with purchase price 0 |
| Billing.SellGenericStock | controllers/billController.js:109-144 | a generic line fails, naming the stock on hand, exactly when the stock is below `qty \|\| 1`; otherwise the stock drops by exactly that quantity and stays non-negative, the line is the sale price times the quantity with the purchase price captured, and no other item changes |
| Billing.SellSerialIff | controllers/billController.js:75-84 | a serialized line succeeds exactly when the item has an available entry with the requested serial, and otherwise fails naming the serial |
| Billing.SellSerialMarksSold | controllers/billController.js:85-107 | on success the first matching entry becomes sold and the available count drops by one; the line is one unit at the sale price with the purchase price captured; nothing else changes |
| Billing.SellSerialSameNumbers | controllers/billController.js:85-88 | selling a serial changes no serial number anywhere in the store |
| Billing.NothingSellableAfterSale | controllers/billController.js:75-88 | once the entry carrying a serial is sold, no entry of the store is sellable under that serial |
| Billing.SoldSerialCannotBeResold | controllers/billController.js:75-88 | a serial sold once cannot be sold again, by any owner, on any item |
| Billing.PriceLine | controllers/billController.js:41-145 | a line of an unknown type succeeds with nothing priced and no write; a service line writes nothing; a priced line appears exactly for the three known types |
| Billing.ProcessCartCons | controllers/billController.js:41-145 | the loop prices the head line, stops at its error, and otherwise continues from the store the head line left |
| Billing.ProcessCartAppend | controllers/billController.js:41-145 | pricing a cart `a + b` prices `a`, then `b` from the store `a` left, and concatenates the priced lines |
| Billing.ProcessCartFailFast | controllers/billController.js:41-145 | a failed cart failed at some line: every line before it priced, their writes persist in the returned store, and that line fails against that store with the returned error |
| Billing.ProcessCartLineCount | controllers/billController.js:41-145 | a successful cart yields one priced line per cart line of a known type |
| Billing.PriceLineSameNumbers | controllers/billController.js:41-145 | pricing one line keeps every serial number in place |
| Billing.ProcessCartKeepsSerialsUnique | controllers/billController.js:41-145 | pricing a cart keeps the serial uniqueness satisfied |
| Billing.ProcessCartKeepsStockNonNegative | controllers/billController.js:119-131 | no stock is overdrawn: non-negative stock stays non-negative whether the cart succeeds or fails |
| Billing.NewBill | controllers/billController.js:147-179 | subtotal is the sum of line amounts; total is subtotal less `discount \|\| 0`; received plus due is the total, unclamped; status follows received against total; one history entry exactly when something was received; payment method defaults to cash |
| Billing.NewBillConsistentIff | controllers/billController.js:147-159 | a new bill's due and status agree with its amounts exactly when the amount received does not exceed the total |
| Billing.AnnotatedSameStock | controllers/billController.js:181-197 | writing the customer and bill number onto an entry changes no serial number, status, stock or type |
| Billing.AnnotateSerialSameStock | controllers/billController.js:184-195 | one annotation update changes no serial number, status, stock or type |
| Billing.AnnotateSerialRecordsSale | controllers/billController.js:184-195 | under serial uniqueness, the entry carrying the serial afterwards records the customer name and the bill number and keeps its status |
| Billing.AnnotateSerialsSameStock | controllers/billController.js:181-197 | the whole annotation loop changes no serial number, status, stock or type |
| Billing.CompleteWorkOrder | controllers/billController.js:199-207 | a named, existing work order of any owner becomes completed, stamped and linked to the bill, with its number kept; otherwise nothing changes |
| Billing.CreateBill | controllers/billController.js:16-222 | unknown customer and empty cart are refused before any write; a failure adds no bill and changes only items; the call succeeds exactly when the customer is live, the cart is non-empty, every line prices and the payment method passes the schema's enum (models/Bill.js:88-92); success appends one bill with a fresh id, numbered from the owner's bill count and built from the request and the priced cart, annotates the sold serials with the customer's name and the bill number, and completes the named work order |
| Billing.CreateBillPricesCart | controllers/billController.js:147-179 | a created bill holds exactly the priced cart lines; its total is their sum less the discount; received is `receivedPayment \|\| 0`; received plus due is the total; the status follows the status rule; there is one history entry exactly when something was received; the method is `paymentMethod \|\| 'cash'`; the work order id is the request's |
| Billing.CreateBillFailureKeepsPrefix | controllers/billController.js:41-179 | a failed `createBill` leaves bills and work orders alone. When a line fails, its items store is the one left by the prefix of the cart before that line. When every line prices, the failure is the schema refusing the payment method, and the saves of the whole cart stay |
| Billing.CreateBillKeepsSerialsUnique | controllers/billController.js:16-222 | `createBill` keeps the serial uniqueness satisfied, whether it succeeds or fails part-way |
| Payments.FindLiveBill | controllers/billController.js:286 | finds a non-deleted bill of the owner with that id, and finds none exactly when there is none |
| Payments.RecordPayment | controllers/billController.js:295-312 | the history grows by the payment; received grows by the amount; due is what the total still exceeds received by, never negative; status is paid once covered, otherwise partial once something is received |
| Payments.RecordPaymentKeepsConsistent | controllers/billController.js:295-312 | a positive payment keeps a bill's due and status in agreement with its amounts |
| Payments.UpdateBillPayment | controllers/billController.js:274-328 | a missing or non-positive amount is refused first, then an unknown bill; it succeeds exactly when the amount is valid and the bill is found, and then only the found bill changes, by one recorded payment |
| Payments.UpdateBillPaymentKeepsConsistent | controllers/billController.js:274-328 | every bill whose due and status agreed with its amounts still does after a successful payment |
| Payments.Allocate | controllers/billController.js:397-429 | the loop touches at most as many bills as are queued, and gives each touched bill a positive amount no larger than its due |
| Payments.AllocateSum | controllers/billController.js:397-429 | the amounts given out add up to the payment, or to the total due when the payment is larger |
| Payments.AllocateFillsInOrder | controllers/billController.js:401-406 | every touched bill but the last is paid off in full |
| Payments.AllocateAt | controllers/billController.js:401-406 | bill `i` is reached only while the payment exceeds what the earlier bills owe, and it gets the smaller of its due and what is left |
| Payments.AllocateStops | controllers/billController.js:401-402 | the walk stops before the end of the queue only when the dues it passed cover the payment |
| Payments.AllocateExample | controllers/billController.js:397-429 | 120 over dues 100, 50 and 200 gives 100 and 20, and the third bill is not touched |
| Payments.OwingFrom | controllers/billController.js:373-378 | lists, in store order and each once, exactly the non-deleted bills of the owner and customer that still owe something |
| Payments.OldestFirstIsTotal | controllers/billController.js:378 | the oldest-first comparison orders any two bills and is transitive |
| Payments.DueQueue | controllers/billController.js:373-378 | the queue is a permutation of the owing bills sorted oldest first |
| Payments.DueQueueFacts | controllers/billController.js:373-378 | the queue holds each owing bill of the customer exactly once and nothing else |
| Payments.SharePayment | controllers/billController.js:404-425 | a bill's share moves history, received and due; a due reaching zero makes the bill paid with due 0, otherwise it is partial once something is received |
| Payments.SharePaymentAgreesWithRecord | controllers/billController.js:404-425 | on a consistent bill, a share no larger than the due is the same as recording that payment alone, so the bill stays consistent |
| Payments.ApplySharesSums | controllers/billController.js:404-429 | writing shares no larger than the dues lowers the store's total due, and raises its total received, by exactly the sum of the shares |
| Payments.ApplySharesFrame | controllers/billController.js:404-429 | writing shares changes only the bills of the used part of the queue, and lowers each of their dues by its share |
| Payments.ApplySharesWrites | controllers/billController.js:401-425 | writing back shares leaves each touched bill as that bill with its own share recorded |
| Payments.ApplySharesEffect | controllers/billController.js:404-429 | the sums and the frame together |
| Payments.QueueDues | controllers/billController.js:388 | the dues of the queued bills, in queue order |
| Payments.PayQueue | controllers/billController.js:380-429 | an empty queue is refused; an amount above the total due is refused with that total; any other amount succeeds (how the amount is spread is stated by Payments.PayQueueAllocates) |
| Payments.PayQueueConserves | controllers/billController.js:397-429 | a successful walk takes exactly the amount off the total due and adds it to the total received, touches only the bills it reports, all queued, and leaves no due negative |
| Payments.PayQueueAllocates | controllers/billController.js:397-429 | a successful walk reports exactly the queued bills the oldest-first allocation reaches, in queue order, and each of them is the bill with its share `min(due, remaining)` recorded |
| Payments.PayCustomerDue | controllers/billController.js:351-445 | an invalid amount is refused first, then an unknown customer; otherwise the call is the queue walk over the customer's owing bills sorted oldest first |
| Payments.PayCustomerDueRefusals | controllers/billController.js:356-395 | for a valid amount and a known customer, the call is refused exactly when the customer has no owing bill or the amount exceeds their total due |
| Payments.PayCustomerDueConserves | controllers/billController.js:397-429 | a successful call takes exactly the amount off the store's total due, adds it to the total received, touches only the customer's owing bills, which it reports, and leaves no due negative |
| Payments.PayCustomerDuePaysOldestFirst | controllers/billController.js:373-429 | a successful call pays a prefix of the creation-ordered queue: each bill paid carries its allocated share, every one but the last is paid off, and they were created in the order they were paid |
| Dashboard.PeriodLookback | controllers/dashboardController.js:49-67 | a week reaches back seven days, a month or an unknown period thirty, and the longer periods 3, 6 or 12 calendar months |
| Dashboard.ResolveRange | controllers/dashboardController.js:12-88 | the range fails exactly for a month filter missing its month or year; the period filter, which is the default, uses the period's lookback; the month filter uses the month's range |
| Dashboard.TotalStockIsAvailableStock | controllers/dashboardController.js:21-34 | generic quantities plus available serials is the owner's `availableStock` summed over items |
| Dashboard.PendingWorkOrders | controllers/dashboardController.js:37-40 | the count is zero exactly when the owner has no pending work order |
| Dashboard.PeriodBills | controllers/dashboardController.js:95-98 | exactly the owner's bills created inside the range, deleted ones included |
| Dashboard.ItemById | controllers/dashboardController.js:145 | finds an item with that id, of any owner, and finds none exactly when there is none |
| Dashboard.UnitCost | controllers/dashboardController.js:141-147 | a line is costed at its own purchase price, or when that is zero at the item's current one, or at zero when the item is gone |
| Dashboard.SignedServices | controllers/dashboardController.js:157-166 | a bill with no due adds its service total, any other bill subtracts it |
| Dashboard.PeriodMoney | controllers/dashboardController.js:110-175 | billed, collected and outstanding are the sums of the bills' totals, received and due amounts; expenses sum each bill's item cost; services are the cleared bills' service totals less those of the owing bills; billed is collected plus outstanding over consistent, not overpaid bills; net profit is collected less expenses and gross profit is net profit plus services |
| Dashboard.ServicesSignRule | controllers/dashboardController.js:157-166 | the services figure is the service total of the cleared bills minus that of the bills still owing |
| Dashboard.BilledSplits | controllers/dashboardController.js:110-116 | over consistent bills that are not overpaid, the billed amount is the collected amount plus the outstanding amount |
| Dashboard.ExpensesCountItemLines | controllers/dashboardController.js:127-155 | a bill's expense is cost times quantity over its non-service lines, whatever its payment state |
| Dashboard.EarliestCreated | controllers/dashboardController.js:178-180 | the oldest creation time among the owner's bills, which exists exactly when the owner has a bill |
| Dashboard.MonthOf | controllers/dashboardController.js:204-210 | a month index names a month between 1 and 12 |
| Dashboard.MonthIndexRoundTrip | controllers/dashboardController.js:198-211 | month indices and valid (month, year) pairs convert into each other and back |
| Dashboard.YearSpan | controllers/dashboardController.js:194-196 | the years from the first to the last, inclusive, one each |
| Dashboard.MonthSpan | controllers/dashboardController.js:198-211 | the months from the first index to the last, inclusive, one each |
| Dashboard.NextMonth | controllers/dashboardController.js:210 | stepping a month index is the next calendar month, December rolling over to January of the next year |
| Dashboard.MonthSpanConsecutive | controllers/dashboardController.js:204-211 | each month of the list is followed by the next calendar month |
| Dashboard.Available | controllers/dashboardController.js:176-213 | no bills, no choices; otherwise every year from the oldest bill's to now's, and exactly the month span from the oldest bill's month to now's, one entry per month |
| Dashboard.GetDashboardMetrics | controllers/dashboardController.js:6-213 | a bad range is the error; a month filter with no bills, and nothing else, is "no data"; otherwise the stock, the pending count, the money of the range's bills as `Dashboard.PeriodMoney` states it, and the available choices |
| InventoryController.AddItem | controllers/inventoryController.js:50-80 | the create fails with "Failed to add item" and the store unchanged exactly when a required name or unit is missing or empty or a required price is missing (models/Item.js:31-60); otherwise a new item of the owner with a fresh id, the given fields, no stock, serials or history, warranty `no_warranty` unless one is given, and available stock 0 is appended |
| InventoryController.AddItemKeepsSerialsUnique | controllers/inventoryController.js:54-65 | adding an item keeps serial uniqueness satisfied |
| InventoryController.CheckSerialNumber | controllers/inventoryController.js:7-45 | blank input is refused exactly; otherwise the answer is true exactly when some item holds the trimmed serial |
| InventoryController.CleanBatch | controllers/inventoryController.js:219-228 | every cleaned serial is non-empty and is the trim of a submitted one, and the trim of every submitted serial that is not blank is kept |
| InventoryController.CleanBatchAppend | controllers/inventoryController.js:219-228 | cleaning goes serial by serial in order: a joined batch cleans to the two cleaned parts joined |
| InventoryController.CleanBatchSingle | controllers/inventoryController.js:219-228 | one serial cleans to its trim, or to nothing when the trim is empty; with the previous row this fixes order and repeats |
| InventoryController.Dedup | controllers/inventoryController.js:231-240 | the set of a batch has no repeats and the same members |
| InventoryController.DedupLengthIffDistinct | controllers/inventoryController.js:231-240 | a batch loses nothing to the set exactly when it has no repeats |
| InventoryController.RepeatOccurrencesAreDuplicates | controllers/inventoryController.js:231-240 | a serial shows up among the repeat occurrences exactly when it occurs twice or more |
| InventoryController.BatchDuplicates | controllers/inventoryController.js:231-240 | the rejection names each repeated serial exactly once |
| InventoryController.ExistingIn | controllers/inventoryController.js:243-268 | the serials of the batch one item already holds, empty exactly when it holds none |
| InventoryController.ExistingSerials | controllers/inventoryController.js:243-268 | the serials of the batch some item already holds, empty exactly when none is held |
| InventoryController.FindOwned | controllers/inventoryController.js:194-201 | finds the owner's item with that id, deleted or not, and finds none exactly when there is none |
| InventoryController.AddGenericStock | controllers/inventoryController.js:203-214 | `stockQty \|\| 0` is added with no sign check, and logged exactly when positive |
| InventoryController.ValidateSerialBatch | controllers/inventoryController.js:215-268 | a batch passes exactly when cleaning leaves serials, none repeated and none held by any item; a repeat is refused naming the repeats |
| InventoryController.NewSerials | controllers/inventoryController.js:270-274 | one new available entry per serial, in order |
| InventoryController.AddSerialBatch | controllers/inventoryController.js:215-276 | the serialized branch changes at most the item it was given |
| InventoryController.UpdateStock | controllers/inventoryController.js:189-292 | not found exactly when the owner has no item with that id; otherwise at most that item changes; a generic item always succeeds, gaining `stockQty \|\| 0` as AddGenericStock states; a serialized item with a missing or empty batch is left as it was, and one whose batch trims to nothing is refused |
| InventoryController.WithSerialsAvailable | controllers/inventoryController.js:270-274 | appending new serials raises the available stock by their number |
| InventoryController.AppendFreshKeepsUnique | controllers/inventoryController.js:243-274 | appending distinct serials no item holds keeps serial uniqueness satisfied |
| InventoryController.UpdateStockAppendsBatch | controllers/inventoryController.js:270-274 | on success the item holds its old serials followed by the cleaned batch in input order, all available, and its available stock grows by the batch size |
| InventoryController.UpdateStockAllOrNothing | controllers/inventoryController.js:215-276 | a non-empty batch for a serialized item fails exactly when it does not validate, and then nothing is written |
| InventoryController.UpdateStockKeepsSerialsUnique | controllers/inventoryController.js:189-292 | every successful stock update keeps serial uniqueness satisfied |
| CustomerController.PhoneHolder | controllers/customerController.js:17-20 | finds a customer of the owner with that phone, deleted or not, and finds none exactly when there is none |
| CustomerController.AddCustomer | controllers/customerController.js:5-56 | a missing name or phone is refused; a phone the owner already uses is refused exactly; it succeeds exactly when name and phone are given and the phone is free, and then one customer with a fresh id and the given fields is appended |
| CustomerController.AddCustomerKeepsPhonesUnique | controllers/customerController.js:17-35 | adding keeps phone numbers unique per owner |
| CustomerController.CeilDiv | controllers/customerController.js:100 | the integer ceiling of a quotient, for either sign of the divisor |
| CustomerController.LimitOf | controllers/customerController.js:62 | the page size is never zero |
| CustomerController.Paginate | controllers/customerController.js:98-103 | the page and count are echoed, and `hasMore` holds exactly when the page is before the last |
| CustomerController.PaginateHasMore | controllers/customerController.js:98-103 | with a positive limit, more pages remain exactly when page × limit is below the count |
| CustomerController.NextSkip | controllers/customerController.js:61-63 | the page after this one starts at page × limit |
| CustomerController.LiveCustomers | controllers/customerController.js:69-71 | exactly the owner's non-deleted customers |
| CustomerController.PageSlice | controllers/customerController.js:69-71 | the page is the `limit` customers after the first `skip`, or fewer at the end |
| CustomerController.HighestDueFirstIsTotal | controllers/customerController.js:93 | the highest-due-first comparison orders any two entries and is transitive |
| CustomerController.ListWithCount | controllers/customerController.js:59-112 | a negative skip is the failure; otherwise the page's customers with their dues, as a permutation sorted highest due first, with the pagination of the given count |
| CustomerController.GetAllCustomers | controllers/customerController.js:59-112 | the list as written reports the count of every customer of the owner, deleted ones included |
| CustomerController.ListedCustomersAreLive | controllers/customerController.js:69-93 | every listed customer is a live customer of the owner, shown with the sum of the dues on their bills |
| CustomerController.DeletedCustomersInflateCount | controllers/customerController.js:66-71 | with one live and one deleted customer and one per page, the list promises a next page that is empty |
| CustomerController.GetAllLiveCustomers | controllers/customerController.js:59-112 | the corrected list reports the count of the customers its pages are drawn from |
| CustomerController.LiveCountPromisesNextPage | controllers/customerController.js:98-103 | with the live count, `hasMore` holds exactly when the next page is not empty |
| CustomerController.NewestFirstIsTotal | controllers/customerController.js:129-130 | the newest-first comparison orders any two bills and is transitive |
| CustomerController.GetCustomer | controllers/customerController.js:115-155 | not found exactly when there is no live customer; otherwise the customer, their live bills as a permutation sorted newest first, and the totals of those bills |
| CustomerController.GetCustomerSummary | controllers/customerController.js:133-146 | the summary counts and sums the customer's live bills as they stand, whatever their order |
| CustomerController.LiveBillCount | controllers/customerController.js:196 | zero exactly when no live bill, of any owner, names the customer |
| CustomerController.DeleteCustomer | controllers/customerController.js:191-215 | refused while live bills name the customer, then not found for no live customer; it succeeds exactly when no live bill names the customer and the customer is found, and then only the `deleted` flag is set |
| CustomerController.DeleteCustomerHides | controllers/customerController.js:204-215 | afterwards no live lookup finds the customer and every other customer is unchanged |
| BankAccountController.NormalisedFieldsAreNormal | controllers/bankAccountController.js:28-35 | trimming is idempotent; a normalised IFSC is trimmed and upper case; a normalised UPI id is trimmed and lower case |
| BankAccountController.ClearPrimaries | controllers/bankAccountController.js:17-22 | every account of the owner, deleted or not, loses the flag and nothing else changes |
| BankAccountController.FindLiveAccount | controllers/bankAccountController.js:78 | finds a live account of the owner with that id, and finds none exactly when there is none |
| BankAccountController.AfterClear | controllers/bankAccountController.js:17-22 | clearing changes no id, owner or deleted flag |
| BankAccountController.AddBankAccount | controllers/bankAccountController.js:4-51 | a missing field is refused with no write; otherwise primaries are cleared when asked, and the account appended is primary exactly when asked or the owner has no live account, with a fresh id |
| BankAccountController.NewAccountIsNormal | controllers/bankAccountController.js:28-35 | the account written is trimmed, with the IFSC upper case and the UPI id lower case |
| BankAccountController.FewerPrimaries | controllers/bankAccountController.js:17-22 | a store with no new live primaries keeps the one-primary bound |
| BankAccountController.AddKeepsAtMostOnePrimary | controllers/bankAccountController.js:4-51 | adding keeps at most one live primary for every owner, also when the write fails after the clearing |
| BankAccountController.TrimmedOrNormal | controllers/bankAccountController.js:96-99 | a field the update writes is trimmed |
| BankAccountController.IfscOrNormal | controllers/bankAccountController.js:98 | an IFSC code the update writes is trimmed and upper case |
| BankAccountController.UpiOrNormal | controllers/bankAccountController.js:100 | a UPI id the update writes is trimmed and lower case |
| BankAccountController.Overwrite | controllers/bankAccountController.js:96-101 | the update keeps id, owner and deleted flag, and the flag becomes the given boolean or stays |
| BankAccountController.UpdateBankAccount | controllers/bankAccountController.js:73-118 | unknown account refused with no write; a primary request for a non-primary account clears first; the save fails, after the clearing, exactly when a field is empty |
| BankAccountController.UpdateKeepsNormal | controllers/bankAccountController.js:96-101 | an update keeps a normalised account normalised |
| BankAccountController.UpdateKeepsAtMostOnePrimary | controllers/bankAccountController.js:73-118 | updating keeps at most one live primary for every owner |
| BankAccountController.DeleteBankAccount | controllers/bankAccountController.js:121-159 | as written: a soft delete, then, for a primary account, the first account of the owner, deleted or not, gets the flag |
| BankAccountController.DeleteKeepsAtMostOnePrimary | controllers/bankAccountController.js:121-159 | deleting as written still keeps at most one live primary for every owner |
| BankAccountController.DeletePrimaryCanRepickItself | controllers/bankAccountController.js:139-145 | deleting a primary account listed before a live one leaves the owner's live accounts with no primary |
| BankAccountController.DeleteBankAccountFixed | controllers/bankAccountController.js:121-159 | the corrected delete fails exactly for an unknown account; otherwise it only soft-deletes that account, and when that account was primary it hands the flag to the owner's first live account if one remains, with nothing else changed |
| BankAccountController.DeleteFixedKeepsOnePrimary | controllers/bankAccountController.js:139-145 | the corrected delete keeps at most one live primary and hands the flag on whenever a live account remains |
| BankAccountController.SetPrimaryAccountAsWritten | controllers/bankAccountController.js:162-198 | as written: a target already primary ends cleared with every other account of the owner; any other target ends as the corrected call leaves it |
| BankAccountController.SetPrimaryAgainClearsIt | controllers/bankAccountController.js:176-183 | making the only, already primary account primary again leaves the owner with no primary |
| BankAccountController.SetPrimaryAccount | controllers/bankAccountController.js:162-198 | unknown account refused; otherwise the target is the owner's only primary and no other field or owner changes |
| BankAccountController.SetPrimaryKeepsAtMostOnePrimary | controllers/bankAccountController.js:175-183 | setting a primary keeps at most one live primary for every owner |
| WorkOrderController.FindOwnedCustomer | controllers/workOrderController.js:19 | finds the owner's customer with that id, deleted or not, and finds none exactly when there is none |
| WorkOrderController.FindOwnedWorkOrder | controllers/workOrderController.js:154-157 | finds the owner's first order with that id, and finds none exactly when there is none |
| WorkOrderController.CheckRequest | controllers/workOrderController.js:19-37 | an unknown customer is refused first; a date before the start of today is refused; an unparsable date fails on the write; any accepted date is today or later |
| WorkOrderController.CreateWorkOrderAsWritten | controllers/workOrderController.js:14-71 | as written: the checks' errors come through unchanged |
| WorkOrderController.CreateWorkOrderAsWrittenNeverSucceeds | controllers/workOrderController.js:43-52 | as written, the write fails for every request that passes the checks |
| WorkOrderController.GenerateWorkOrderNumber | controllers/workOrderController.js:5-11 | as written: the number reads back as `WO-`, the month's stamp and the owner's current order count + 1 |
| WorkOrderController.HighestSequence | controllers/workOrderController.js:5-11 | no order of the owner carries a sequence number above it |
| WorkOrderController.NextWorkOrderNumber | controllers/workOrderController.js:5-11 | the numbering as intended: its sequence is one past the highest in use, and no order of the owner carries the number |
| WorkOrderController.CreateWorkOrder | controllers/workOrderController.js:14-71 | fails exactly when the checks fail; otherwise appends one pending order for the customer, with a fresh id, the given date, time and remark, and the next number |
| WorkOrderController.CreateWorkOrderKeepsNumbersUnique | controllers/workOrderController.js:5-11 | creating an order keeps the owner's numbers unique, and the new order's sequence is one past the highest before |
| WorkOrderController.DeleteWorkOrder | controllers/workOrderController.js:195-222 | not found exactly when the owner has no order with that id; otherwise exactly that order is removed, the others keep their order, and the owner's count drops by one |
| WorkOrderController.DeleteWorkOrderKeepsNumbersUnique | controllers/workOrderController.js:195-222 | deleting keeps the owner's numbers unique |
| WorkOrderController.DeleteLetsNumberRepeat | controllers/workOrderController.js:5-11 | as written: after two orders and the deletion of the first, the next number is the second order's again |
| WorkOrderController.MarkAsCompleted | controllers/workOrderController.js:150-180 | another owner's order is not found; a completed order is refused unchanged; a pending one becomes completed, stamped, and nothing else changes |
| WorkOrderController.MarkAsCompletedOnce | controllers/workOrderController.js:166-171 | marking the same order again is refused |
| WorkOrderController.ScheduleOrderIsTotal | controllers/workOrderController.js:81 | ordering by schedule date and then time orders any two orders and is transitive |
| WorkOrderController.LatestCompletedFirstIsTotal | controllers/workOrderController.js:104 | latest completion first, orders without one last, is a total order |
| WorkOrderController.PendingWorkOrders | controllers/workOrderController.js:74-94 | a permutation of the owner's pending orders sorted by schedule |
| WorkOrderController.CompletedWorkOrders | controllers/workOrderController.js:97-117 | a permutation of the owner's completed orders sorted latest first |
| WorkOrderController.PendingListMembers | controllers/workOrderController.js:76-81 | an order is on the pending list exactly when it is stored and pending |
| WorkOrderController.CompletedListMembers | controllers/workOrderController.js:99-104 | an order is on the completed list exactly when it is stored and completed |
| WorkOrderController.MarkAsCompletedMovesLists | controllers/workOrderController.js:166-175 | completing an order takes it off the pending list and puts it on the completed list |
| NotificationController.FindUser | controllers/notificationController.js:15 | finds the first user with that id, and finds none exactly when there is none |
| NotificationController.RegisterFcmToken | controllers/notificationController.js:4-52 | a missing token is refused, then an unknown user; a known token changes nothing; a new one is appended once with device `web` by default |
| NotificationController.RemoveFcmToken | controllers/notificationController.js:55-81 | a missing token is refused; otherwise only the user's own list may change, and an unknown user changes nothing |
| NotificationController.WithoutTokenContents | controllers/notificationController.js:66-68 | pulling a token keeps exactly the entries with other tokens |
| NotificationController.WithoutAbsentToken | controllers/notificationController.js:66-68 | pulling a token no entry carries changes nothing |
| NotificationController.WithoutTokenKeepsUnique | controllers/notificationController.js:66-68 | pulling keeps the remaining tokens unique |
| NotificationController.RegisterIdempotent | controllers/notificationController.js:24-30 | registering a token a second time, from any device at any time, changes nothing |
| NotificationController.RegisterKeepsTokensUnique | controllers/notificationController.js:24-37 | registering keeps each user's tokens unique |
| NotificationController.RemoveKeepsTokensUnique | controllers/notificationController.js:66-68 | removing keeps each user's tokens unique |
| NotificationController.RemoveFcmTokenEffect | controllers/notificationController.js:66-68 | afterwards the user has no entry with the token and every entry with another token is kept |
| NotificationController.RemoveUndoesRegister | controllers/notificationController.js:33-68 | removing a token that was just registered as new restores the store |
| HelpSupport.TicketsSince | models/HelpSupport.js:47-49 | the day's count is at most the number of tickets |
| HelpSupport.PreSave | models/HelpSupport.js:44-53 | a new ticket is numbered with today's stamp and the day's count + 1, nothing else changes; a ticket saved again is untouched |
| HelpSupport.Insert | models/HelpSupport.js:9-13 | the write fails exactly when the number is taken, and otherwise appends the ticket and keeps numbers unique |
| HelpSupport.InsertAdvancesDailyCount | models/HelpSupport.js:47-50 | a ticket stored today raises the day's count by one |
| HelpSupport.TicketNumbersDistinct | models/HelpSupport.js:46-50 | numbers from different daily counts differ, on any days |
| SupportController.Validate | controllers/supportController.js:18-38 | the request passes exactly when contact, issues and an explained `Other` are all given, and the first failed check names the error |
| SupportController.NewTicket | controllers/supportController.js:41-50 | the ticket built is pending, unnumbered and stamped now |
| SupportController.StampedTicket | controllers/supportController.js:41-52 | the saved ticket is pending, carries the request, has at least one issue with `Other` explained, reads back as today's stamp and the day's count + 1, and has a fresh id |
| SupportController.Confirmations | controllers/supportController.js:55-62 | the main address always gets a confirmation, and the alternate one exactly when it is not blank |
| SupportController.SubmitSupportTicket | controllers/supportController.js:4-90 | a refused request gets the first failed check's error; an accepted one fails exactly when its number is taken, and otherwise stores the ticket and names the confirmation recipients |
| SupportController.SubmitKeepsNumbersUnique | controllers/supportController.js:41-52 | a submission keeps ticket numbers unique and advances the day's count |

## Left out

- Concurrency. Counting for numbers, the read-check-write of stock and the phone check run one at a time. Races between requests are not modelled.
- Floating point. Amounts are integers, so `dueAmount === 0` in the dashboard is exact.
- Real calendar arithmetic is left to the caller: `setMonth` overflow, time zones, `toISOString`, start of day. `Dashboard.Calendar` supplies now, month indices and date ranges. Numbering takes a `Date`, and start-of-day is a timestamp parameter.
- The dashboard's range for a filter type other than `period` or `monthYear` is a `Calendar` field. The controller leaves those variables unset.
- The dashboard's month labels are not modelled.
- The dashboard's `pendingWorks` list is the list `WorkOrderController.PendingWorkOrders` models; it is not repeated.
- HTTP handling, status codes, JSON shapes and `.populate` are replaced by typed `Error` results.
- Authentication, e-mail and FCM transport are outside the model. The support ticket's result names the confirmation recipients instead of sending.
- `getAllBankAccounts`, `getBillsByCustomer`, `getBill`, `getAllBills`, `updateCustomer`, and `getWorkOrder` are not part of this model. They are plain queries or updates with no rule beyond the lookups modelled here.
- The inventory controller's remaining item endpoints (listing, editing and deleting items) are not part of this model.
- None of the seven schemas the controllers filter on declares the `deleted` flag: models/Customer.js, models/Service.js, models/BankAccount.js, models/User.js, models/Item.js, models/Bill.js and models/WorkOrder.js. The model follows the controllers and gives each record a `deleted` field.
- Text.UpperChar and Text.LowerChar map only the ASCII letters. JavaScript's `toUpperCase` and `toLowerCase` map all of Unicode, sometimes to several characters ("ß" becomes "SS"); those mappings are not modelled.
- InventoryController.AddItem models the schema's required-field checks on presence and on empty strings only. Mongoose's casting of prices, such as a string "abc" failing as a Number, and its enum check on `itemType` are not modelled; `itemType` is a typed field.
- The serial entry fields `customerName` and `billNumber`, written by `createBill`, are modelled as stored. Whether the Item schema's strict mode keeps them is not modelled.
- `createBill` looks items up by id and owner with no filter on the item type. The model follows that code, so a line's type, not the item's, picks the branch.
- `createBill` does not clamp the due at creation, and the model does not either: an overpaid new bill has a negative due.
- The database's handling of a negative `limit` is modelled as a limit of its absolute value. A negative `skip` is modelled as the failure the database reports.
- A duplicate ticket number is modelled as a failed insert. The unique index makes the save throw, and the controller answers with its generic failure.
- Bank account requests are modelled with string fields and a boolean or absent `isPrimary`. Other JSON values are not modelled.
- Ticket fields `resolvedAt` and `adminNotes` are never written by the core and are not modelled.
- `Sorting.SortBy` is an insertion sort proved sorted and a permutation. Records that compare equal may come out in any order, so the model does not pin down ties that the database breaks by storage order.
- Pagination.totalPages is an integer ceiling. The model does not reproduce `Infinity` or `NaN` from JavaScript division by zero, because the page size is never zero (`CustomerController.LimitOf`).

## Findings

| source | as written | input that shows it | evidently intended | confidence | as-written member | corrected member |
|---|---|---|---|---|---|---|
| controllers/customerController.js:66-71 | the total count covers every customer of the owner, deleted ones included, while pages hold live customers only | one live and one deleted customer, page 1 of size 1: `hasMore` is true and page 2 is empty | the count covers the live customers the pages are drawn from | high, not executed | CustomerController.GetAllCustomers, CustomerController.DeletedCustomersInflateCount | CustomerController.GetAllLiveCustomers, CustomerController.LiveCountPromisesNextPage |
| controllers/bankAccountController.js:139-145 | after deleting a primary account, the next primary is the first account of the owner with no `deleted` filter, which can be the account just deleted | a primary account A stored before a live account B; delete A: A, now deleted, gets the flag and B stays non-primary | the first live account of the owner becomes primary | high, not executed | BankAccountController.DeleteBankAccount, BankAccountController.DeletePrimaryCanRepickItself | BankAccountController.DeleteBankAccountFixed, BankAccountController.DeleteFixedKeepsOnePrimary |
| controllers/bankAccountController.js:166-183 | the target is loaded before `updateMany` clears the flags; setting `isPrimary = true` on a target loaded as primary does not change the loaded value, so `save` does not write it back | one live account that is already primary; set it primary: the owner ends with no primary | the target is the owner's only primary afterwards | medium (depends on Mongoose writing only changed paths), not executed | BankAccountController.SetPrimaryAccountAsWritten, BankAccountController.SetPrimaryAgainClearsIt | BankAccountController.SetPrimaryAccount, BankAccountController.SetPrimaryKeepsAtMostOnePrimary |
| controllers/workOrderController.js:43-52 | the order is created with `workOrderType` and `remark`, which models/WorkOrder.js:3-55 does not declare, and without `note`, which models/WorkOrder.js:13-17 requires, so validation refuses every write | any request for an owned customer with a schedule date of today | the order is stored, with the remark as its note | medium (the schema and the controller disagree; one of them is stale), not executed | WorkOrderController.CreateWorkOrderAsWritten, WorkOrderController.CreateWorkOrderAsWrittenNeverSucceeds | WorkOrderController.CreateWorkOrder, WorkOrderController.CreateWorkOrderKeepsNumbersUnique |
| controllers/workOrderController.js:5-11 | the sequence number is the owner's current order count + 1, and `deleteWorkOrder` (line 199) removes orders for good, so after a deletion the count falls behind the numbers in use; the index on `workOrderNumber` (models/WorkOrder.js:62) is not unique and does not stop the repeat | two orders numbered 1 and 2, delete the first: the next order is numbered 2 again (the two stored orders are given, since as written `createWorkOrder` never stores one, see the row for workOrderController.js:43-52; the repeat shows once that schema mismatch is fixed) | every order of an owner has its own number | medium (no unique index demands it), not executed | WorkOrderController.GenerateWorkOrderNumber, WorkOrderController.DeleteLetsNumberRepeat | WorkOrderController.NextWorkOrderNumber, WorkOrderController.CreateWorkOrderKeepsNumbersUnique |
