/** The dashboard aggregator (controllers/dashboardController.js,
    `getDashboardMetrics`): current stock and pending work, the money
    figures of the bills created in a chosen period, and the months and
    years a caller can choose from. Calendar arithmetic on real dates is a
    parameter (`Calendar`); everything else is folds over the stores. */
module Dashboard {
  import opened Common
  import opened ItemModel
  import opened BillModel
  import opened Records

  // ------------------------------------------------------------ the calendar

  /** How far back a period filter reaches: whole days or calendar months. */
  datatype Lookback = Days(days: nat) | Months(months: nat)

  /** A closed interval of timestamps, as the `$gte`/`$lte` query uses it. */
  datatype Range = Range(start: int, end: int)

  /** The date arithmetic the controller delegates to JavaScript's `Date`:
      the current instant, the month a timestamp falls in (as the month
      index `year * 12 + month - 1`), the range from the start of the day a
      lookback before now to the end of today, the range of a (year, month)
      pair, and the range the query gets when no filter sets one. */
  datatype Calendar = Calendar(
    now: int,
    monthIndexOf: int -> int,
    periodRange: Lookback -> Range,
    monthRange: (int, int) -> Range,
    unsetRange: Range)

  /** The `switch (period)`: a week is seven days, a month thirty, and the
      longer periods step back by calendar months; anything else is a month. */
  function PeriodLookback(period: string): (r: Lookback)
    ensures period == "1week" ==> r == Days(7)
    ensures period == "1month" ==> r == Days(30)
    ensures period == "3months" ==> r == Months(3)
    ensures period == "6months" ==> r == Months(6)
    ensures period == "1year" ==> r == Months(12)
    ensures period !in {"1week", "3months", "6months", "1year"} ==> r == Days(30)
    ensures r.Days? ==> 7 <= r.days <= 30
    ensures r.Months? ==> r.months in {3, 6, 12}
  {
    match period
    case "1week" => Days(7)
    case "1month" => Days(30)
    case "3months" => Months(3)
    case "6months" => Months(6)
    case "1year" => Months(12)
    case _ => Days(30)
  }

  /** The query string, with `parseInt` already applied to month and year
      (`None` standing for `NaN`). */
  datatype Query = Query(filterType: Option<string>, period: Option<string>,
                         month: Option<int>, year: Option<int>)

  function FilterType(q: Query): string { TextOr(q.filterType, "period") }

  /** `!month || !year`: missing, unparsable or zero. */
  predicate MonthYearMissing(q: Query) {
    q.month.None? || q.month.value == 0 || q.year.None? || q.year.value == 0
  }

  /** The date range of the bills the metrics cover. */
  function ResolveRange(q: Query, cal: Calendar): (r: Result<Range>)
    ensures r.Err? <==> FilterType(q) == "monthYear" && MonthYearMissing(q)
    ensures r.Err? ==> r.error == InvalidInput("Month and year are required for monthYear filter type")
    ensures FilterType(q) == "period" ==> r == Ok(cal.periodRange(PeriodLookback(TextOr(q.period, "1month"))))
    ensures FilterType(q) == "monthYear" && r.Ok? ==> r.value == cal.monthRange(q.year.value, q.month.value)
    ensures FilterType(q) !in {"period", "monthYear"} ==> r == Ok(cal.unsetRange)
  {
    var kind := FilterType(q);
    if kind == "period" then Ok(cal.periodRange(PeriodLookback(TextOr(q.period, "1month"))))
    else if kind == "monthYear" then
      if MonthYearMissing(q) then Err(InvalidInput("Month and year are required for monthYear filter type"))
      else Ok(cal.monthRange(q.year.value, q.month.value))
    else Ok(cal.unsetRange)
  }

  // ------------------------------------------------------- current metrics

  predicate OwnedGeneric(owner: Id, i: Item) { i.owner == owner && i.itemType == Generic }
  predicate OwnedSerialized(owner: Id, i: Item) { i.owner == owner && i.itemType == Serialized }

  function StockQty(i: Item): int { i.stockQty }
  function AvailableSerials(i: Item): int { CountAvailable(i.serialNumbers) }

  /** Generic stock quantities plus available serials, over every item of
      the owner (the query does not look at `deleted`). */
  function TotalStock(items: seq<Item>, owner: Id): int {
    SumOf(Filter(items, i => OwnedGeneric(owner, i)), StockQty)
    + SumOf(Filter(items, i => OwnedSerialized(owner, i)), AvailableSerials)
  }

  /** The total stock is the owner's `availableStock` summed over items. */
  lemma {:induction false} TotalStockIsAvailableStock(items: seq<Item>, owner: Id)
    ensures TotalStock(items, owner) == SumOf(Filter(items, (i: Item) => i.owner == owner), AvailableStock)
  {
    if |items| > 0 {
      TotalStockIsAvailableStock(items[1..], owner);
    }
  }

  /** `countDocuments({ createdBy, status: 'pending' })`. */
  function PendingWorkOrders(orders: seq<WorkOrder>, owner: Id): (n: nat)
    ensures n <= |orders|
    ensures n == 0 <==> forall k :: 0 <= k < |orders| ==>
              !(orders[k].owner == owner && orders[k].status == WorkPending)
  {
    Count(orders, (w: WorkOrder) => w.owner == owner && w.status == WorkPending)
  }

  // -------------------------------------------------------- period metrics

  /** The bills query: the owner's bills created inside the range, deleted
      or not. */
  predicate InPeriod(b: Bill, owner: Id, rg: Range) {
    b.owner == owner && rg.start <= b.createdAt <= rg.end
  }

  function PeriodBills(bills: seq<Bill>, owner: Id, rg: Range): (r: seq<Bill>)
    ensures forall k :: 0 <= k < |r| ==> r[k] in bills && InPeriod(r[k], owner, rg)
    ensures forall k :: 0 <= k < |bills| && InPeriod(bills[k], owner, rg) ==> bills[k] in r
  {
    Filter(bills, (b: Bill) => InPeriod(b, owner, rg))
  }

  /** `Item.findById(itemId)`: the first item with that id, of any owner. */
  function ItemById(items: seq<Item>, id: Id): (r: Option<nat>)
    ensures r.Some? ==> r.value < |items| && items[r.value].id == id
    ensures r.None? <==> forall k :: 0 <= k < |items| ==> items[k].id != id
  {
    FindIndex(items, (i: Item) => i.id == id)
  }

  /** The purchase price an item line is costed at: its own snapshot, or,
      when that is zero, the item's current purchase price, or zero when
      the item is gone. */
  function UnitCost(items: seq<Item>, l: BillLine): (c: int)
    ensures l.purchasePrice != 0 ==> c == l.purchasePrice
    ensures l.purchasePrice == 0 && ItemById(items, l.itemId).None? ==> c == 0
    ensures l.purchasePrice == 0 && ItemById(items, l.itemId).Some? ==>
              c == items[ItemById(items, l.itemId).value].purchasePrice
  {
    if l.purchasePrice != 0 then l.purchasePrice
    else match ItemById(items, l.itemId)
      case Some(k) => items[k].purchasePrice
      case None => 0
  }

  /** A line's expense: nothing for a service, cost times quantity otherwise. */
  function LineExpense(items: seq<Item>, l: BillLine): int {
    if l.itemType == ServiceLine then 0 else UnitCost(items, l) * l.qty
  }

  function BillExpense(items: seq<Item>, b: Bill): int {
    SumOf(b.items, (l: BillLine) => LineExpense(items, l))
  }

  predicate IsServiceLine(l: BillLine) { l.itemType == ServiceLine }

  /** The amount a bill charges for services. */
  function ServiceTotal(b: Bill): int {
    SumOf(Filter(b.items, IsServiceLine), LineAmount)
  }

  /** `dueAmount === 0`: a cleared bill's services are earned. */
  predicate Cleared(b: Bill) { b.dueAmount == 0 }

  /** The sign rule: a cleared bill adds its services, any other bill
      subtracts them. */
  function SignedServices(b: Bill): (r: int)
    ensures Cleared(b) ==> r == ServiceTotal(b)
    ensures !Cleared(b) ==> r == -ServiceTotal(b)
  {
    if Cleared(b) then ServiceTotal(b) else -ServiceTotal(b)
  }

  /** The money figures of a set of bills. */
  datatype Money = Money(
    billed: int,
    collected: int,
    outstanding: int,
    expenses: int,
    netProfit: int,
    services: int,
    grossProfit: int)

  /** The money figures of the bills of a period: what they bill, collect
      and still owe, what their item lines cost, and the services figure by
      the sign rule; when the bills agree with their amounts and none is
      overpaid, billed is collected plus outstanding. */
  function PeriodMoney(items: seq<Item>, bills: seq<Bill>): (m: Money)
    ensures m.billed == SumOf(bills, BillTotal)
    ensures m.collected == SumOf(bills, BillReceived)
    ensures m.outstanding == SumOf(bills, BillDue)
    ensures m.expenses == SumOf(bills, (b: Bill) => BillExpense(items, b))
    ensures m.services == SumOf(Filter(bills, Cleared), ServiceTotal)
                          - SumOf(Filter(bills, (b: Bill) => !Cleared(b)), ServiceTotal)
    ensures (forall k :: 0 <= k < |bills| ==> Consistent(bills[k]) && bills[k].receivedPayment <= bills[k].totalAmount)
            ==> m.billed == m.collected + m.outstanding
    ensures m.netProfit == m.collected - m.expenses
    ensures m.grossProfit == m.collected - m.expenses + m.services
  {
    ServicesSignRule(bills);
    assert (forall k :: 0 <= k < |bills| ==> Consistent(bills[k]) && bills[k].receivedPayment <= bills[k].totalAmount)
           ==> SumOf(bills, BillTotal) == SumOf(bills, BillReceived) + SumOf(bills, BillDue) by {
      if forall k :: 0 <= k < |bills| ==> Consistent(bills[k]) && bills[k].receivedPayment <= bills[k].totalAmount {
        BilledSplits(bills);
      }
    }
    var collected := SumOf(bills, BillReceived);
    var expenses := SumOf(bills, (b: Bill) => BillExpense(items, b));
    var services := SumOf(bills, SignedServices);
    Money(SumOf(bills, BillTotal), collected, SumOf(bills, BillDue), expenses,
          collected - expenses, services, collected - expenses + services)
  }

  /** The services figure is what the cleared bills charge for services
      minus what the bills still owing charge. */
  lemma {:induction false} ServicesSignRule(bills: seq<Bill>)
    ensures SumOf(bills, SignedServices)
            == SumOf(Filter(bills, Cleared), ServiceTotal) - SumOf(Filter(bills, (b: Bill) => !Cleared(b)), ServiceTotal)
  {
    if |bills| > 0 {
      ServicesSignRule(bills[1..]);
    }
  }

  /** Over consistent bills that are not overpaid, billed splits into
      collected and outstanding. */
  lemma BilledSplits(bills: seq<Bill>)
    requires forall k :: 0 <= k < |bills| ==> Consistent(bills[k]) && bills[k].receivedPayment <= bills[k].totalAmount
    ensures SumOf(bills, BillTotal) == SumOf(bills, BillReceived) + SumOf(bills, BillDue)
  {
    forall k | 0 <= k < |bills|
      ensures BillTotal(bills[k]) == BillReceived(bills[k]) + BillDue(bills[k])
    {
      assert Consistent(bills[k]);
    }
    SumOfAdd(bills, BillTotal, BillReceived, BillDue);
  }

  /** Expenses count every item line whatever the bill's payment state:
      two bills with the same lines cost the same. */
  lemma {:induction false} ExpensesCountItemLines(items: seq<Item>, ls: seq<BillLine>, b: Bill)
    ensures BillExpense(items, b.(items := ls)) == SumOf(Filter(ls, (l: BillLine) => !IsServiceLine(l)),
                                                        (l: BillLine) => UnitCost(items, l) * l.qty)
  {
    if |ls| > 0 {
      ExpensesCountItemLines(items, ls[1..], b);
    }
  }

  // ------------------------------------------------------ months and years

  /** The oldest creation time among the owner's bills, deleted or not. */
  function EarliestCreated(bills: seq<Bill>, owner: Id): (r: Option<int>)
    ensures r.None? <==> forall k :: 0 <= k < |bills| ==> bills[k].owner != owner
    ensures r.Some? ==> exists k :: 0 <= k < |bills| && bills[k].owner == owner && bills[k].createdAt == r.value
    ensures r.Some? ==> forall k :: 0 <= k < |bills| && bills[k].owner == owner ==> r.value <= bills[k].createdAt
  {
    if |bills| == 0 then None
    else
      var rest := EarliestCreated(bills[1..], owner);
      if bills[0].owner != owner then
        assert forall k :: 1 <= k < |bills| ==> bills[k] == bills[1..][k - 1];
        rest
      else if rest.None? || bills[0].createdAt <= rest.value then Some(bills[0].createdAt)
      else
        assert forall k :: 1 <= k < |bills| ==> bills[k] == bills[1..][k - 1];
        rest
  }

  datatype MonthYear = MonthYear(month: int, year: int)

  /** The month a month index stands for. */
  function MonthOf(index: int): (r: MonthYear)
    ensures 1 <= r.month <= 12
  {
    MonthYear(index % 12 + 1, index / 12)
  }

  function MonthIndex(m: MonthYear): int { m.year * 12 + m.month - 1 }

  /** Month indices and (month, year) pairs are the same thing. */
  lemma MonthIndexRoundTrip(index: int, m: MonthYear)
    ensures MonthIndex(MonthOf(index)) == index
    ensures 1 <= m.month <= 12 ==> MonthOf(MonthIndex(m)) == m
  {
    if 1 <= m.month <= 12 {
      var i := MonthIndex(m);
      assert i == m.year * 12 + (m.month - 1);
      assert 0 <= m.month - 1 < 12;
    }
  }

  /** The years `first..last`, inclusive. */
  function YearSpan(first: int, last: int): (r: seq<int>)
    ensures |r| == Max0(last - first + 1)
    ensures forall k :: 0 <= k < |r| ==> r[k] == first + k
    decreases last - first
  {
    if first > last then [] else [first] + YearSpan(first + 1, last)
  }

  /** The months with indices `first..last`, inclusive. */
  function MonthSpan(first: int, last: int): (r: seq<MonthYear>)
    ensures |r| == Max0(last - first + 1)
    ensures forall k :: 0 <= k < |r| ==> r[k] == MonthOf(first + k)
    decreases last - first
  {
    if first > last then [] else [MonthOf(first)] + MonthSpan(first + 1, last)
  }

  lemma DivMod12(n: int, q: int, r: int)
    requires n == 12 * q + r && 0 <= r < 12
    ensures n / 12 == q && n % 12 == r
  {
  }

  /** The month after a month index is the next calendar month. */
  lemma NextMonth(i: int)
    ensures MonthOf(i).month < 12 ==> MonthOf(i + 1) == MonthYear(MonthOf(i).month + 1, MonthOf(i).year)
    ensures MonthOf(i).month == 12 ==> MonthOf(i + 1) == MonthYear(1, MonthOf(i).year + 1)
  {
    var q := i / 12;
    var r := i % 12;
    if r < 11 {
      DivMod12(i + 1, q, r + 1);
    } else {
      DivMod12(i + 1, q + 1, 0);
    }
  }

  /** Each month of the list is followed by the next calendar month. */
  lemma MonthSpanConsecutive(first: int, last: int, k: nat)
    requires k + 1 < |MonthSpan(first, last)|
    ensures var r := MonthSpan(first, last);
            && (r[k].month < 12 ==> r[k + 1] == MonthYear(r[k].month + 1, r[k].year))
            && (r[k].month == 12 ==> r[k + 1] == MonthYear(1, r[k].year + 1))
  {
    var r := MonthSpan(first, last);
    assert r[k] == MonthOf(first + k) && r[k + 1] == MonthOf(first + k + 1);
    NextMonth(first + k);
  }

  /** The choices offered for the month filter: every month and every year
      from the owner's oldest bill up to now, or none without bills. */
  function Available(bills: seq<Bill>, owner: Id, cal: Calendar): (r: (seq<int>, seq<MonthYear>))
    ensures EarliestCreated(bills, owner).None? ==> r == ([], [])
    ensures EarliestCreated(bills, owner).Some? ==>
              var first := cal.monthIndexOf(EarliestCreated(bills, owner).value);
              var last := cal.monthIndexOf(cal.now);
              && r.0 == YearSpan(MonthOf(first).year, MonthOf(last).year)
              && r.1 == MonthSpan(first, last)
              && |r.1| == Max0(last - first + 1)
              && (|r.1| > 0 ==> r.1[0] == MonthOf(first) && r.1[|r.1| - 1] == MonthOf(last))
  {
    match EarliestCreated(bills, owner)
    case None => ([], [])
    case Some(t) =>
      var first := cal.monthIndexOf(t);
      var last := cal.monthIndexOf(cal.now);
      (YearSpan(MonthOf(first).year, MonthOf(last).year), MonthSpan(first, last))
  }

  // ------------------------------------------------------------- the whole

  datatype Metrics = Metrics(
    totalStock: int,
    pendingWorkOrders: nat,
    money: Money,
    availableYears: seq<int>,
    availableMonths: seq<MonthYear>)

  /** A month filter that finds no bills answers "no data" instead of metrics. */
  datatype Dashboard = NoData | Figures(metrics: Metrics)

  function GetDashboardMetrics(items: seq<Item>, orders: seq<WorkOrder>, bills: seq<Bill>,
                               owner: Id, q: Query, cal: Calendar): (r: Result<Dashboard>)
    ensures ResolveRange(q, cal).Err? ==> r == Err(ResolveRange(q, cal).error)
    ensures ResolveRange(q, cal).Ok? ==>
              var pb := PeriodBills(bills, owner, ResolveRange(q, cal).value);
              && (r == Ok(NoData) <==> FilterType(q) == "monthYear" && |pb| == 0)
              && (r.Ok? && r.value.Figures? ==>
                    && r.value.metrics.totalStock == TotalStock(items, owner)
                    && r.value.metrics.pendingWorkOrders == PendingWorkOrders(orders, owner)
                    && r.value.metrics.money == PeriodMoney(items, pb)
                    && (r.value.metrics.availableYears, r.value.metrics.availableMonths)
                       == Available(bills, owner, cal))
    ensures r.Ok?  <==> ResolveRange(q, cal).Ok?
  {
    match ResolveRange(q, cal)
    case Err(e) => Err(e)
    case Ok(rg) =>
      var pb := PeriodBills(bills, owner, rg);
      if FilterType(q) == "monthYear" && |pb| == 0 then Ok(NoData)
      else
        var av := Available(bills, owner, cal);
        Ok(Figures(Metrics(TotalStock(items, owner), PendingWorkOrders(orders, owner),
                           PeriodMoney(items, pb), av.0, av.1)))
  }
}
