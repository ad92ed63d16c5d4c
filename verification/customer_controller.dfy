/** The customer book (controllers/customerController.js): adding a
    customer under the per-owner phone rule, the paged list with each
    customer's outstanding due, the bill summary of one customer, and the
    guarded soft delete. */
module CustomerController {
  import opened Common
  import opened Sorting
  import opened BillModel
  import opened Records

  // ------------------------------------------------------------ addCustomer

  datatype CustomerInput = CustomerInput(name: Option<string>, phone: Option<string>,
                                         whatsapp: Option<string>, address: Option<string>)

  /** `Customer.findOne({ phoneNumber, createdBy })`: deleted customers
      keep their phone number taken. */
  function PhoneHolder(customers: seq<Customer>, owner: Id, phone: string): (r: Option<nat>)
    ensures r.Some? ==> r.value < |customers| && customers[r.value].owner == owner
                        && customers[r.value].phone == phone
    ensures r.None? <==> forall k :: 0 <= k < |customers| ==>
              !(customers[k].owner == owner && customers[k].phone == phone)
  {
    FindIndex(customers, (c: Customer) => c.owner == owner && c.phone == phone)
  }

  function CustomerIds(customers: seq<Customer>): seq<Id> {
    Map(customers, (c: Customer) => c.id)
  }

  function AddCustomer(customers: seq<Customer>, owner: Id, input: CustomerInput)
    : (r: Result<(seq<Customer>, Customer)>)
    ensures !Truthy(input.name) || !Truthy(input.phone) ==>
              r == Err(InvalidInput("Customer name and phone number are required"))
    ensures Truthy(input.name) && Truthy(input.phone) ==>
              (r == Err(Conflict("A customer with this phone number already exists."))
               <==> exists k :: 0 <= k < |customers| && customers[k].owner == owner
                                && customers[k].phone == input.phone.value)
    ensures r.Ok? <==> Truthy(input.name) && Truthy(input.phone)
                       && PhoneHolder(customers, owner, input.phone.value).None?
    ensures r.Ok? ==>
              var c := r.value.1;
              && r.value.0 == customers + [c]
              && c.owner == owner && !c.deleted
              && c.name == input.name.value && c.phone == input.phone.value
              && c.whatsapp == TextOr(input.whatsapp, "") && c.address == TextOr(input.address, "")
              && forall k :: 0 <= k < |customers| ==> customers[k].id != c.id
  {
    if !Truthy(input.name) || !Truthy(input.phone) then
      Err(InvalidInput("Customer name and phone number are required"))
    else if PhoneHolder(customers, owner, input.phone.value).Some? then
      Err(Conflict("A customer with this phone number already exists."))
    else
      var ids := CustomerIds(customers);
      var c := Customer(FreshId(ids), owner, input.name.value, input.phone.value,
                        TextOr(input.whatsapp, ""), TextOr(input.address, ""), false);
      assert forall k :: 0 <= k < |customers| ==> customers[k].id == ids[k];
      Ok((customers + [c], c))
  }

  /** No owner has two customers with the same phone number. */
  predicate PhonesUnique(customers: seq<Customer>) {
    forall i, j :: 0 <= i < j < |customers| && customers[i].owner == customers[j].owner
                   ==> customers[i].phone != customers[j].phone
  }

  /** Adding a customer keeps phone numbers unique per owner. */
  lemma AddCustomerKeepsPhonesUnique(customers: seq<Customer>, owner: Id, input: CustomerInput)
    requires PhonesUnique(customers)
    requires AddCustomer(customers, owner, input).Ok?
    ensures PhonesUnique(AddCustomer(customers, owner, input).value.0)
  {
    var r := AddCustomer(customers, owner, input).value;
    var s := r.0;
    forall i, j | 0 <= i < j < |s| && s[i].owner == s[j].owner
      ensures s[i].phone != s[j].phone
    {
      if j == |customers| {
        assert s[i] == customers[i];
        assert !(customers[i].owner == owner && customers[i].phone == input.phone.value);
      }
    }
  }

  // -------------------------------------------------------- getAllCustomers

  /** `Math.ceil(a / b)` for integers. */
  function CeilDiv(a: int, b: int): (q: int)
    requires b != 0
    ensures b > 0 ==> (q - 1) * b < a <= q * b
    ensures b < 0 ==> (q - 1) * -b < -a <= q * -b
  {
    if b > 0 then (a + b - 1) / b else (-a + -b - 1) / -b
  }

  /** The arithmetic of the page request: `parseInt(page) || 1`,
      `parseInt(limit) || 5` and `skip = (page - 1) * limit`. */
  function PageOf(page: Option<int>): int { OrDefault(page, 1) }
  function LimitOf(limit: Option<int>): (l: int)
    ensures l != 0
  {
    OrDefault(limit, 5)
  }
  function Skip(page: Option<int>, limit: Option<int>): int { (PageOf(page) - 1) * LimitOf(limit) }

  /** The number of documents a cursor limit lets through: a negative limit
      asks for its absolute value in a single batch. */
  function CursorLimit(limit: int): nat { if limit < 0 then -limit else limit }

  datatype Pagination = Pagination(currentPage: int, totalPages: int, totalCount: nat, hasMore: bool)

  function Paginate(page: int, limit: int, totalCount: nat): (p: Pagination)
    requires limit != 0
    ensures p.currentPage == page && p.totalCount == totalCount
    ensures p.hasMore <==> page < p.totalPages
  {
    var pages := CeilDiv(totalCount, limit);
    Pagination(page, pages, totalCount, page < pages)
  }

  lemma MulMono(x: int, y: int, c: int)
    requires x <= y && c > 0
    ensures x * c <= y * c
  {
    assert y * c - x * c == (y - x) * c;
  }

  /** With a positive limit, more pages remain exactly when this page ends
      before the count does. */
  lemma PaginateHasMore(page: int, limit: int, totalCount: nat)
    requires limit > 0
    ensures Paginate(page, limit, totalCount).hasMore <==> page * limit < totalCount
  {
    var q := CeilDiv(totalCount, limit);
    if page < q {
      MulMono(page, q - 1, limit);
    } else {
      MulMono(q, page, limit);
    }
  }

  /** Where the page after this one starts: `page * limit`. */
  function NextSkip(page: Option<int>, limit: Option<int>): (s: nat)
    requires LimitOf(limit) > 0 && PageOf(page) >= 1
    ensures s == PageOf(page) * LimitOf(limit)
  {
    MulMono(0, PageOf(page), LimitOf(limit));
    PageOf(page) * LimitOf(limit)
  }

  /** A customer of the list with the sum of the dues on their bills. */
  datatype CustomerDue = CustomerDue(customer: Customer, totalDue: int)

  predicate Live(c: Customer, owner: Id) { c.owner == owner && !c.deleted }

  function LiveCustomers(customers: seq<Customer>, owner: Id): (r: seq<Customer>)
    ensures forall k :: 0 <= k < |r| ==> r[k] in customers && Live(r[k], owner)
    ensures forall k :: 0 <= k < |customers| && Live(customers[k], owner) ==> customers[k] in r
  {
    Filter(customers, (c: Customer) => Live(c, owner))
  }

  /** `.skip(skip).limit(limit)` on the live customers, in store order. */
  function PageSlice(live: seq<Customer>, skip: nat, limit: nat): (r: seq<Customer>)
    ensures |r| == Min(limit, Max0(|live| - skip))
    ensures forall k :: 0 <= k < |r| ==> r[k] == live[skip + k]
  {
    if skip >= |live| then []
    else if skip + limit >= |live| then live[skip..]
    else live[skip..skip + limit]
  }

  /** The customer's bills of this owner, deleted or not. */
  predicate BillOf(b: Bill, owner: Id, customerId: Id) { b.customer == customerId && b.owner == owner }

  function DueOf(bills: seq<Bill>, owner: Id, c: Customer): int {
    SumOf(Filter(bills, (b: Bill) => BillOf(b, owner, c.id)), BillDue)
  }

  function HighestDueFirst(): (CustomerDue, CustomerDue) -> bool {
    (x: CustomerDue, y: CustomerDue) => x.totalDue >= y.totalDue
  }

  lemma HighestDueFirstIsTotal()
    ensures TotalPreorder(HighestDueFirst())
  {
  }

  datatype CustomerList = CustomerList(customers: seq<CustomerDue>, pagination: Pagination)

  /** The number of customers the list reports: every customer of the
      owner, deleted ones included. */
  function CountAll(customers: seq<Customer>, owner: Id): nat {
    Count(customers, (c: Customer) => c.owner == owner)
  }

  /** `getAllCustomers`, with the total count supplied: a negative skip is
      refused by the database and reported as a failure; otherwise the
      page of live customers, each with its due, highest due first. */
  function ListWithCount(customers: seq<Customer>, bills: seq<Bill>, owner: Id,
                         page: Option<int>, limit: Option<int>, totalCount: nat)
    : (r: Result<CustomerList>)
    ensures r.Err? <==> Skip(page, limit) < 0
    ensures r.Err? ==> r.error == Internal("Failed to get customers")
    ensures r.Ok? ==>
              var slice := PageSlice(LiveCustomers(customers, owner), Skip(page, limit), CursorLimit(LimitOf(limit)));
              && multiset(r.value.customers)
                 == multiset(Map(slice, (c: Customer) => CustomerDue(c, DueOf(bills, owner, c))))
              && SortedBy(r.value.customers, HighestDueFirst())
              && r.value.pagination == Paginate(PageOf(page), LimitOf(limit), totalCount)
  {
    var skip := Skip(page, limit);
    if skip < 0 then Err(Internal("Failed to get customers"))
    else
      var slice := PageSlice(LiveCustomers(customers, owner), skip, CursorLimit(LimitOf(limit)));
      var withDue := Map(slice, (c: Customer) => CustomerDue(c, DueOf(bills, owner, c)));
      HighestDueFirstIsTotal();
      Ok(CustomerList(SortBy(withDue, HighestDueFirst()),
                      Paginate(PageOf(page), LimitOf(limit), totalCount)))
  }

  /** `getAllCustomers` as written: the count includes deleted customers. */
  function GetAllCustomers(customers: seq<Customer>, bills: seq<Bill>, owner: Id,
                           page: Option<int>, limit: Option<int>): (r: Result<CustomerList>)
    ensures r == ListWithCount(customers, bills, owner, page, limit, CountAll(customers, owner))
    ensures r.Ok? ==> r.value.pagination.totalCount == CountAll(customers, owner)
  {
    ListWithCount(customers, bills, owner, page, limit, CountAll(customers, owner))
  }

  /** Every customer listed is a live customer of the owner, shown with the
      sum of the dues of their bills. */
  lemma ListedCustomersAreLive(customers: seq<Customer>, bills: seq<Bill>, owner: Id,
                               page: Option<int>, limit: Option<int>, k: nat)
    requires GetAllCustomers(customers, bills, owner, page, limit).Ok?
    requires k < |GetAllCustomers(customers, bills, owner, page, limit).value.customers|
    ensures var e := GetAllCustomers(customers, bills, owner, page, limit).value.customers[k];
            && e.customer in customers && Live(e.customer, owner)
            && e.totalDue == DueOf(bills, owner, e.customer)
  {
    var r := GetAllCustomers(customers, bills, owner, page, limit).value;
    var slice := PageSlice(LiveCustomers(customers, owner), Skip(page, limit), CursorLimit(LimitOf(limit)));
    var withDue := Map(slice, (c: Customer) => CustomerDue(c, DueOf(bills, owner, c)));
    assert r.customers[k] in multiset(withDue);
    var j :| 0 <= j < |withDue| && withDue[j] == r.customers[k];
    assert slice[j] in LiveCustomers(customers, owner);
  }

  /** The count of the as-written list includes deleted customers, so it
      can promise another page that comes back empty: one live and one
      deleted customer, one to a page. */
  lemma DeletedCustomersInflateCount()
    ensures var cs := [Customer(1, 7, "A", "1", "", "", false), Customer(2, 7, "B", "2", "", "", true)];
            var r := GetAllCustomers(cs, [], 7, Some(1), Some(1));
            && r.Ok? && r.value.pagination.hasMore
            && |PageSlice(LiveCustomers(cs, 7), 1, 1)| == 0
  {
    var cs := [Customer(1, 7, "A", "1", "", "", false), Customer(2, 7, "B", "2", "", "", true)];
    assert cs[1..][1..] == [];
    assert CountAll(cs, 7) == 2;
    assert LiveCustomers(cs, 7) == [cs[0]];
    assert Skip(Some(1), Some(1)) == 0;
    assert Paginate(1, 1, 2).totalPages == 2;
  }

  /** The evidently intended list: the count covers the customers the
      pages are drawn from. */
  function GetAllLiveCustomers(customers: seq<Customer>, bills: seq<Bill>, owner: Id,
                               page: Option<int>, limit: Option<int>): (r: Result<CustomerList>)
    ensures r == ListWithCount(customers, bills, owner, page, limit, |LiveCustomers(customers, owner)|)
  {
    ListWithCount(customers, bills, owner, page, limit, |LiveCustomers(customers, owner)|)
  }

  /** With the live count, another page is promised exactly when the next
      page of live customers is not empty. */
  lemma LiveCountPromisesNextPage(customers: seq<Customer>, bills: seq<Bill>, owner: Id,
                                  page: Option<int>, limit: Option<int>)
    requires LimitOf(limit) > 0 && PageOf(page) >= 1
    ensures var r := GetAllLiveCustomers(customers, bills, owner, page, limit);
            var live := LiveCustomers(customers, owner);
            r.Ok? && (r.value.pagination.hasMore
                      <==> |PageSlice(live, NextSkip(page, limit), LimitOf(limit))| > 0)
  {
    PaginateHasMore(PageOf(page), LimitOf(limit), |LiveCustomers(customers, owner)|);
    MulMono(0, PageOf(page) - 1, LimitOf(limit));
  }

  // ------------------------------------------------------------ getCustomer

  /** The summary query: the customer's live bills of this owner. */
  predicate SummaryBill(b: Bill, owner: Id, customerId: Id) {
    b.customer == customerId && b.owner == owner && !b.deleted
  }

  function NewestFirst(): (Bill, Bill) -> bool {
    (x: Bill, y: Bill) => x.createdAt >= y.createdAt
  }

  lemma NewestFirstIsTotal()
    ensures TotalPreorder(NewestFirst())
  {
  }

  datatype Summary = Summary(totalBills: nat, totalBilled: int, totalReceived: int, totalDue: int)

  function Summarize(bills: seq<Bill>): Summary {
    Summary(|bills|, SumOf(bills, BillTotal), SumOf(bills, BillReceived), SumOf(bills, BillDue))
  }

  /** `getCustomer`: the live customer, their live bills newest first, and
      the totals over those bills. */
  function GetCustomer(customers: seq<Customer>, bills: seq<Bill>, owner: Id, id: Id)
    : (r: Result<(Customer, seq<Bill>, Summary)>)
    ensures r.Err? <==> FindLiveCustomer(customers, owner, id).None?
    ensures r.Err? ==> r.error == NotFound("Customer")
    ensures r.Ok? ==>
              && r.value.0 == customers[FindLiveCustomer(customers, owner, id).value]
              && multiset(r.value.1) == multiset(Filter(bills, (b: Bill) => SummaryBill(b, owner, id)))
              && SortedBy(r.value.1, NewestFirst())
              && r.value.2 == Summarize(r.value.1)
  {
    match FindLiveCustomer(customers, owner, id)
    case None => Err(NotFound("Customer"))
    case Some(k) =>
      NewestFirstIsTotal();
      var own := SortBy(Filter(bills, (b: Bill) => SummaryBill(b, owner, id)), NewestFirst());
      Ok((customers[k], own, Summarize(own)))
  }

  /** The summary does not depend on the order the bills are listed in: it
      counts and sums the customer's live bills as they stand in the store. */
  lemma GetCustomerSummary(customers: seq<Customer>, bills: seq<Bill>, owner: Id, id: Id)
    requires GetCustomer(customers, bills, owner, id).Ok?
    ensures var own := Filter(bills, (b: Bill) => SummaryBill(b, owner, id));
            GetCustomer(customers, bills, owner, id).value.2 == Summarize(own)
  {
    var own := Filter(bills, (b: Bill) => SummaryBill(b, owner, id));
    var listed := GetCustomer(customers, bills, owner, id).value.1;
    assert |listed| == |multiset(listed)| == |multiset(own)| == |own|;
    SumOfPermutation(listed, own, BillTotal);
    SumOfPermutation(listed, own, BillReceived);
    SumOfPermutation(listed, own, BillDue);
  }

  // --------------------------------------------------------- deleteCustomer

  /** `Bill.countDocuments({ customer: id, deleted: false })`, over every owner. */
  function LiveBillCount(bills: seq<Bill>, id: Id): (n: nat)
    ensures n == 0 <==> forall k :: 0 <= k < |bills| ==> !(bills[k].customer == id && !bills[k].deleted)
  {
    Count(bills, (b: Bill) => b.customer == id && !b.deleted)
  }

  /** `deleteCustomer`: refused while live bills name the customer, then a
      soft delete of the owner's live customer. */
  function DeleteCustomer(customers: seq<Customer>, bills: seq<Bill>, owner: Id, id: Id)
    : (r: Result<seq<Customer>>)
    ensures LiveBillCount(bills, id) > 0 ==> r == Err(CannotDelete(LiveBillCount(bills, id)))
    ensures LiveBillCount(bills, id) == 0 && FindLiveCustomer(customers, owner, id).None? ==>
              r == Err(NotFound("Customer"))
    ensures r.Ok? <==> LiveBillCount(bills, id) == 0 && FindLiveCustomer(customers, owner, id).Some?
    ensures r.Ok? ==>
              var k := FindLiveCustomer(customers, owner, id).value;
              && LiveBillCount(bills, id) == 0
              && r.value == customers[k := customers[k].(deleted := true)]
  {
    var n := LiveBillCount(bills, id);
    if n > 0 then Err(CannotDelete(n))
    else match FindLiveCustomer(customers, owner, id)
      case None => Err(NotFound("Customer"))
      case Some(k) => Ok(customers[k := customers[k].(deleted := true)])
  }

  predicate IdsUnique(customers: seq<Customer>) {
    forall i, j :: 0 <= i < j < |customers| ==> customers[i].id != customers[j].id
  }

  /** A deleted customer is gone from every live lookup and every list,
      and nothing else in the book changes. */
  lemma DeleteCustomerHides(customers: seq<Customer>, bills: seq<Bill>, owner: Id, id: Id)
    requires IdsUnique(customers)
    requires DeleteCustomer(customers, bills, owner, id).Ok?
    ensures var r := DeleteCustomer(customers, bills, owner, id).value;
            && FindLiveCustomer(r, owner, id).None?
            && |r| == |customers|
            && forall k :: 0 <= k < |r| && customers[k].id != id ==> r[k] == customers[k]
  {
    var r := DeleteCustomer(customers, bills, owner, id).value;
    var k := FindLiveCustomer(customers, owner, id).value;
    forall j | 0 <= j < |r| ensures !(r[j].id == id && r[j].owner == owner && !r[j].deleted) {
      if j != k {
        assert customers[j].id != customers[k].id;
      }
    }
  }
}
