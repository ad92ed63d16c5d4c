/** `createBill` (controllers/billController.js): pricing a cart line by
    line against services and inventory, then totals, status, numbering,
    the serial annotations and the work-order completion. */
module Billing {
  import opened Common
  import opened Numbering
  import opened ItemModel
  import opened BillModel
  import opened Records

  // ------------------------------------------------------------- cart lines

  /** The `itemType` a cart line names; any other value is `CartOther`. */
  datatype CartKind = CartService | CartSerialized | CartGeneric | CartOther

  datatype CartLine = CartLine(kind: CartKind, itemId: Id, serialNumber: Option<string>, qty: Option<int>)

  /** `Item.findOne({ _id, createdBy, deleted: false })`, with no filter on the item type. */
  function FindLiveItem(items: seq<Item>, owner: Id, id: Id): (r: Option<nat>)
    ensures r.Some? ==> r.value < |items| && items[r.value].id == id
                        && items[r.value].owner == owner && !items[r.value].deleted
    ensures r.None? <==> forall k :: 0 <= k < |items| ==>
              !(items[k].id == id && items[k].owner == owner && !items[k].deleted)
  {
    FindIndex(items, (it: Item) => it.id == id && it.owner == owner && !it.deleted)
  }

  /** An entry the line may sell: the requested serial, still available.
      A line without a serial number matches nothing. */
  predicate Sellable(e: SerialEntry, serialNo: Option<string>) {
    serialNo.Some? && e.serialNo == serialNo.value && e.status == Available
  }

  function FindSellable(serials: seq<SerialEntry>, serialNo: Option<string>): (r: Option<nat>)
    ensures r.Some? ==> r.value < |serials| && Sellable(serials[r.value], serialNo)
    ensures r.None? <==> forall a :: 0 <= a < |serials| ==> !Sellable(serials[a], serialNo)
  {
    FindIndex(serials, (e: SerialEntry) => Sellable(e, serialNo))
  }

  /** A service line: the service's price times `qty || 1`, no purchase cost. */
  function PriceService(services: seq<Service>, owner: Id, line: CartLine): (r: Result<BillLine>)
    ensures r.Err? <==> FindLiveService(services, owner, line.itemId).None?
    ensures r.Err? ==> r.error == NotFound("Service")
    ensures r.Ok? ==>
              var s := services[FindLiveService(services, owner, line.itemId).value];
              && r.value.itemType == ServiceLine && r.value.itemId == line.itemId
              && r.value.qty == OrDefault(line.qty, 1) && r.value.price == s.price
              && r.value.amount == s.price * OrDefault(line.qty, 1)
              && r.value.purchasePrice == 0
  {
    match FindLiveService(services, owner, line.itemId)
    case None => Err(NotFound("Service"))
    case Some(k) =>
      var s := services[k];
      var qty := OrDefault(line.qty, 1);
      Ok(BillLine(ServiceLine, s.id, s.name, None, qty, s.price, 0, s.price * qty))
  }

  /** A serialized line: the first available entry with the requested
      serial is marked sold; the line is one unit at the sale price, with
      the item's purchase price captured. */
  function SellSerial(items: seq<Item>, owner: Id, line: CartLine): (r: Result<(seq<Item>, BillLine)>)
    ensures FindLiveItem(items, owner, line.itemId).None? ==> r == Err(NotFound("Item"))
    ensures r.Ok? ==> |r.value.0| == |items|
  {
    match FindLiveItem(items, owner, line.itemId)
    case None => Err(NotFound("Item"))
    case Some(k) =>
      var item := items[k];
      match FindSellable(item.serialNumbers, line.serialNumber)
      case None => Err(SerialNotAvailable(line.serialNumber))
      case Some(a) =>
        var sold := item.serialNumbers[a].(status := Sold);
        var item' := item.(serialNumbers := item.serialNumbers[a := sold]);
        Ok((ReplaceAt(items, k, item'),
            BillLine(SerializedLine, item.id, item.name, line.serialNumber, 1,
                     item.salePrice, item.purchasePrice, item.salePrice)))
  }

  /** A generic line: `qty || 1` units, refused when the stock is short,
      otherwise taken off the stock. */
  function SellGeneric(items: seq<Item>, owner: Id, line: CartLine): (r: Result<(seq<Item>, BillLine)>)
    ensures FindLiveItem(items, owner, line.itemId).None? ==> r == Err(NotFound("Item"))
    ensures r.Ok? ==> |r.value.0| == |items|
  {
    match FindLiveItem(items, owner, line.itemId)
    case None => Err(NotFound("Item"))
    case Some(k) =>
      var item := items[k];
      var qty := OrDefault(line.qty, 1);
      if item.stockQty < qty then Err(InsufficientStock(item.name, item.stockQty))
      else
        Ok((ReplaceAt(items, k, item.(stockQty := item.stockQty - qty)),
            BillLine(GenericLine, item.id, item.name, None, qty,
                     item.salePrice, item.purchasePrice, item.salePrice * qty)))
  }

  /** One cart line: the items store after it and the priced line, if the
      line's type is one of the three the controller knows. */
  function PriceLine(services: seq<Service>, items: seq<Item>, owner: Id, line: CartLine)
    : (r: Result<(seq<Item>, Option<BillLine>)>)
    ensures r.Ok? ==> |r.value.0| == |items|
    ensures r.Ok? ==> (r.value.1.None? <==> line.kind == CartOther)
    ensures line.kind == CartOther ==> r == Ok((items, None))
    ensures line.kind == CartService ==> r.Ok? ==> r.value.0 == items
  {
    match line.kind
    case CartService =>
      (match PriceService(services, owner, line)
       case Err(e) => Err(e)
       case Ok(l) => Ok((items, Some(l))))
    case CartSerialized =>
      (match SellSerial(items, owner, line)
       case Err(e) => Err(e)
       case Ok((items', l)) => Ok((items', Some(l))))
    case CartGeneric =>
      (match SellGeneric(items, owner, line)
       case Err(e) => Err(e)
       case Ok((items', l)) => Ok((items', Some(l))))
    case CartOther => Ok((items, None))
  }

  /** The loop over the cart. It stops at the first failing line; the
      items saved by the lines before it stay saved, so the store is
      returned alongside the outcome. */
  function ProcessCart(services: seq<Service>, items: seq<Item>, owner: Id, cart: seq<CartLine>)
    : (r: (seq<Item>, Result<seq<BillLine>>))
    ensures r.1.Ok? ==> |r.1.value| <= |cart|
  {
    FoldSteps((it: seq<Item>, line: CartLine) => PriceLine(services, it, owner, line), items, cart)
  }

  /** One step of the loop, for the proofs below. */
  lemma ProcessCartCons(services: seq<Service>, items: seq<Item>, owner: Id, cart: seq<CartLine>)
    requires |cart| > 0
    ensures var step := PriceLine(services, items, owner, cart[0]);
            var r := ProcessCart(services, items, owner, cart);
            && (step.Err? ==> r == (items, Err(step.error)))
            && (step.Ok? ==>
                  var next := ProcessCart(services, step.value.0, owner, cart[1..]);
                  && r.0 == next.0
                  && (r.1.Ok? <==> next.1.Ok?)
                  && (next.1.Ok? ==> r.1.value == OptionSeq(step.value.1) + next.1.value)
                  && (next.1.Err? ==> r.1 == next.1))
  {
  }

  // ------------------------------------------------------------ line lemmas

  /** A generic line fails with the available quantity exactly when the
      stock is short; otherwise the stock drops by exactly the quantity
      and stays non-negative, and no other item changes. */
  lemma SellGenericStock(items: seq<Item>, owner: Id, line: CartLine)
    requires FindLiveItem(items, owner, line.itemId).Some?
    ensures var k := FindLiveItem(items, owner, line.itemId).value;
            var r := SellGeneric(items, owner, line);
            && (r.Err? <==> items[k].stockQty < OrDefault(line.qty, 1))
            && (r.Err? ==> r.error == InsufficientStock(items[k].name, items[k].stockQty))
            && (r.Ok? ==> && r.value.0[k].stockQty == items[k].stockQty - OrDefault(line.qty, 1)
                          && r.value.0[k].stockQty >= 0
                          && r.value.0[k].serialNumbers == items[k].serialNumbers
                          && r.value.1.amount == items[k].salePrice * r.value.1.qty
                          && r.value.1.qty == OrDefault(line.qty, 1)
                          && r.value.1.purchasePrice == items[k].purchasePrice
                          && forall j :: 0 <= j < |items| && j != k ==> r.value.0[j] == items[j])
  {
  }

  /** A serialized line succeeds exactly when the item has an available
      entry with the requested serial; otherwise it fails naming the serial. */
  lemma SellSerialIff(items: seq<Item>, owner: Id, line: CartLine)
    requires FindLiveItem(items, owner, line.itemId).Some?
    ensures var k := FindLiveItem(items, owner, line.itemId).value;
            var r := SellSerial(items, owner, line);
            && (r.Ok? <==> exists a :: 0 <= a < |items[k].serialNumbers|
                                       && Sellable(items[k].serialNumbers[a], line.serialNumber))
            && (r.Err? ==> r.error == SerialNotAvailable(line.serialNumber))
  {
  }

  /** On success the first matching entry becomes sold, the item's count of
      available serials drops by one, no other entry or item changes, and
      the line is one unit at the sale price with the purchase price kept. */
  lemma SellSerialMarksSold(items: seq<Item>, owner: Id, line: CartLine)
    requires SellSerial(items, owner, line).Ok?
    ensures var k := FindLiveItem(items, owner, line.itemId).value;
            var a := FindSellable(items[k].serialNumbers, line.serialNumber).value;
            var r := SellSerial(items, owner, line).value;
            && r.0[k].serialNumbers == items[k].serialNumbers[a := items[k].serialNumbers[a].(status := Sold)]
            && CountAvailable(r.0[k].serialNumbers) == CountAvailable(items[k].serialNumbers) - 1
            && r.0[k].stockQty == items[k].stockQty
            && r.1.qty == 1 && r.1.amount == items[k].salePrice
            && r.1.purchasePrice == items[k].purchasePrice
            && r.1.serialNumber == line.serialNumber
            && forall j :: 0 <= j < |items| && j != k ==> r.0[j] == items[j]
  {
    var k := FindLiveItem(items, owner, line.itemId).value;
    var a := FindSellable(items[k].serialNumbers, line.serialNumber).value;
    CountAvailableSell(items[k].serialNumbers, a, items[k].serialNumbers[a].(status := Sold));
  }

  /** Selling a serial never changes which serial numbers the store holds. */
  lemma SellSerialSameNumbers(items: seq<Item>, owner: Id, line: CartLine)
    requires SellSerial(items, owner, line).Ok?
    ensures SameSerialNumbers(items, SellSerial(items, owner, line).value.0)
  {
    var k := FindLiveItem(items, owner, line.itemId).value;
    var a := FindSellable(items[k].serialNumbers, line.serialNumber).value;
    var items' := SellSerial(items, owner, line).value.0;
    assert items'[k].serialNumbers == items[k].serialNumbers[a := items[k].serialNumbers[a].(status := Sold)];
  }

  /** Once the one entry carrying a serial is marked sold, no entry of the
      store can be sold under that serial. */
  lemma NothingSellableAfterSale(items: seq<Item>, items': seq<Item>, k: nat, a: nat, serialNo: Option<string>)
    requires SerialsUnique(items) && SameSerialNumbers(items, items')
    requires k < |items| && a < |items[k].serialNumbers|
    requires serialNo == Some(items[k].serialNumbers[a].serialNo)
    requires items'[k].serialNumbers[a].status == Sold
    ensures forall j, b :: 0 <= j < |items'| && 0 <= b < |items'[j].serialNumbers|
              ==> !Sellable(items'[j].serialNumbers[b], serialNo)
  {
    forall j, b | 0 <= j < |items'| && 0 <= b < |items'[j].serialNumbers|
      ensures !Sellable(items'[j].serialNumbers[b], serialNo)
    {
      if j != k || b != a {
        assert items'[j].serialNumbers[b].serialNo == items[j].serialNumbers[b].serialNo;
        UniqueAt(items, j, b, k, a);
      }
    }
  }

  /** Under serial uniqueness, a serial once sold cannot be sold again,
      by any line naming any item. */
  lemma SoldSerialCannotBeResold(items: seq<Item>, owner: Id, line: CartLine, owner': Id, line': CartLine)
    requires SerialsUnique(items)
    requires SellSerial(items, owner, line).Ok?
    requires line'.serialNumber == line.serialNumber
    ensures SellSerial(SellSerial(items, owner, line).value.0, owner', line').Err?
  {
    var k := FindLiveItem(items, owner, line.itemId).value;
    var a := FindSellable(items[k].serialNumbers, line.serialNumber).value;
    var items' := SellSerial(items, owner, line).value.0;
    SellSerialMarksSold(items, owner, line);
    SellSerialSameNumbers(items, owner, line);
    NothingSellableAfterSale(items, items', k, a, line.serialNumber);
    match FindLiveItem(items', owner', line'.itemId)
    case None =>
    case Some(j) =>
      assert forall b :: 0 <= b < |items'[j].serialNumbers| ==> !Sellable(items'[j].serialNumbers[b], line'.serialNumber);
      assert FindSellable(items'[j].serialNumbers, line'.serialNumber).None?;
  }

  // ------------------------------------------------------------ cart lemmas

  /** The cart's effect on the store, line by line: processing `a + b`
      processes `a` and then `b` from wherever `a` left the items. */
  lemma ProcessCartAppend(services: seq<Service>, items: seq<Item>, owner: Id,
                          a: seq<CartLine>, b: seq<CartLine>)
    requires ProcessCart(services, items, owner, a).1.Ok?
    ensures var ra := ProcessCart(services, items, owner, a);
            var rb := ProcessCart(services, ra.0, owner, b);
            var r := ProcessCart(services, items, owner, a + b);
            && r.0 == rb.0
            && (r.1.Ok? <==> rb.1.Ok?)
            && (rb.1.Ok? ==> r.1.value == ra.1.value + rb.1.value)
            && (rb.1.Err? ==> r.1 == rb.1)
  {
    FoldStepsAppend((it: seq<Item>, line: CartLine) => PriceLine(services, it, owner, line), items, a, b);
  }

  /** Fail-fast without rollback: when the cart fails, it failed at some
      line `j`; the lines before `j` all priced, the store returned is the
      one they left behind, and line `j` fails against that store with
      the error returned. */
  lemma ProcessCartFailFast(services: seq<Service>, items: seq<Item>, owner: Id, cart: seq<CartLine>)
    requires ProcessCart(services, items, owner, cart).1.Err?
    ensures exists j :: 0 <= j < |cart|
              && ProcessCart(services, items, owner, cart[..j]).1.Ok?
              && ProcessCart(services, items, owner, cart[..j]).0 == ProcessCart(services, items, owner, cart).0
              && PriceLine(services, ProcessCart(services, items, owner, cart).0, owner, cart[j]).Err?
              && ProcessCart(services, items, owner, cart).1.error
                 == PriceLine(services, ProcessCart(services, items, owner, cart).0, owner, cart[j]).error
  {
    var step := (it: seq<Item>, line: CartLine) => PriceLine(services, it, owner, line);
    FoldStepsFailFast(step, items, cart);
    var j :| FoldFailsAt(step, items, cart, j);
    assert step(ProcessCart(services, items, owner, cart).0, cart[j])
        == PriceLine(services, ProcessCart(services, items, owner, cart).0, owner, cart[j]);
  }

  /** Every priced line corresponds to a cart line of a known type, in
      order: a cart of `n` known lines yields `n` bill lines. */
  lemma {:induction false} ProcessCartLineCount(services: seq<Service>, items: seq<Item>, owner: Id,
                                                cart: seq<CartLine>)
    requires ProcessCart(services, items, owner, cart).1.Ok?
    ensures |ProcessCart(services, items, owner, cart).1.value|
            == Count(cart, (c: CartLine) => c.kind != CartOther)
    decreases |cart|
  {
    if |cart| > 0 {
      var items' := PriceLine(services, items, owner, cart[0]).value.0;
      ProcessCartCons(services, items, owner, cart);
      ProcessCartLineCount(services, items', owner, cart[1..]);
    }
  }

  /** Pricing a cart keeps serial uniqueness. */
  lemma {:induction false} ProcessCartKeepsSerialsUnique(services: seq<Service>, items: seq<Item>, owner: Id,
                                                         cart: seq<CartLine>)
    requires SerialsUnique(items)
    ensures SerialsUnique(ProcessCart(services, items, owner, cart).0)
    decreases |cart|
  {
    if |cart| > 0 {
      var step := PriceLine(services, items, owner, cart[0]);
      if step.Ok? {
        var items' := step.value.0;
        PriceLineSameNumbers(services, items, owner, cart[0]);
        SameSerialNumbersKeepUnique(items, items');
        ProcessCartKeepsSerialsUnique(services, items', owner, cart[1..]);
        ProcessCartCons(services, items, owner, cart);
      }
    }
  }

  lemma PriceLineSameNumbers(services: seq<Service>, items: seq<Item>, owner: Id, line: CartLine)
    requires PriceLine(services, items, owner, line).Ok?
    ensures SameSerialNumbers(items, PriceLine(services, items, owner, line).value.0)
  {
    var items' := PriceLine(services, items, owner, line).value.0;
    match line.kind
    case CartSerialized => SellSerialSameNumbers(items, owner, line);
    case CartGeneric =>
      var k := FindLiveItem(items, owner, line.itemId).value;
      assert items'[k].serialNumbers == items[k].serialNumbers;
    case _ =>
  }

  /** No stock is overdrawn: if every item's stock is non-negative before
      the cart, it still is afterwards, whether the cart succeeds or fails. */
  lemma {:induction false} ProcessCartKeepsStockNonNegative(services: seq<Service>, items: seq<Item>,
                                                            owner: Id, cart: seq<CartLine>)
    requires forall j :: 0 <= j < |items| ==> items[j].stockQty >= 0
    ensures var items' := ProcessCart(services, items, owner, cart).0;
            forall j :: 0 <= j < |items'| ==> items'[j].stockQty >= 0
    decreases |cart|
  {
    if |cart| > 0 {
      var step := PriceLine(services, items, owner, cart[0]);
      if step.Ok? {
        var items' := step.value.0;
        var line := cart[0];
        if line.kind == CartGeneric {
          SellGenericStock(items, owner, line);
        } else if line.kind == CartSerialized {
          SellSerialMarksSold(items, owner, line);
        }
        assert forall j :: 0 <= j < |items'| ==> items'[j].stockQty >= 0;
        ProcessCartKeepsStockNonNegative(services, items', owner, cart[1..]);
        ProcessCartCons(services, items, owner, cart);
      }
    }
  }

  // ---------------------------------------------------------------- the bill

  datatype BillRequest = BillRequest(
    customerId: Id,
    cart: Option<seq<CartLine>>,
    discount: Option<int>,
    receivedPayment: Option<int>,
    paymentMethod: Option<string>,
    workOrderId: Option<Id>)

  /** The stored payment method: `paymentMethod || 'cash'`, checked against
      the schema's enum `['cash', 'upi']`. Any other string fails validation
      when the bill is created. */
  function SchemaMethod(m: Option<string>): (r: Option<PaymentMethod>)
    ensures r == Some(Cash) <==> m.None? || m.value == "" || m.value == "cash"
    ensures r == Some(Upi) <==> m == Some("upi")
    ensures r.None? <==> m.Some? && m.value !in {"", "cash", "upi"}
  {
    if m.None? || m.value == "" || m.value == "cash" then Some(Cash)
    else if m.value == "upi" then Some(Upi)
    else None
  }

  /** The collections `createBill` reads and writes. */
  datatype Store = Store(
    customers: seq<Customer>,
    services: seq<Service>,
    items: seq<Item>,
    bills: seq<Bill>,
    workOrders: seq<WorkOrder>)

  function BillIds(bills: seq<Bill>): seq<Id> {
    Map(bills, (b: Bill) => b.id)
  }

  /** `Bill.countDocuments({ createdBy })`: every bill of the owner, deleted or not. */
  function OwnerBillCount(bills: seq<Bill>, owner: Id): nat {
    Count(bills, (b: Bill) => b.owner == owner)
  }

  /** The new bill: the subtotal is the sum of the line amounts, the total
      is the subtotal less `discount || 0`, the due is whatever of the total
      the amount received leaves (not clamped), and the history records the
      received amount when there is one. */
  function NewBill(id: Id, owner: Id, customer: Id, number: string, lines: seq<BillLine>,
                   discount: Option<int>, received: Option<int>, payMethod: Option<PaymentMethod>,
                   workOrderId: Option<Id>, now: int): (b: Bill)
    ensures b.items == lines && b.subtotal == SumOf(lines, LineAmount)
    ensures b.totalAmount == SumOf(lines, LineAmount) - OrDefault(discount, 0)
    ensures b.receivedPayment == OrDefault(received, 0)
    ensures b.receivedPayment + b.dueAmount == b.totalAmount
    ensures b.status == Paid <==> b.receivedPayment >= b.totalAmount
    ensures b.status == Partial <==> 0 < b.receivedPayment < b.totalAmount
    ensures |b.paymentHistory| == (if b.receivedPayment > 0 then 1 else 0)
    ensures forall p :: p in b.paymentHistory ==> p == Payment(b.receivedPayment, now, "")
    ensures b.paymentMethod == payMethod.GetOr(Cash)
    ensures b.id == id && b.owner == owner && b.customer == customer && b.billNumber == number
    ensures b.workOrderId == workOrderId && b.createdAt == now && !b.deleted
  {
    var subtotal := SumOf(lines, LineAmount);
    var disc := OrDefault(discount, 0);
    var total := subtotal - disc;
    var recv := OrDefault(received, 0);
    Bill(id, owner, customer, number, lines, subtotal, disc, total, recv, total - recv,
         payMethod.GetOr(Cash),
         if recv > 0 then [Payment(recv, now, "")] else [],
         StatusFor(recv, total), workOrderId, now, false)
  }

  /** A new bill is consistent (its due is what is owed, never negative)
      exactly when the amount received does not exceed the total. */
  lemma NewBillConsistentIff(id: Id, owner: Id, customer: Id, number: string, lines: seq<BillLine>,
                             discount: Option<int>, received: Option<int>, payMethod: Option<PaymentMethod>,
                             workOrderId: Option<Id>, now: int)
    ensures var b := NewBill(id, owner, customer, number, lines, discount, received, payMethod, workOrderId, now);
            Consistent(b) <==> b.receivedPayment <= b.totalAmount
  {
  }

  /** `Item.findOneAndUpdate({ _id, 'serialNumbers.serialNo' }, { $set: ... })`:
      the matching entry of the item with that id, of any owner, gets the
      customer's name and the bill number. */
  function AnnotateSerial(items: seq<Item>, itemId: Id, serialNo: string, customerName: string,
                          billNumber: string): (r: seq<Item>)
    ensures |r| == |items|
  {
    match FindIndex(items, (it: Item) => it.id == itemId && EntriesHold(it.serialNumbers, serialNo))
    case None => items
    case Some(k) =>
      match FindIndex(items[k].serialNumbers, (e: SerialEntry) => e.serialNo == serialNo)
      case None => items
      case Some(a) =>
        ReplaceAt(items, k, Annotated(items[k], a, customerName, billNumber))
  }

  function Annotated(item: Item, a: nat, customerName: string, billNumber: string): (r: Item)
    requires a < |item.serialNumbers|
  {
    var e := item.serialNumbers[a];
    item.(serialNumbers := item.serialNumbers[a := e.(customerName := Some(customerName),
                                                      billNumber := Some(billNumber))])
  }

  /** Annotating an entry changes no serial number, status or stock. */
  lemma AnnotatedSameStock(items: seq<Item>, k: nat, a: nat, customerName: string, billNumber: string)
    requires k < |items| && a < |items[k].serialNumbers|
    ensures SameStock(items, ReplaceAt(items, k, Annotated(items[k], a, customerName, billNumber)))
  {
    var e := items[k].serialNumbers[a];
    var it := Annotated(items[k], a, customerName, billNumber);
    CountAvailableSameStatus(items[k].serialNumbers, a,
                             e.(customerName := Some(customerName), billNumber := Some(billNumber)));
    ReplaceSameStock(items, k, it);
  }

  lemma AnnotateSerialSameStock(items: seq<Item>, itemId: Id, serialNo: string, customerName: string,
                                billNumber: string)
    ensures SameStock(items, AnnotateSerial(items, itemId, serialNo, customerName, billNumber))
  {
    match FindIndex(items, (it: Item) => it.id == itemId && EntriesHold(it.serialNumbers, serialNo))
    case None =>
    case Some(k) =>
      match FindIndex(items[k].serialNumbers, (e: SerialEntry) => e.serialNo == serialNo)
      case None =>
      case Some(a) => AnnotatedSameStock(items, k, a, customerName, billNumber);
  }

  /** Once an item with that id holds the serial, its first entry with that
      serial records the customer and the bill. */
  lemma AnnotateSerialRecordsSale(items: seq<Item>, k: nat, a: nat, serialNo: string,
                                  customerName: string, billNumber: string)
    requires SerialsUnique(items)
    requires k < |items| && a < |items[k].serialNumbers|
    requires items[k].serialNumbers[a].serialNo == serialNo
    ensures var r := AnnotateSerial(items, items[k].id, serialNo, customerName, billNumber);
            && r[k].serialNumbers[a].customerName == Some(customerName)
            && r[k].serialNumbers[a].billNumber == Some(billNumber)
            && r[k].serialNumbers[a].status == items[k].serialNumbers[a].status
  {
    var p := (it: Item) => it.id == items[k].id && EntriesHold(it.serialNumbers, serialNo);
    EntriesHoldAt(items[k].serialNumbers, serialNo);
    var k' := FindIndex(items, p).value;
    EntriesHoldAt(items[k'].serialNumbers, serialNo);
    var a' :| 0 <= a' < |items[k'].serialNumbers| && items[k'].serialNumbers[a'].serialNo == serialNo;
    assert k' == k && a' == a;
    var q := (e: SerialEntry) => e.serialNo == serialNo;
    var b := FindIndex(items[k].serialNumbers, q).value;
    assert b == a;
  }

  /** The annotation loop over the bill's serialized lines. */
  function AnnotateSerials(items: seq<Item>, lines: seq<BillLine>, customerName: string,
                           billNumber: string): (r: seq<Item>)
    ensures |r| == |items|
    decreases |lines|
  {
    if |lines| == 0 then items
    else
      var l := lines[0];
      var items' := if l.itemType == SerializedLine && l.serialNumber.Some?
                    then AnnotateSerial(items, l.itemId, l.serialNumber.value, customerName, billNumber)
                    else items;
      AnnotateSerials(items', lines[1..], customerName, billNumber)
  }

  /** The annotations change no serial number, status or stock. */
  lemma {:induction false} AnnotateSerialsSameStock(items: seq<Item>, lines: seq<BillLine>,
                                                    customerName: string, billNumber: string)
    ensures SameStock(items, AnnotateSerials(items, lines, customerName, billNumber))
    decreases |lines|
  {
    if |lines| > 0 {
      var l := lines[0];
      var items' := if l.itemType == SerializedLine && l.serialNumber.Some?
                    then AnnotateSerial(items, l.itemId, l.serialNumber.value, customerName, billNumber)
                    else items;
      if l.itemType == SerializedLine && l.serialNumber.Some? {
        AnnotateSerialSameStock(items, l.itemId, l.serialNumber.value, customerName, billNumber);
      }
      AnnotateSerialsSameStock(items', lines[1..], customerName, billNumber);
      var r := AnnotateSerials(items', lines[1..], customerName, billNumber);
      assert AnnotateSerials(items, lines, customerName, billNumber) == r;
      SameStockTrans(items, items', r);
    }
  }

  /** `WorkOrder.findByIdAndUpdate(workOrderId, ...)`: the order, of any
      owner, is completed and linked to the bill; a missing id or a
      missing order changes nothing. */
  function CompleteWorkOrder(orders: seq<WorkOrder>, workOrderId: Option<Id>, billId: Id, now: int)
    : (r: seq<WorkOrder>)
    ensures |r| == |orders|
    ensures workOrderId.None? || FindWorkOrder(orders, workOrderId.value).None? ==> r == orders
    ensures workOrderId.Some? && FindWorkOrder(orders, workOrderId.value).Some? ==>
              var k := FindWorkOrder(orders, workOrderId.value).value;
              && r[k].status == WorkCompleted && r[k].billId == Some(billId)
              && r[k].completedAt == Some(now) && r[k].number == orders[k].number
              && forall j :: 0 <= j < |orders| && j != k ==> r[j] == orders[j]
  {
    if workOrderId.None? then orders
    else match FindWorkOrder(orders, workOrderId.value)
      case None => orders
      case Some(k) =>
        orders[k := orders[k].(billId := Some(billId), status := WorkCompleted, completedAt := Some(now))]
  }

  /** `createBill`. `now` is the clock in the stored timestamps and `date`
      the same instant as a calendar date for the bill number. */
  function CreateBill(st: Store, owner: Id, req: BillRequest, now: int, date: Date): (r: (Store, Result<Bill>))
    ensures FindLiveCustomer(st.customers, owner, req.customerId).None? ==> r == (st, Err(NotFound("Customer")))
    ensures && FindLiveCustomer(st.customers, owner, req.customerId).Some?
            && (req.cart.None? || |req.cart.value| == 0)
            ==> r == (st, Err(InvalidInput("At least one item is required")))
    ensures r.1.Err? ==> r.0 == st.(items := r.0.items)
    ensures r.1.Ok? ==> r.0.bills == st.bills + [r.1.value]
    ensures r.1.Ok? ==> r.1.value.billNumber == BillNumber(date, OwnerBillCount(st.bills, owner))
    ensures r.1.Ok? ==> r.1.value.owner == owner && r.1.value.customer == req.customerId
    ensures r.1.Ok? ==> forall j :: 0 <= j < |st.bills| ==> st.bills[j].id != r.1.value.id
    ensures r.0.customers == st.customers && r.0.services == st.services
    ensures r.1.Ok? <==> && FindLiveCustomer(st.customers, owner, req.customerId).Some?
                         && req.cart.Some? && |req.cart.value| > 0
                         && ProcessCart(st.services, st.items, owner, req.cart.value).1.Ok?
                         && SchemaMethod(req.paymentMethod).Some?
    ensures r.1.Ok? ==>
              var priced := ProcessCart(st.services, st.items, owner, req.cart.value);
              var c := FindLiveCustomer(st.customers, owner, req.customerId).value;
              && r.1.value == NewBill(r.1.value.id, owner, req.customerId, BillNumber(date, OwnerBillCount(st.bills, owner)),
                                      priced.1.value, req.discount, req.receivedPayment, SchemaMethod(req.paymentMethod),
                                      req.workOrderId, now)
              && r.0.items == AnnotateSerials(priced.0, priced.1.value, st.customers[c].name, r.1.value.billNumber)
              && r.0.workOrders == CompleteWorkOrder(st.workOrders, req.workOrderId, r.1.value.id, now)
  {
    match FindLiveCustomer(st.customers, owner, req.customerId)
    case None => (st, Err(NotFound("Customer")))
    case Some(c) =>
      if req.cart.None? || |req.cart.value| == 0 then (st, Err(InvalidInput("At least one item is required")))
      else
        var (items', priced) := ProcessCart(st.services, st.items, owner, req.cart.value);
        match priced
        case Err(e) => (st.(items := items'), Err(e))
        case Ok(lines) =>
          match SchemaMethod(req.paymentMethod)
          case None => (st.(items := items'), Err(Internal("Failed to create bill")))
          case Some(pm) =>
            var number := BillNumber(date, OwnerBillCount(st.bills, owner));
            var bill := NewBill(FreshId(BillIds(st.bills)), owner, req.customerId, number, lines,
                                req.discount, req.receivedPayment, Some(pm), req.workOrderId, now);
            var items'' := AnnotateSerials(items', lines, st.customers[c].name, number);
            var orders' := CompleteWorkOrder(st.workOrders, req.workOrderId, bill.id, now);
            (Store(st.customers, st.services, items'', st.bills + [bill], orders'), Ok(bill))
  }

  /** What a successful `createBill` records: the priced lines of the cart
      and the amounts computed from them. */
  lemma CreateBillPricesCart(st: Store, owner: Id, req: BillRequest, now: int, date: Date)
    requires CreateBill(st, owner, req, now, date).1.Ok?
    ensures req.cart.Some?
    ensures var b := CreateBill(st, owner, req, now, date).1.value;
            var priced := ProcessCart(st.services, st.items, owner, req.cart.value).1;
            && priced.Ok? && b.items == priced.value
            && b.totalAmount == SumOf(b.items, LineAmount) - OrDefault(req.discount, 0)
            && b.receivedPayment + b.dueAmount == b.totalAmount
            && b.status == StatusFor(b.receivedPayment, b.totalAmount)
            && b.receivedPayment == OrDefault(req.receivedPayment, 0)
            && |b.paymentHistory| == (if b.receivedPayment > 0 then 1 else 0)
            && Some(b.paymentMethod) == SchemaMethod(req.paymentMethod)
            && b.workOrderId == req.workOrderId
  {
  }

  /** A failed `createBill` creates no bill and completes no work order.
      When a line fails, the stock and serial saves of the lines priced
      before it stay; when every line is priced and the bill itself is
      refused (a payment method outside the enum), the saves of the whole
      cart stay. */
  lemma CreateBillFailureKeepsPrefix(st: Store, owner: Id, req: BillRequest, now: int, date: Date)
    requires CreateBill(st, owner, req, now, date).1.Err?
    requires req.cart.Some? && FindLiveCustomer(st.customers, owner, req.customerId).Some?
    ensures var r := CreateBill(st, owner, req, now, date);
            var full := ProcessCart(st.services, st.items, owner, req.cart.value);
            && r.0.bills == st.bills && r.0.workOrders == st.workOrders
            && (full.1.Err? ==>
                  exists j :: && 0 <= j < |req.cart.value|
                              && r.0.items == ProcessCart(st.services, st.items, owner, req.cart.value[..j]).0
                              && ProcessCart(st.services, st.items, owner, req.cart.value[..j]).1.Ok?)
            && (full.1.Ok? && |req.cart.value| > 0 ==>
                  && SchemaMethod(req.paymentMethod).None?
                  && r == (st.(items := full.0), Err(Internal("Failed to create bill"))))
  {
    var full := ProcessCart(st.services, st.items, owner, req.cart.value);
    if full.1.Err? {
      assert |req.cart.value| > 0;
      assert CreateBill(st, owner, req, now, date).0 == st.(items := full.0);
      ProcessCartFailFast(st.services, st.items, owner, req.cart.value);
    }
  }

  /** `createBill` keeps serial uniqueness, whether it succeeds or fails
      part-way. */
  lemma CreateBillKeepsSerialsUnique(st: Store, owner: Id, req: BillRequest, now: int, date: Date)
    requires SerialsUnique(st.items)
    ensures SerialsUnique(CreateBill(st, owner, req, now, date).0.items)
  {
    var r := CreateBill(st, owner, req, now, date);
    if FindLiveCustomer(st.customers, owner, req.customerId).Some? && req.cart.Some? && |req.cart.value| > 0 {
      var cart := req.cart.value;
      var processed := ProcessCart(st.services, st.items, owner, cart);
      ProcessCartKeepsSerialsUnique(st.services, st.items, owner, cart);
      if processed.1.Ok? && SchemaMethod(req.paymentMethod).Some? {
        var number := BillNumber(date, OwnerBillCount(st.bills, owner));
        var c := FindLiveCustomer(st.customers, owner, req.customerId).value;
        var items'' := AnnotateSerials(processed.0, processed.1.value, st.customers[c].name, number);
        assert r.0.items == items'';
        AnnotateSerialsSameStock(processed.0, processed.1.value, st.customers[c].name, number);
        SameSerialNumbersKeepUnique(processed.0, items'');
      }
    }
  }
}
