/** The inventory item document (models/Item.js): generic items counted by
    a quantity, serialized items tracked one serial number at a time. */
module ItemModel {
  import opened Common

  datatype ItemType = Generic | Serialized

  datatype SerialStatus = Available | Sold

  /** One unit of a serialized item. `customerName` and `billNumber` are
      written when the unit is billed. */
  datatype SerialEntry = SerialEntry(
    serialNo: string,
    status: SerialStatus,
    addedAt: int,
    customerName: Option<string>,
    billNumber: Option<string>)

  /** One stock addition of a generic item. */
  datatype StockEntry = StockEntry(qty: int, addedAt: int)

  datatype Item = Item(
    id: Id,
    owner: Id,
    itemType: ItemType,
    name: string,
    unit: string,
    warranty: string,
    mrp: int,
    purchasePrice: int,
    salePrice: int,
    stockQty: int,
    stockHistory: seq<StockEntry>,
    serialNumbers: seq<SerialEntry>,
    deleted: bool)

  const NoWarranty: string := "no_warranty"

  /** A serial entry as the schema creates it: status defaults to available. */
  function NewSerial(serialNo: string, addedAt: int): (e: SerialEntry)
    ensures e.serialNo == serialNo && e.status == Available
    ensures e.customerName.None? && e.billNumber.None?
  {
    SerialEntry(serialNo, Available, addedAt, None, None)
  }

  predicate IsAvailable(e: SerialEntry) { e.status == Available }

  /** How many entries are available. */
  function CountAvailable(serials: seq<SerialEntry>): (n: nat)
    ensures n <= |serials|
    ensures n == |Filter(serials, IsAvailable)|
  {
    Count(serials, IsAvailable)
  }

  /** The `availableStock` virtual: the number of available serials of a
      serialized item, the stock quantity of a generic one. */
  function AvailableStock(item: Item): (n: int)
    ensures item.itemType == Serialized ==> n == |Filter(item.serialNumbers, IsAvailable)|
    ensures item.itemType == Serialized ==> 0 <= n <= |item.serialNumbers|
    ensures item.itemType == Generic ==> n == item.stockQty
  {
    match item.itemType
    case Serialized => CountAvailable(item.serialNumbers)
    case Generic => item.stockQty
  }

  lemma {:induction false} CountAvailableAppend(a: seq<SerialEntry>, b: seq<SerialEntry>)
    ensures CountAvailable(a + b) == CountAvailable(a) + CountAvailable(b)
  {
    if |a| == 0 {
      assert a + b == b;
    } else {
      assert (a + b)[1..] == a[1..] + b;
      CountAvailableAppend(a[1..], b);
    }
  }

  /** Selling one available unit lowers the available count by exactly one. */
  lemma CountAvailableSell(s: seq<SerialEntry>, k: nat, e: SerialEntry)
    requires k < |s| && s[k].status == Available && e.status == Sold
    ensures CountAvailable(s[k := e]) == CountAvailable(s) - 1
  {
    CountUpdate(s, k, e, IsAvailable);
  }

  /** Rewriting entries without changing their status leaves the count alone. */
  lemma CountAvailableSameStatus(s: seq<SerialEntry>, k: nat, e: SerialEntry)
    requires k < |s| && s[k].status == e.status
    ensures CountAvailable(s[k := e]) == CountAvailable(s)
  {
    CountUpdate(s, k, e, IsAvailable);
  }

  /** No serial number occurs twice in the whole item collection, whoever
      owns the items. Across two items this is the unique index on
      `serialNumbers.serialNo`; a multikey index does not look inside one
      document, so within one item it is kept by the stock intake, which
      refuses repeats in a batch and serials already held anywhere. */
  ghost predicate SerialsUnique(items: seq<Item>) {
    forall i, a, j, b ::
      0 <= i < |items| && 0 <= j < |items|
      && 0 <= a < |items[i].serialNumbers| && 0 <= b < |items[j].serialNumbers|
      && (i != j || a != b)
      ==> items[i].serialNumbers[a].serialNo != items[j].serialNumbers[b].serialNo
  }

  /** The serial number occurs among the entries. */
  function EntriesHold(serials: seq<SerialEntry>, serialNo: string): bool {
    |serials| > 0 && (serials[0].serialNo == serialNo || EntriesHold(serials[1..], serialNo))
  }

  /** Some item, of any owner and in any status, holds the serial number. */
  function HoldsSerial(items: seq<Item>, serialNo: string): bool {
    |items| > 0 && (EntriesHold(items[0].serialNumbers, serialNo) || HoldsSerial(items[1..], serialNo))
  }

  lemma {:induction false} EntriesHoldAt(serials: seq<SerialEntry>, serialNo: string)
    ensures EntriesHold(serials, serialNo)
            <==> exists a :: 0 <= a < |serials| && serials[a].serialNo == serialNo
  {
    if |serials| > 0 {
      EntriesHoldAt(serials[1..], serialNo);
      if EntriesHold(serials[1..], serialNo) {
        var a :| 0 <= a < |serials[1..]| && serials[1..][a].serialNo == serialNo;
        assert serials[a + 1].serialNo == serialNo;
      }
      if exists a :: 0 <= a < |serials| && serials[a].serialNo == serialNo {
        var a :| 0 <= a < |serials| && serials[a].serialNo == serialNo;
        if a > 0 { assert serials[1..][a - 1].serialNo == serialNo; }
      }
    }
  }

  /** `HoldsSerial` is the query `{ 'serialNumbers.serialNo': serialNo }`
      finding a document: some entry of some item carries the number. */
  lemma {:induction false} HoldsSerialAt(items: seq<Item>, serialNo: string)
    ensures HoldsSerial(items, serialNo)
            <==> exists i, a :: 0 <= i < |items| && 0 <= a < |items[i].serialNumbers|
                                && items[i].serialNumbers[a].serialNo == serialNo
  {
    if |items| > 0 {
      HoldsSerialAt(items[1..], serialNo);
      EntriesHoldAt(items[0].serialNumbers, serialNo);
      if exists i, a :: 0 <= i < |items| && 0 <= a < |items[i].serialNumbers|
                        && items[i].serialNumbers[a].serialNo == serialNo {
        var i, a :| 0 <= i < |items| && 0 <= a < |items[i].serialNumbers|
                    && items[i].serialNumbers[a].serialNo == serialNo;
        if i > 0 { assert items[1..][i - 1] == items[i]; }
      }
      if HoldsSerial(items[1..], serialNo) {
        var i, a :| 0 <= i < |items[1..]| && 0 <= a < |items[1..][i].serialNumbers|
                    && items[1..][i].serialNumbers[a].serialNo == serialNo;
        assert items[i + 1] == items[1..][i];
      }
    }
  }

  /** A serial number no item holds differs from every entry in the store. */
  lemma NotHeldDiffers(items: seq<Item>, serialNo: string, i: nat, a: nat)
    requires !HoldsSerial(items, serialNo)
    requires i < |items| && a < |items[i].serialNumbers|
    ensures items[i].serialNumbers[a].serialNo != serialNo
  {
    HoldsSerialAt(items, serialNo);
  }

  /** Two places of the store hold different serials: in different items
      by the index, in the same item by the intake checks. */
  lemma UniqueAt(items: seq<Item>, i: nat, a: nat, j: nat, b: nat)
    requires SerialsUnique(items)
    requires i < |items| && j < |items| && a < |items[i].serialNumbers| && b < |items[j].serialNumbers|
    requires i != j || a != b
    ensures items[i].serialNumbers[a].serialNo != items[j].serialNumbers[b].serialNo
  {
  }

  /** Same documents, same serial numbers in the same places. */
  ghost predicate SameSerialNumbers(items: seq<Item>, items': seq<Item>) {
    && |items'| == |items|
    && (forall i :: 0 <= i < |items| ==>
          |items'[i].serialNumbers| == |items[i].serialNumbers|)
    && (forall i, a :: 0 <= i < |items| && 0 <= a < |items[i].serialNumbers| ==>
          items'[i].serialNumbers[a].serialNo == items[i].serialNumbers[a].serialNo)
  }

  /** Changing anything but the serial numbers keeps them unique. */
  lemma SameSerialNumbersKeepUnique(items: seq<Item>, items': seq<Item>)
    requires SerialsUnique(items) && SameSerialNumbers(items, items')
    ensures SerialsUnique(items')
  {
    forall i, a, j, b |
      0 <= i < |items'| && 0 <= j < |items'|
      && 0 <= a < |items'[i].serialNumbers| && 0 <= b < |items'[j].serialNumbers|
      && (i != j || a != b)
      ensures items'[i].serialNumbers[a].serialNo != items'[j].serialNumbers[b].serialNo
    {
      assert items[i].serialNumbers[a].serialNo != items[j].serialNumbers[b].serialNo;
    }
  }

  /** Same serial numbers, and the same stock, type and available count
      for every item: only the annotations of entries may differ. */
  ghost predicate SameStock(items: seq<Item>, items': seq<Item>) {
    && SameSerialNumbers(items, items')
    && (forall j :: 0 <= j < |items| ==>
          && items'[j].stockQty == items[j].stockQty
          && items'[j].itemType == items[j].itemType
          && CountAvailable(items'[j].serialNumbers) == CountAvailable(items[j].serialNumbers))
  }

  lemma SameStockTrans(a: seq<Item>, b: seq<Item>, c: seq<Item>)
    requires SameStock(a, b) && SameStock(b, c)
    ensures SameStock(a, c)
  {
  }

  /** Within one item, a unique serial number sits at exactly one position. */
  lemma UniqueSerialPosition(items: seq<Item>, i: nat, a: nat, b: nat)
    requires SerialsUnique(items)
    requires i < |items| && a < |items[i].serialNumbers| && b < |items[i].serialNumbers|
    requires items[i].serialNumbers[a].serialNo == items[i].serialNumbers[b].serialNo
    ensures a == b
  {
  }

  /** The store with the item at position `k` replaced, as a `save` of that document. */
  function ReplaceAt(items: seq<Item>, k: nat, it: Item): (r: seq<Item>)
    requires k < |items|
    ensures |r| == |items| && r[k] == it
    ensures forall j :: 0 <= j < |items| && j != k ==> r[j] == items[j]
  {
    items[k := it]
  }

  /** Replacing one item by one with the same serial numbers in the same
      places, the same stock figures and the same type keeps the stock. */
  lemma ReplaceSameStock(items: seq<Item>, k: nat, it: Item)
    requires k < |items|
    requires |it.serialNumbers| == |items[k].serialNumbers|
    requires forall a :: 0 <= a < |it.serialNumbers| ==> it.serialNumbers[a].serialNo == items[k].serialNumbers[a].serialNo
    requires it.stockQty == items[k].stockQty && it.itemType == items[k].itemType
    requires CountAvailable(it.serialNumbers) == CountAvailable(items[k].serialNumbers)
    ensures SameStock(items, ReplaceAt(items, k, it))
  {
    var r := ReplaceAt(items, k, it);
    forall i, a | 0 <= i < |items| && 0 <= a < |items[i].serialNumbers|
      ensures r[i].serialNumbers[a].serialNo == items[i].serialNumbers[a].serialNo
    {
      if i != k {
        assert r[i] == items[i];
      }
    }
  }
}
