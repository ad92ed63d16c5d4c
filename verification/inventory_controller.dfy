/** Stock intake (controllers/inventoryController.js): creating items,
    adding generic quantity, registering batches of serial numbers, and the
    serial-number lookup. */
module InventoryController {
  import opened Common
  import opened Text
  import opened ItemModel

  // ------------------------------------------------------------------ addItem

  /** The request body of `addItem`; `None` is a field left out or null. */
  datatype NewItemInput = NewItemInput(
    itemType: ItemType,
    name: Option<string>,
    unit: Option<string>,
    warranty: Option<string>,
    mrp: Option<int>,
    purchasePrice: Option<int>,
    salePrice: Option<int>)

  function ItemIds(items: seq<Item>): seq<Id> {
    Map(items, (it: Item) => it.id)
  }

  /** The item schema's `required` checks: name and unit present and not
      empty, the three prices present (zero is a price). */
  predicate PassesItemSchema(input: NewItemInput) {
    && input.name.Some? && input.name.value != ""
    && input.unit.Some? && input.unit.value != ""
    && input.mrp.Some? && input.purchasePrice.Some? && input.salePrice.Some?
  }

  /** `addItem`: a new item with no stock, no serial numbers, no history and
      warranty `no_warranty` unless one is given, appended to the store. A
      body the schema refuses makes `Item.create` throw, and nothing is
      stored. */
  function AddItem(items: seq<Item>, owner: Id, input: NewItemInput): (r: (seq<Item>, Result<Item>))
    ensures r.1.Err? <==> !PassesItemSchema(input)
    ensures r.1.Err? ==> r == (items, Err(Internal("Failed to add item")))
    ensures r.1.Ok? ==>
              var it := r.1.value;
              && r.0 == items + [it]
              && (forall i :: 0 <= i < |items| ==> items[i].id != it.id)
              && it.owner == owner && it.itemType == input.itemType
              && it.name == input.name.value && it.unit == input.unit.value
              && it.stockQty == 0 && it.serialNumbers == [] && it.stockHistory == []
              && it.warranty == (if Truthy(input.warranty) then input.warranty.value else NoWarranty)
              && it.mrp == input.mrp.value
              && it.purchasePrice == input.purchasePrice.value && it.salePrice == input.salePrice.value
              && !it.deleted
              && AvailableStock(it) == 0
  {
    if !PassesItemSchema(input) then (items, Err(Internal("Failed to add item")))
    else
      var id := FreshId(ItemIds(items));
      var item := Item(id, owner, input.itemType, input.name.value, input.unit.value,
                       if Truthy(input.warranty) then input.warranty.value else NoWarranty,
                       input.mrp.value, input.purchasePrice.value, input.salePrice.value,
                       0, [], [], false);
      (items + [item], Ok(item))
  }

  /** Adding an item keeps serial numbers unique: it brings none. */
  lemma AddItemKeepsSerialsUnique(items: seq<Item>, owner: Id, input: NewItemInput)
    requires SerialsUnique(items)
    ensures SerialsUnique(AddItem(items, owner, input).0)
  {
    var items' := AddItem(items, owner, input).0;
    forall i, a, j, b |
      0 <= i < |items'| && 0 <= j < |items'|
      && 0 <= a < |items'[i].serialNumbers| && 0 <= b < |items'[j].serialNumbers|
      && (i != j || a != b)
      ensures items'[i].serialNumbers[a].serialNo != items'[j].serialNumbers[b].serialNo
    {
      assert i < |items| && j < |items|;
      assert items'[i] == items[i] && items'[j] == items[j];
    }
  }

  // ------------------------------------------------------- checkSerialNumber

  /** `checkSerialNumber`: blank input is rejected; otherwise it reports
      whether any item of any owner holds the trimmed serial number. */
  function CheckSerialNumber(items: seq<Item>, serialNo: Option<string>): (r: Result<bool>)
    ensures r.Err? <==> serialNo.None? || Trim(serialNo.value) == ""
    ensures r.Ok? ==> (r.value <==> HoldsSerial(items, Trim(serialNo.value)))
  {
    if serialNo.None? || Trim(serialNo.value) == "" then
      Err(InvalidInput("Serial number is required"))
    else
      Ok(HoldsSerial(items, Trim(serialNo.value)))
  }

  // ------------------------------------------------- serial batch validation

  /** Trim every submitted serial and drop the ones left empty. */
  function CleanBatch(batch: seq<string>): (r: seq<string>)
    ensures |r| <= |batch|
    ensures forall i :: 0 <= i < |r| ==> r[i] != "" && r[i] in Map(batch, Trim)
    ensures forall k :: 0 <= k < |batch| && Trim(batch[k]) != "" ==> Trim(batch[k]) in r
  {
    var t := Map(batch, Trim);
    assert forall k :: 0 <= k < |batch| ==> t[k] == Trim(batch[k]);
    Filter(t, NonBlank)
  }

  predicate NonBlank(s: string) { s != "" }

  /** Cleaning works serial by serial, in order: a batch cleans as its
      parts do. */
  lemma CleanBatchAppend(a: seq<string>, b: seq<string>)
    ensures CleanBatch(a + b) == CleanBatch(a) + CleanBatch(b)
  {
    MapAppend(a, b, Trim);
    FilterAppend(Map(a, Trim), Map(b, Trim), NonBlank);
  }

  /** One serial cleans to its trim, or to nothing when that is empty. */
  lemma CleanBatchSingle(s: string)
    ensures CleanBatch([s]) == if Trim(s) == "" then [] else [Trim(s)]
  {
    assert Map([s], Trim) == [Trim(s)];
    assert Map([s], Trim)[1..] == [];
  }

  /** `[...new Set(s)]`: first occurrences, in order. */
  function Dedup(s: seq<string>): (r: seq<string>)
    ensures Distinct(r)
    ensures forall x :: x in r <==> x in s
    ensures |r| <= |s|
  {
    if |s| == 0 then []
    else
      var init := Dedup(s[..|s| - 1]);
      var last := s[|s| - 1];
      assert s == s[..|s| - 1] + [last];
      if last in s[..|s| - 1] then init else init + [last]
  }

  /** A sequence loses nothing to `Dedup` exactly when it has no duplicates. */
  lemma {:induction false} DedupLengthIffDistinct(s: seq<string>)
    ensures |Dedup(s)| == |s| <==> Distinct(s)
  {
    if |s| > 0 {
      var init := s[..|s| - 1];
      var last := s[|s| - 1];
      DedupLengthIffDistinct(init);
      if last in init {
        var k :| 0 <= k < |init| && init[k] == last;
        assert s[k] == s[|s| - 1];
      } else if Distinct(init) {
        forall i, j | 0 <= i < j < |s| ensures s[i] != s[j] {
          if j == |s| - 1 { assert s[i] == init[i]; } else { assert s[i] == init[i] && s[j] == init[j]; }
        }
      } else {
        var i, j :| 0 <= i < j < |init| && init[i] == init[j];
        assert s[i] == s[j];
      }
    }
  }

  /** `s.filter((x, i) => s.indexOf(x) !== i)`: every repeat occurrence. */
  function RepeatOccurrences<T(==)>(s: seq<T>): seq<T> {
    if |s| == 0 then []
    else
      var last := s[|s| - 1];
      RepeatOccurrences(s[..|s| - 1]) + (if last in s[..|s| - 1] then [last] else [])
  }

  /** A value shows up among the repeats exactly when it occurs at least twice. */
  lemma {:induction false} RepeatOccurrencesAreDuplicates<T>(s: seq<T>, x: T)
    ensures x in RepeatOccurrences(s) <==> multiset(s)[x] >= 2
  {
    if |s| > 0 {
      var init := s[..|s| - 1];
      assert s == init + [s[|s| - 1]];
      RepeatOccurrencesAreDuplicates(init, x);
    }
  }

  /** The duplicates named in the rejection message: each repeated serial once. */
  function BatchDuplicates(t: seq<string>): (r: seq<string>)
    ensures Distinct(r)
    ensures forall x :: x in r <==> multiset(t)[x] >= 2
  {
    var r := Dedup(RepeatOccurrences(t));
    assert forall x :: x in r <==> multiset(t)[x] >= 2 by {
      forall x ensures x in r <==> multiset(t)[x] >= 2 {
        RepeatOccurrencesAreDuplicates(t, x);
      }
    }
    r
  }

  /** Entries of one item whose serial number is in the batch. */
  function ExistingIn(serials: seq<SerialEntry>, t: seq<string>): (r: seq<string>)
    ensures |r| == 0 <==> forall x :: x in t ==> !EntriesHold(serials, x)
    ensures forall k :: 0 <= k < |r| ==> r[k] in t && EntriesHold(serials, r[k])
  {
    if |serials| == 0 then []
    else
      var sn := serials[0].serialNo;
      var rest := ExistingIn(serials[1..], t);
      (if sn in t then [sn] else []) + rest
  }

  /** Serials of the batch already present in some item of any owner, in store order. */
  function ExistingSerials(items: seq<Item>, t: seq<string>): (r: seq<string>)
    ensures |r| == 0 <==> forall x :: x in t ==> !HoldsSerial(items, x)
    ensures forall k :: 0 <= k < |r| ==> r[k] in t && HoldsSerial(items, r[k])
  {
    if |items| == 0 then []
    else ExistingIn(items[0].serialNumbers, t) + ExistingSerials(items[1..], t)
  }

  // -------------------------------------------------------------- updateStock

  predicate IsTarget(it: Item, owner: Id, id: Id) {
    it.id == id && it.owner == owner
  }

  function FindOwned(items: seq<Item>, owner: Id, id: Id): (r: Option<nat>)
    ensures r.Some? ==> r.value < |items| && IsTarget(items[r.value], owner, id)
    ensures r.None? <==> forall k :: 0 <= k < |items| ==> !IsTarget(items[k], owner, id)
  {
    FindIndex(items, (it: Item) => IsTarget(it, owner, id))
  }

  /** A generic item after `updateStock`: `stockQty || 0` is added to the
      stock, with no sign check, and logged only when positive. */
  function AddGenericStock(item: Item, stockQty: Option<int>, now: int): (r: Item)
    ensures r.stockQty == item.stockQty + OrDefault(stockQty, 0)
    ensures OrDefault(stockQty, 0) > 0 ==>
              r.stockHistory == item.stockHistory + [StockEntry(OrDefault(stockQty, 0), now)]
    ensures OrDefault(stockQty, 0) <= 0 ==> r.stockHistory == item.stockHistory
    ensures r.serialNumbers == item.serialNumbers && r.id == item.id && r.owner == item.owner
  {
    var add := OrDefault(stockQty, 0);
    item.(stockQty := item.stockQty + add,
          stockHistory := if add > 0 then item.stockHistory + [StockEntry(add, now)] else item.stockHistory)
  }

  /** Validates a submitted batch of serial numbers against the store and
      returns the cleaned serials to register. */
  function ValidateSerialBatch(items: seq<Item>, batch: seq<string>): (r: Result<seq<string>>)
    ensures r.Ok? ==> r.value == CleanBatch(batch)
    ensures r.Err? ==> !r.error.NotFound?
    ensures r.Ok? <==> |CleanBatch(batch)| > 0 && Distinct(CleanBatch(batch))
                        && forall x :: x in CleanBatch(batch) ==> !HoldsSerial(items, x)
    ensures r.Err? && |CleanBatch(batch)| > 0 && !Distinct(CleanBatch(batch)) ==>
              r.error == DuplicateSerials(BatchDuplicates(CleanBatch(batch)))
  {
    var t := CleanBatch(batch);
    DedupLengthIffDistinct(t);
    if |t| == 0 then Err(InvalidInput("Please provide at least one valid serial number"))
    else if |Dedup(t)| != |t| then Err(DuplicateSerials(BatchDuplicates(t)))
    else
      var existing := ExistingSerials(items, t);
      if |existing| > 0 then Err(SerialsExist(existing))
      else Ok(t)
  }

  function NewSerials(t: seq<string>, now: int): (r: seq<SerialEntry>)
    ensures |r| == |t|
    ensures forall k :: 0 <= k < |t| ==> r[k] == NewSerial(t[k], now)
  {
    Map(t, (sn: string) => NewSerial(sn, now))
  }

  /** The serialized branch of `updateStock` for the item at position `k`. */
  function AddSerialBatch(items: seq<Item>, k: nat, batch: Option<seq<string>>, now: int)
    : (r: Result<seq<Item>>)
    requires k < |items|
    ensures r.Err? ==> !r.error.NotFound?
    ensures r.Ok? ==> |r.value| == |items|
    ensures r.Ok? ==> forall j :: 0 <= j < |items| && j != k ==> r.value[j] == items[j]
  {
    if batch.None? || |batch.value| == 0 then Ok(items)
    else match ValidateSerialBatch(items, batch.value)
      case Err(e) => Err(e)
      case Ok(t) =>
        Ok(ReplaceAt(items, k, WithSerials(items[k], t, now)))
  }

  /** `updateStock`. The item is looked up by id and owner; a generic item
      gains quantity, a serialized item gains a validated batch of new
      serials, each `available`. A missing or empty batch changes nothing. */
  function UpdateStock(items: seq<Item>, owner: Id, id: Id, stockQty: Option<int>,
                       batch: Option<seq<string>>, now: int): (r: Result<seq<Item>>)
    ensures r.Err? && r.error.NotFound? <==> FindOwned(items, owner, id).None?
    ensures r.Ok? ==> |r.value| == |items|
    ensures r.Ok? ==> forall j :: 0 <= j < |items| && j != FindOwned(items, owner, id).value
                        ==> r.value[j] == items[j]
    ensures FindOwned(items, owner, id).Some? && items[FindOwned(items, owner, id).value].itemType == Generic
            ==> var k := FindOwned(items, owner, id).value;
                r == Ok(ReplaceAt(items, k, AddGenericStock(items[k], stockQty, now)))
    ensures FindOwned(items, owner, id).Some? && items[FindOwned(items, owner, id).value].itemType == Serialized
            ==> && ((batch.None? || |batch.value| == 0) ==> r == Ok(items))
                && (batch.Some? && |batch.value| > 0 && |CleanBatch(batch.value)| == 0
                    ==> r == Err(InvalidInput("Please provide at least one valid serial number")))
  {
    match FindOwned(items, owner, id)
    case None => Err(NotFound("Item"))
    case Some(k) =>
      if items[k].itemType == Generic then
        Ok(ReplaceAt(items, k, AddGenericStock(items[k], stockQty, now)))
      else
        AddSerialBatch(items, k, batch, now)
  }

  /** The item at `k` with the entries for `t` appended, each available. */
  function WithSerials(item: Item, t: seq<string>, now: int): Item {
    item.(serialNumbers := item.serialNumbers + NewSerials(t, now))
  }

  lemma {:induction false} AllNewAvailable(s: seq<SerialEntry>)
    requires forall k :: 0 <= k < |s| ==> s[k].status == Available
    ensures CountAvailable(s) == |s|
  {
    if |s| > 0 {
      AllNewAvailable(s[1..]);
    }
  }

  /** Appending new entries raises the available count by their number. */
  lemma WithSerialsAvailable(item: Item, t: seq<string>, now: int)
    requires item.itemType == Serialized
    ensures AvailableStock(WithSerials(item, t, now)) == AvailableStock(item) + |t|
  {
    var added := NewSerials(t, now);
    CountAvailableAppend(item.serialNumbers, added);
    AllNewAvailable(added);
  }

  /** An entry of the store after a batch is appended at `k`: one of the
      new entries, or the entry that was there before. */
  lemma AppendedEntry(items: seq<Item>, k: nat, t: seq<string>, now: int, i: nat, a: nat)
    requires k < |items|
    requires i < |items| && a < |ReplaceAt(items, k, WithSerials(items[k], t, now))[i].serialNumbers|
    ensures var items' := ReplaceAt(items, k, WithSerials(items[k], t, now));
            var n := |items[k].serialNumbers|;
            if i == k && a >= n then a - n < |t| && items'[i].serialNumbers[a].serialNo == t[a - n]
            else a < |items[i].serialNumbers| && items'[i].serialNumbers[a] == items[i].serialNumbers[a]
  {
    var n := |items[k].serialNumbers|;
    if i == k {
      var added := NewSerials(t, now);
      assert WithSerials(items[k], t, now).serialNumbers == items[k].serialNumbers + added;
      if a >= n {
        assert added[a - n] == NewSerial(t[a - n], now);
      }
    }
  }

  /** Appending a batch of distinct serial numbers that no item holds keeps
      the serial numbers of the store unique. */
  lemma AppendFreshKeepsUnique(items: seq<Item>, k: nat, t: seq<string>, now: int)
    requires SerialsUnique(items) && k < |items|
    requires Distinct(t) && forall x :: x in t ==> !HoldsSerial(items, x)
    ensures SerialsUnique(ReplaceAt(items, k, WithSerials(items[k], t, now)))
  {
    var items' := ReplaceAt(items, k, WithSerials(items[k], t, now));
    forall i, a, j, b |
      0 <= i < |items'| && 0 <= j < |items'|
      && 0 <= a < |items'[i].serialNumbers| && 0 <= b < |items'[j].serialNumbers|
      && (i != j || a != b)
      ensures items'[i].serialNumbers[a].serialNo != items'[j].serialNumbers[b].serialNo
    {
      var n := |items[k].serialNumbers|;
      if (i == k && a >= n) || (j == k && b >= n) {
        FreshPairDiffers(items, k, t, now, i, a, j, b);
      } else {
        KeptPairDiffers(items, k, t, now, i, a, j, b);
      }
    }
  }

  /** A pair with an appended entry differs: the batch is distinct and
      held nowhere. */
  lemma FreshPairDiffers(items: seq<Item>, k: nat, t: seq<string>, now: int, i: nat, a: nat, j: nat, b: nat)
    requires k < |items| && Distinct(t) && forall x :: x in t ==> !HoldsSerial(items, x)
    requires i < |items| && j < |items| && (i != j || a != b)
    requires a < |ReplaceAt(items, k, WithSerials(items[k], t, now))[i].serialNumbers|
    requires b < |ReplaceAt(items, k, WithSerials(items[k], t, now))[j].serialNumbers|
    requires (i == k && a >= |items[k].serialNumbers|) || (j == k && b >= |items[k].serialNumbers|)
    ensures ReplaceAt(items, k, WithSerials(items[k], t, now))[i].serialNumbers[a].serialNo
            != ReplaceAt(items, k, WithSerials(items[k], t, now))[j].serialNumbers[b].serialNo
  {
    var n := |items[k].serialNumbers|;
    AppendedEntry(items, k, t, now, i, a);
    AppendedEntry(items, k, t, now, j, b);
    if i == k && a >= n && j == k && b >= n {
      DistinctAt(t, a - n, b - n);
    } else if i == k && a >= n {
      assert t[a - n] in t;
      NotHeldDiffers(items, t[a - n], j, b);
    } else {
      assert t[b - n] in t;
      NotHeldDiffers(items, t[b - n], i, a);
    }
  }

  /** A pair of entries that were there before the append differs. */
  lemma KeptPairDiffers(items: seq<Item>, k: nat, t: seq<string>, now: int, i: nat, a: nat, j: nat, b: nat)
    requires SerialsUnique(items) && k < |items|
    requires i < |items| && j < |items| && (i != j || a != b)
    requires a < |ReplaceAt(items, k, WithSerials(items[k], t, now))[i].serialNumbers|
    requires b < |ReplaceAt(items, k, WithSerials(items[k], t, now))[j].serialNumbers|
    requires !(i == k && a >= |items[k].serialNumbers|) && !(j == k && b >= |items[k].serialNumbers|)
    ensures ReplaceAt(items, k, WithSerials(items[k], t, now))[i].serialNumbers[a].serialNo
            != ReplaceAt(items, k, WithSerials(items[k], t, now))[j].serialNumbers[b].serialNo
  {
    AppendedEntry(items, k, t, now, i, a);
    AppendedEntry(items, k, t, now, j, b);
    UniqueAt(items, i, a, j, b);
  }

  lemma DistinctAt<T>(t: seq<T>, x: nat, y: nat)
    requires Distinct(t) && x < |t| && y < |t| && x != y
    ensures t[x] != t[y]
  {
    if x > y {
      assert t[y] != t[x];
    }
  }

  /** On success the serialized item holds its old serials followed by the
      cleaned batch, in input order, all available, and its available
      stock grows by the size of the cleaned batch. */
  lemma UpdateStockAppendsBatch(items: seq<Item>, owner: Id, id: Id, stockQty: Option<int>,
                                batch: seq<string>, now: int)
    requires FindOwned(items, owner, id).Some?
    requires items[FindOwned(items, owner, id).value].itemType == Serialized
    requires |batch| > 0
    requires UpdateStock(items, owner, id, stockQty, Some(batch), now).Ok?
    ensures var k := FindOwned(items, owner, id).value;
            var it' := UpdateStock(items, owner, id, stockQty, Some(batch), now).value[k];
            && it'.serialNumbers == items[k].serialNumbers + NewSerials(CleanBatch(batch), now)
            && AvailableStock(it') == AvailableStock(items[k]) + |CleanBatch(batch)|
  {
    var k := FindOwned(items, owner, id).value;
    var t := CleanBatch(batch);
    assert ValidateSerialBatch(items, batch) == Ok(t);
    assert UpdateStock(items, owner, id, stockQty, Some(batch), now).value
        == ReplaceAt(items, k, WithSerials(items[k], t, now));
    WithSerialsAvailable(items[k], t, now);
  }

  /** A failed batch leaves every item as it was: `updateStock` either
      registers the whole batch or none of it, and it fails exactly when
      the batch does not validate. */
  lemma UpdateStockAllOrNothing(items: seq<Item>, owner: Id, id: Id, stockQty: Option<int>,
                                batch: seq<string>, now: int)
    requires FindOwned(items, owner, id).Some?
    requires items[FindOwned(items, owner, id).value].itemType == Serialized
    requires |batch| > 0
    ensures UpdateStock(items, owner, id, stockQty, Some(batch), now).Err?
            <==> ValidateSerialBatch(items, batch).Err?
  {
    var k := FindOwned(items, owner, id).value;
    assert UpdateStock(items, owner, id, stockQty, Some(batch), now)
        == AddSerialBatch(items, k, Some(batch), now);
  }

  /** Every successful `updateStock` keeps serial numbers unique across the store. */
  lemma UpdateStockKeepsSerialsUnique(items: seq<Item>, owner: Id, id: Id, stockQty: Option<int>,
                                      batch: Option<seq<string>>, now: int)
    requires SerialsUnique(items)
    requires UpdateStock(items, owner, id, stockQty, batch, now).Ok?
    ensures SerialsUnique(UpdateStock(items, owner, id, stockQty, batch, now).value)
  {
    var k := FindOwned(items, owner, id).value;
    var items' := UpdateStock(items, owner, id, stockQty, batch, now).value;
    if items[k].itemType == Generic {
      assert items' == ReplaceAt(items, k, AddGenericStock(items[k], stockQty, now));
      assert SameSerialNumbers(items, items');
      SameSerialNumbersKeepUnique(items, items');
    } else if batch.None? || |batch.value| == 0 {
      assert items' == items;
    } else {
      var t := CleanBatch(batch.value);
      assert ValidateSerialBatch(items, batch.value) == Ok(t);
      assert items' == ReplaceAt(items, k, WithSerials(items[k], t, now));
      AppendFreshKeepsUnique(items, k, t, now);
    }
  }
}
