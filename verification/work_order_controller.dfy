/** Work orders (controllers/workOrderController.js): `WO-` numbering, the
    schedule-date check on creation, the pending to completed transition
    and the two list orderings. */
module WorkOrderController {
  import opened Common
  import opened Numbering
  import opened Sorting
  import opened Records

  /** `Customer.findOne({ _id, createdBy })`: deleted customers still count. */
  function FindOwnedCustomer(customers: seq<Customer>, owner: Id, id: Id): (r: Option<nat>)
    ensures r.Some? ==> r.value < |customers| && customers[r.value].id == id && customers[r.value].owner == owner
    ensures r.None? <==> forall k :: 0 <= k < |customers| ==> !(customers[k].id == id && customers[k].owner == owner)
  {
    FindIndex(customers, (c: Customer) => c.id == id && c.owner == owner)
  }

  /** `WorkOrder.findOne({ _id, createdBy })`. */
  function FindOwnedWorkOrder(orders: seq<WorkOrder>, owner: Id, id: Id): (r: Option<nat>)
    ensures r.Some? ==> r.value < |orders| && orders[r.value].id == id && orders[r.value].owner == owner
    ensures r.Some? ==> forall j :: 0 <= j < r.value ==> !(orders[j].id == id && orders[j].owner == owner)
    ensures r.None? <==> forall k :: 0 <= k < |orders| ==> !(orders[k].id == id && orders[k].owner == owner)
  {
    FindIndex(orders, (w: WorkOrder) => w.id == id && w.owner == owner)
  }

  /** The owner's work orders, counted for the next number. */
  function OwnerWorkOrderCount(orders: seq<WorkOrder>, owner: Id): nat {
    Count(orders, (w: WorkOrder) => w.owner == owner)
  }

  /** `generateWorkOrderNumber` as written: the sequence is one more than
      the number of orders the owner has now. */
  function GenerateWorkOrderNumber(orders: seq<WorkOrder>, owner: Id, today: Date): (n: string)
    ensures ParseNumber(WorkOrderPrefix, n) == Some((YearMonthStamp(today), OwnerWorkOrderCount(orders, owner) + 1))
  {
    WorkOrderNumberReads(today, OwnerWorkOrderCount(orders, owner));
    WorkOrderNumber(today, OwnerWorkOrderCount(orders, owner))
  }

  /** The sequence number a stored work-order number carries (0 for one
      that does not read as a work-order number). */
  function SequenceOf(number: string): nat {
    match ParseNumber(WorkOrderPrefix, number)
    case Some(p) => p.1
    case None => 0
  }

  /** The highest sequence number among the owner's orders. */
  function HighestSequence(orders: seq<WorkOrder>, owner: Id): (r: nat)
    ensures forall k :: 0 <= k < |orders| && orders[k].owner == owner ==> SequenceOf(orders[k].number) <= r
  {
    if |orders| == 0 then 0
    else
      var rest := HighestSequence(orders[1..], owner);
      assert forall k :: 1 <= k < |orders| ==> orders[k] == orders[1..][k - 1];
      if orders[0].owner == owner && SequenceOf(orders[0].number) > rest then SequenceOf(orders[0].number)
      else rest
  }

  /** The numbering as evidently intended: one past the highest sequence in
      use, so that the number is new to the owner even after deletions. */
  function NextWorkOrderNumber(orders: seq<WorkOrder>, owner: Id, today: Date): (n: string)
    ensures SequenceOf(n) == HighestSequence(orders, owner) + 1
    ensures forall k :: 0 <= k < |orders| && orders[k].owner == owner ==> orders[k].number != n
  {
    var h := HighestSequence(orders, owner);
    SequenceOfNumber(today, h);
    AboveHighestIsNew(orders, owner, WorkOrderNumber(today, h));
    WorkOrderNumber(today, h)
  }

  /** A number whose sequence is above the highest in use is not in use. */
  lemma AboveHighestIsNew(orders: seq<WorkOrder>, owner: Id, n: string)
    requires SequenceOf(n) > HighestSequence(orders, owner)
    ensures forall k :: 0 <= k < |orders| && orders[k].owner == owner ==> orders[k].number != n
  {
  }

  lemma SequenceOfNumber(today: Date, c: nat)
    ensures SequenceOf(WorkOrderNumber(today, c)) == c + 1
  {
    WorkOrderNumberReads(today, c);
  }

  /** No two orders of one owner share a number. */
  predicate OwnerNumbersUnique(orders: seq<WorkOrder>) {
    forall i, j :: 0 <= i < j < |orders| && orders[i].owner == orders[j].owner ==> orders[i].number != orders[j].number
  }

  /** The request body; `scheduleDate` is `None` when it does not parse as
      a date. */
  datatype WorkOrderInput = WorkOrderInput(
    customerId: Id,
    workOrderType: string,
    scheduleDate: Option<int>,
    scheduleTime: Option<string>,
    remark: Option<string>)

  /** The checks `createWorkOrder` makes before writing: the customer must
      be the owner's, and a parsable schedule date must not lie before the
      start of today. An unparsable date passes the comparison (it is
      `NaN`) and is refused by the database when the order is written. */
  function CheckRequest(customers: seq<Customer>, owner: Id, input: WorkOrderInput, todayStart: int)
    : (r: Result<int>)
    ensures FindOwnedCustomer(customers, owner, input.customerId).None? ==> r == Err(NotFound("Customer"))
    ensures FindOwnedCustomer(customers, owner, input.customerId).Some? ==>
              && (input.scheduleDate.None? ==> r == Err(Internal("Failed to create work order")))
              && (input.scheduleDate.Some? && input.scheduleDate.value < todayStart ==>
                    r == Err(InvalidInput("Schedule date cannot be in the past")))
              && (input.scheduleDate.Some? && input.scheduleDate.value >= todayStart ==>
                    r == Ok(input.scheduleDate.value))
    ensures r.Ok? ==> input.scheduleDate == Some(r.value) && r.value >= todayStart
  {
    if FindOwnedCustomer(customers, owner, input.customerId).None? then Err(NotFound("Customer"))
    else match input.scheduleDate
      case None => Err(Internal("Failed to create work order"))
      case Some(d) =>
        if d < todayStart then Err(InvalidInput("Schedule date cannot be in the past")) else Ok(d)
  }

  /** `createWorkOrder` as written. The controller passes `workOrderType`
      and `remark`, which the schema does not declare, and no `note`, which
      the schema requires; the write is refused whenever the checks pass. */
  function CreateWorkOrderAsWritten(orders: seq<WorkOrder>, customers: seq<Customer>, owner: Id,
                                    input: WorkOrderInput, todayStart: int): (r: Result<seq<WorkOrder>>)
    ensures CheckRequest(customers, owner, input, todayStart).Err? ==>
              r == Err(CheckRequest(customers, owner, input, todayStart).error)
  {
    match CheckRequest(customers, owner, input, todayStart)
    case Err(e) => Err(e)
    case Ok(_) => Err(Internal("Failed to create work order"))
  }

  /** As written, no request creates a work order. */
  lemma CreateWorkOrderAsWrittenNeverSucceeds(orders: seq<WorkOrder>, customers: seq<Customer>, owner: Id,
                                              input: WorkOrderInput, todayStart: int)
    ensures CreateWorkOrderAsWritten(orders, customers, owner, input, todayStart).Err?
    ensures CheckRequest(customers, owner, input, todayStart).Ok? ==>
              CreateWorkOrderAsWritten(orders, customers, owner, input, todayStart)
              == Err(Internal("Failed to create work order"))
  {
  }

  /** `createWorkOrder` as evidently intended: the remark is the order's
      note, and the new order is pending, with a number new to the owner
      and a fresh id. */
  function CreateWorkOrder(orders: seq<WorkOrder>, customers: seq<Customer>, owner: Id,
                           input: WorkOrderInput, today: Date, todayStart: int)
    : (r: Result<(seq<WorkOrder>, WorkOrder)>)
    ensures r.Err? <==> CheckRequest(customers, owner, input, todayStart).Err?
    ensures r.Err? ==> r.error == CheckRequest(customers, owner, input, todayStart).error
    ensures r.Ok? ==>
              var w := r.value.1;
              && r.value.0 == orders + [w]
              && w.owner == owner && w.customer == input.customerId
              && w.status == WorkPending && w.completedAt.None? && w.billId.None?
              && w.scheduleDate == input.scheduleDate.value && w.scheduleDate >= todayStart
              && w.scheduleTime == input.scheduleTime.GetOr("") && w.remark == TextOr(input.remark, "")
              && w.number == NextWorkOrderNumber(orders, owner, today)
              && forall k :: 0 <= k < |orders| ==> orders[k].id != w.id
  {
    match CheckRequest(customers, owner, input, todayStart)
    case Err(e) => Err(e)
    case Ok(d) =>
      var ids := Map(orders, (w: WorkOrder) => w.id);
      var w := WorkOrder(FreshId(ids), owner, input.customerId,
                         NextWorkOrderNumber(orders, owner, today),
                         input.workOrderType, d, input.scheduleTime.GetOr(""), TextOr(input.remark, ""),
                         WorkPending, None, None);
      assert forall k :: 0 <= k < |orders| ==> orders[k].id == ids[k];
      Ok((orders + [w], w))
  }

  /** Creating an order keeps the owner's numbers unique. */
  lemma CreateWorkOrderKeepsNumbersUnique(orders: seq<WorkOrder>, customers: seq<Customer>, owner: Id,
                                          input: WorkOrderInput, today: Date, todayStart: int)
    requires OwnerNumbersUnique(orders)
    requires CreateWorkOrder(orders, customers, owner, input, today, todayStart).Ok?
    ensures var r := CreateWorkOrder(orders, customers, owner, input, today, todayStart).value;
            && OwnerNumbersUnique(r.0)
            && SequenceOf(r.1.number) == HighestSequence(orders, owner) + 1
  {
    var r := CreateWorkOrder(orders, customers, owner, input, today, todayStart).value;
    forall i, j | 0 <= i < j < |r.0| && r.0[i].owner == r.0[j].owner
      ensures r.0[i].number != r.0[j].number
    {
      if j == |orders| {
        assert r.0[i] == orders[i] && r.0[j] == r.1;
      } else {
        assert r.0[i] == orders[i] && r.0[j] == orders[j];
      }
    }
  }

  // ------------------------------------------------------- deleteWorkOrder

  /** `deleteWorkOrder`: `findOneAndDelete({ _id, createdBy })` removes the
      owner's order for good, so the owner's count drops by one. */
  function DeleteWorkOrder(orders: seq<WorkOrder>, owner: Id, id: Id): (r: Result<seq<WorkOrder>>)
    ensures r.Err? <==> FindOwnedWorkOrder(orders, owner, id).None?
    ensures r.Err? ==> r.error == NotFound("Work order")
    ensures r.Ok? ==>
              var k := FindOwnedWorkOrder(orders, owner, id).value;
              && |r.value| == |orders| - 1
              && (forall j :: 0 <= j < k ==> r.value[j] == orders[j])
              && (forall j :: k < j < |orders| ==> r.value[j - 1] == orders[j])
              && OwnerWorkOrderCount(r.value, owner) == OwnerWorkOrderCount(orders, owner) - 1
  {
    match FindOwnedWorkOrder(orders, owner, id)
    case None => Err(NotFound("Work order"))
    case Some(k) =>
      OwnerCountRemoveAt(orders, owner, k);
      Ok(RemoveAt(orders, k))
  }

  function RemoveAt(s: seq<WorkOrder>, k: nat): (r: seq<WorkOrder>)
    requires k < |s|
    ensures |r| == |s| - 1
    ensures forall j :: 0 <= j < k ==> r[j] == s[j]
    ensures forall j :: k < j < |s| ==> r[j - 1] == s[j]
  {
    s[..k] + s[k + 1..]
  }

  /** Removing one of the owner's orders lowers the owner's count by one. */
  lemma OwnerCountRemoveAt(orders: seq<WorkOrder>, owner: Id, k: nat)
    requires k < |orders| && orders[k].owner == owner
    ensures OwnerWorkOrderCount(RemoveAt(orders, k), owner) == OwnerWorkOrderCount(orders, owner) - 1
  {
    var p := (w: WorkOrder) => w.owner == owner;
    var front, back := orders[..k], orders[k + 1..];
    assert orders == front + ([orders[k]] + back);
    CountAppend(front, [orders[k]] + back, p);
    assert ([orders[k]] + back)[1..] == back;
    CountAppend(front, back, p);
  }

  /** Deleting an order keeps the owner's numbers unique. */
  lemma DeleteWorkOrderKeepsNumbersUnique(orders: seq<WorkOrder>, owner: Id, id: Id)
    requires OwnerNumbersUnique(orders)
    ensures DeleteWorkOrder(orders, owner, id).Ok? ==> OwnerNumbersUnique(DeleteWorkOrder(orders, owner, id).value)
  {
    var f := FindOwnedWorkOrder(orders, owner, id);
    if f.Some? {
      RemoveAtKeepsNumbersUnique(orders, f.value);
    }
  }

  lemma RemoveAtKeepsNumbersUnique(orders: seq<WorkOrder>, k: nat)
    requires k < |orders| && OwnerNumbersUnique(orders)
    ensures OwnerNumbersUnique(RemoveAt(orders, k))
  {
    var r := RemoveAt(orders, k);
    forall i, j | 0 <= i < j < |r| && r[i].owner == r[j].owner
      ensures r[i].number != r[j].number
    {
      var i' := if i < k then i else i + 1;
      var j' := if j < k then j else j + 1;
      assert r[i] == orders[i'] && r[j] == orders[j'];
    }
  }

  /** As written, a deletion lets the next number repeat one in use: two
      orders numbered one after the other, the first deleted, and the next
      number is the second one's again. */
  lemma DeleteLetsNumberRepeat(today: Date)
    ensures var a := WorkOrder(1, 7, 3, GenerateWorkOrderNumber([], 7, today), "", 0, "", "", WorkPending, None, None);
            var b := WorkOrder(2, 7, 3, GenerateWorkOrderNumber([a], 7, today), "", 0, "", "", WorkPending, None, None);
            var r := DeleteWorkOrder([a, b], 7, 1);
            && r == Ok([b])
            && GenerateWorkOrderNumber(r.value, 7, today) == b.number
  {
    var a := WorkOrder(1, 7, 3, GenerateWorkOrderNumber([], 7, today), "", 0, "", "", WorkPending, None, None);
    var b := WorkOrder(2, 7, 3, GenerateWorkOrderNumber([a], 7, today), "", 0, "", "", WorkPending, None, None);
    assert RemoveAt([a, b], 0) == [b];
    assert OwnerWorkOrderCount([a], 7) == 1;
    assert OwnerWorkOrderCount([b], 7) == 1;
  }

  // ------------------------------------------------------- markAsCompleted

  /** `markAsCompleted`: only the owner's orders are found, a completed
      order is refused unchanged, a pending one becomes completed with the
      time stamped. */
  function MarkAsCompleted(orders: seq<WorkOrder>, owner: Id, id: Id, now: int): (r: Result<seq<WorkOrder>>)
    ensures FindOwnedWorkOrder(orders, owner, id).None? ==> r == Err(NotFound("Work order"))
    ensures FindOwnedWorkOrder(orders, owner, id).Some? ==>
              var k := FindOwnedWorkOrder(orders, owner, id).value;
              && (orders[k].status == WorkCompleted ==> r == Err(InvalidInput("Work order is already completed")))
              && (orders[k].status == WorkPending ==>
                    r == Ok(orders[k := orders[k].(status := WorkCompleted, completedAt := Some(now))]))
  {
    match FindOwnedWorkOrder(orders, owner, id)
    case None => Err(NotFound("Work order"))
    case Some(k) =>
      if orders[k].status == WorkCompleted then Err(InvalidInput("Work order is already completed"))
      else Ok(orders[k := orders[k].(status := WorkCompleted, completedAt := Some(now))])
  }

  /** Completion happens once: marking the same order again is refused. */
  lemma MarkAsCompletedOnce(orders: seq<WorkOrder>, owner: Id, id: Id, now: int, later: int)
    requires MarkAsCompleted(orders, owner, id, now).Ok?
    ensures var s := MarkAsCompleted(orders, owner, id, now).value;
            MarkAsCompleted(s, owner, id, later) == Err(InvalidInput("Work order is already completed"))
  {
    var k := FindOwnedWorkOrder(orders, owner, id).value;
    var s := MarkAsCompleted(orders, owner, id, now).value;
    assert FindOwnedWorkOrder(s, owner, id) == Some(k) by {
      var f := FindOwnedWorkOrder(s, owner, id);
      assert s[k].id == id && s[k].owner == owner;
      assert forall j :: 0 <= j < k ==> s[j] == orders[j];
    }
  }

  // ----------------------------------------------------------------- lists

  /** `.sort({ scheduleDate: 1, scheduleTime: 1 })`. */
  function ScheduleOrder(): (WorkOrder, WorkOrder) -> bool {
    (x: WorkOrder, y: WorkOrder) =>
      x.scheduleDate < y.scheduleDate || (x.scheduleDate == y.scheduleDate && LexLe(x.scheduleTime, y.scheduleTime))
  }

  lemma ScheduleOrderIsTotal()
    ensures TotalPreorder(ScheduleOrder())
  {
    var le := ScheduleOrder();
    forall a: WorkOrder, b: WorkOrder ensures le(a, b) || le(b, a) {
      LexLeTotal(a.scheduleTime, b.scheduleTime);
    }
    forall a: WorkOrder, b: WorkOrder, c: WorkOrder | le(a, b) && le(b, c) ensures le(a, c) {
      if a.scheduleDate == b.scheduleDate == c.scheduleDate {
        LexLeTrans(a.scheduleTime, b.scheduleTime, c.scheduleTime);
      }
    }
  }

  /** `.sort({ completedAt: -1 })`: latest first, orders without a
      completion time last. */
  function LatestCompletedFirst(): (WorkOrder, WorkOrder) -> bool {
    (x: WorkOrder, y: WorkOrder) =>
      match (x.completedAt, y.completedAt)
      case (Some(a), Some(b)) => a >= b
      case (Some(_), None) => true
      case (None, Some(_)) => false
      case (None, None) => true
  }

  lemma LatestCompletedFirstIsTotal()
    ensures TotalPreorder(LatestCompletedFirst())
  {
  }

  predicate PendingOf(w: WorkOrder, owner: Id) { w.owner == owner && w.status == WorkPending }
  predicate CompletedOf(w: WorkOrder, owner: Id) { w.owner == owner && w.status == WorkCompleted }

  /** `getPendingWorkOrders`: the owner's pending orders, earliest
      appointment first. */
  function PendingWorkOrders(orders: seq<WorkOrder>, owner: Id): (r: seq<WorkOrder>)
    ensures multiset(r) == multiset(Filter(orders, (w: WorkOrder) => PendingOf(w, owner)))
    ensures SortedBy(r, ScheduleOrder())
  {
    ScheduleOrderIsTotal();
    SortBy(Filter(orders, (w: WorkOrder) => PendingOf(w, owner)), ScheduleOrder())
  }

  /** `getCompletedWorkOrders`: the owner's completed orders, latest first. */
  function CompletedWorkOrders(orders: seq<WorkOrder>, owner: Id): (r: seq<WorkOrder>)
    ensures multiset(r) == multiset(Filter(orders, (w: WorkOrder) => CompletedOf(w, owner)))
    ensures SortedBy(r, LatestCompletedFirst())
  {
    LatestCompletedFirstIsTotal();
    SortBy(Filter(orders, (w: WorkOrder) => CompletedOf(w, owner)), LatestCompletedFirst())
  }

  /** An order is on the pending list exactly when it is stored and
      pending. */
  lemma PendingListMembers(orders: seq<WorkOrder>, owner: Id, w: WorkOrder)
    ensures w in PendingWorkOrders(orders, owner) <==> w in orders && PendingOf(w, owner)
  {
    var f := Filter(orders, (x: WorkOrder) => PendingOf(x, owner));
    assert w in PendingWorkOrders(orders, owner) <==> w in multiset(f);
    if w in f {
      var i :| 0 <= i < |f| && f[i] == w;
    }
    if w in orders && PendingOf(w, owner) {
      var i :| 0 <= i < |orders| && orders[i] == w;
    }
  }

  /** An order is on the completed list exactly when it is stored and
      completed. */
  lemma CompletedListMembers(orders: seq<WorkOrder>, owner: Id, w: WorkOrder)
    ensures w in CompletedWorkOrders(orders, owner) <==> w in orders && CompletedOf(w, owner)
  {
    var f := Filter(orders, (x: WorkOrder) => CompletedOf(x, owner));
    assert w in CompletedWorkOrders(orders, owner) <==> w in multiset(f);
    if w in f {
      var i :| 0 <= i < |f| && f[i] == w;
    }
    if w in orders && CompletedOf(w, owner) {
      var i :| 0 <= i < |orders| && orders[i] == w;
    }
  }

  /** Completing a pending order moves it from the pending list to the
      completed list. */
  lemma MarkAsCompletedMovesLists(orders: seq<WorkOrder>, owner: Id, id: Id, now: int)
    requires MarkAsCompleted(orders, owner, id, now).Ok?
    ensures var k := FindOwnedWorkOrder(orders, owner, id).value;
            var s := MarkAsCompleted(orders, owner, id, now).value;
            && orders[k] in PendingWorkOrders(orders, owner)
            && s[k] in CompletedWorkOrders(s, owner)
            && s[k] !in PendingWorkOrders(s, owner)
  {
    var k := FindOwnedWorkOrder(orders, owner, id).value;
    var s := MarkAsCompleted(orders, owner, id, now).value;
    PendingListMembers(orders, owner, orders[k]);
    CompletedListMembers(s, owner, s[k]);
    PendingListMembers(s, owner, s[k]);
  }
}
