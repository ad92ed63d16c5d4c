/** The bill document (models/Bill.js): priced lines, the payment history
    and the amounts and status derived from them. */
module BillModel {
  import opened Common

  datatype LineType = ServiceLine | SerializedLine | GenericLine

  /** One priced line. `qty` defaults to 1 and `purchasePrice` to 0 in the
      schema; the controllers always write both. */
  datatype BillLine = BillLine(
    itemType: LineType,
    itemId: Id,
    itemName: string,
    serialNumber: Option<string>,
    qty: int,
    price: int,
    purchasePrice: int,
    amount: int)

  /** A payment history entry; `note` defaults to the empty string. */
  datatype Payment = Payment(amount: int, paidAt: int, note: string)

  datatype BillStatus = Pending | Partial | Paid

  datatype PaymentMethod = Cash | Upi

  datatype Bill = Bill(
    id: Id,
    owner: Id,
    customer: Id,
    billNumber: string,
    items: seq<BillLine>,
    subtotal: int,
    discount: int,
    totalAmount: int,
    receivedPayment: int,
    dueAmount: int,
    paymentMethod: PaymentMethod,
    paymentHistory: seq<Payment>,
    status: BillStatus,
    workOrderId: Option<Id>,
    createdAt: int,
    deleted: bool)

  /** The status rule shared by bill creation and payments: paid once the
      received amount covers the total, partial while something but not
      everything is received, pending before that. */
  function StatusFor(received: int, total: int): (s: BillStatus)
    ensures s == Paid <==> received >= total
    ensures s == Partial <==> 0 < received < total
    ensures s == Pending <==> received <= 0 && received < total
  {
    if received >= total then Paid
    else if received > 0 then Partial
    else Pending
  }

  /** A bill whose status and due amount agree with its total and the
      amount received: the due is what is still owed, never negative. */
  predicate Consistent(b: Bill) {
    && b.status == StatusFor(b.receivedPayment, b.totalAmount)
    && b.dueAmount == Max0(b.totalAmount - b.receivedPayment)
  }

  /** The `$gt: 0` filter on `dueAmount`: bills that still owe something. */
  predicate Owing(b: Bill) {
    b.dueAmount > 0
  }

  lemma ConsistentOwingIffUnpaid(b: Bill)
    requires Consistent(b)
    ensures Owing(b) <==> b.status != Paid
  {
  }

  function LineAmount(l: BillLine): int { l.amount }

  function BillTotal(b: Bill): int { b.totalAmount }
  function BillReceived(b: Bill): int { b.receivedPayment }
  function BillDue(b: Bill): int { b.dueAmount }
}
