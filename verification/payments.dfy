/** Payments against bills (controllers/billController.js):
    `updateBillPayment` records one payment on one bill, and
    `payCustomerDue` spreads one lump payment over a customer's owing
    bills, oldest first. */
module Payments {
  import opened Common
  import opened Sorting
  import opened BillModel
  import opened Records

  /** `Bill.findOne({ _id, createdBy, deleted: false })`. */
  function FindLiveBill(bills: seq<Bill>, owner: Id, id: Id): (r: Option<nat>)
    ensures r.Some? ==> r.value < |bills| && bills[r.value].id == id
                        && bills[r.value].owner == owner && !bills[r.value].deleted
    ensures r.None? <==> forall k :: 0 <= k < |bills| ==>
              !(bills[k].id == id && bills[k].owner == owner && !bills[k].deleted)
  {
    FindIndex(bills, (b: Bill) => b.id == id && b.owner == owner && !b.deleted)
  }

  /** `note || ''`. */
  function NoteOrEmpty(note: Option<string>): string {
    if note.Some? then note.value else ""
  }

  /** `!amount || amount <= 0`: a missing, zero or negative amount. */
  predicate InvalidAmount(amount: Option<int>) {
    amount.None? || amount.value <= 0
  }

  // -------------------------------------------------------- updateBillPayment

  /** One payment recorded on a bill: the history grows by the payment, the
      received amount by its amount, and the due becomes what the total
      still exceeds the received amount by, never less than zero. */
  function RecordPayment(b: Bill, amount: int, note: string, now: int): (r: Bill)
    ensures r.receivedPayment == b.receivedPayment + amount
    ensures r.dueAmount == Max0(r.totalAmount - r.receivedPayment)
    ensures r.paymentHistory == b.paymentHistory + [Payment(amount, now, note)]
    ensures r.receivedPayment >= r.totalAmount ==> r.status == Paid
    ensures 0 < r.receivedPayment < r.totalAmount ==> r.status == Partial
    ensures r.receivedPayment <= 0 && r.receivedPayment < r.totalAmount ==> r.status == b.status
    ensures r.totalAmount == b.totalAmount && r.items == b.items && r.id == b.id && r.owner == b.owner
    ensures r.customer == b.customer && r.createdAt == b.createdAt && r.deleted == b.deleted
  {
    var received := b.receivedPayment + amount;
    var b' := b.(paymentHistory := b.paymentHistory + [Payment(amount, now, note)],
                 receivedPayment := received,
                 dueAmount := b.totalAmount - received);
    if received >= b.totalAmount then b'.(status := Paid, dueAmount := 0)
    else if received > 0 then b'.(status := Partial)
    else b'
  }

  /** A positive payment keeps a bill consistent. */
  lemma RecordPaymentKeepsConsistent(b: Bill, amount: int, note: string, now: int)
    requires Consistent(b) && amount > 0
    ensures Consistent(RecordPayment(b, amount, note, now))
  {
  }

  /** `updateBillPayment`. */
  function UpdateBillPayment(bills: seq<Bill>, owner: Id, id: Id, amount: Option<int>,
                             note: Option<string>, now: int): (r: Result<seq<Bill>>)
    ensures InvalidAmount(amount) ==> r == Err(InvalidInput("Valid payment amount is required"))
    ensures !InvalidAmount(amount) && FindLiveBill(bills, owner, id).None? ==> r == Err(NotFound("Bill"))
    ensures r.Ok? <==> !InvalidAmount(amount) && FindLiveBill(bills, owner, id).Some?
    ensures r.Ok? ==> |r.value| == |bills|
    ensures r.Ok? ==>
              var k := FindLiveBill(bills, owner, id).value;
              && r.value[k] == RecordPayment(bills[k], amount.value, NoteOrEmpty(note), now)
              && forall j :: 0 <= j < |bills| && j != k ==> r.value[j] == bills[j]
  {
    if InvalidAmount(amount) then Err(InvalidInput("Valid payment amount is required"))
    else match FindLiveBill(bills, owner, id)
      case None => Err(NotFound("Bill"))
      case Some(k) => Ok(bills[k := RecordPayment(bills[k], amount.value, NoteOrEmpty(note), now)])
  }

  /** Every bill that was consistent before `updateBillPayment` still is. */
  lemma UpdateBillPaymentKeepsConsistent(bills: seq<Bill>, owner: Id, id: Id, amount: Option<int>,
                                         note: Option<string>, now: int)
    requires forall j :: 0 <= j < |bills| ==> Consistent(bills[j])
    requires UpdateBillPayment(bills, owner, id, amount, note, now).Ok?
    ensures var r := UpdateBillPayment(bills, owner, id, amount, note, now).value;
            forall j :: 0 <= j < |r| ==> Consistent(r[j])
  {
    var k := FindLiveBill(bills, owner, id).value;
    RecordPaymentKeepsConsistent(bills[k], amount.value, NoteOrEmpty(note), now);
  }

  // ------------------------------------------------------ FIFO allocation

  /** The water-filling loop: walking the dues in order, each bill takes
      `min(due, remaining)` until nothing remains. The result lists the
      amounts given to the bills touched, in order. */
  function Allocate(dues: seq<int>, remaining: int): (r: seq<int>)
    requires forall i :: 0 <= i < |dues| ==> dues[i] > 0
    ensures |r| <= |dues|
    ensures forall i :: 0 <= i < |r| ==> 0 < r[i] <= dues[i]
  {
    if |dues| == 0 || remaining <= 0 then []
    else
      var a := Min(dues[0], remaining);
      [a] + Allocate(dues[1..], remaining - a)
  }

  /** An amount as itself, for summing a list of amounts. */
  function Identity(x: int): int { x }

  /** The amounts given out add up to the payment, when the payment does
      not exceed the total due (and to the total due otherwise). */
  lemma {:induction false} AllocateSum(dues: seq<int>, remaining: int)
    requires forall i :: 0 <= i < |dues| ==> dues[i] > 0
    requires remaining >= 0
    ensures SumOf(Allocate(dues, remaining), Identity) == Min(remaining, SumOf(dues, Identity))
  {
    if |dues| > 0 && remaining > 0 {
      var a := Min(dues[0], remaining);
      AllocateSum(dues[1..], remaining - a);
      SumOfNonNegative(dues[1..], Identity);
    } else if |dues| > 0 {
      SumOfNonNegative(dues, Identity);
    }
  }

  /** Every bill but the last one touched is paid off in full. */
  lemma {:induction false} AllocateFillsInOrder(dues: seq<int>, remaining: int)
    requires forall i :: 0 <= i < |dues| ==> dues[i] > 0
    ensures var r := Allocate(dues, remaining);
            forall i :: 0 <= i < |r| - 1 ==> r[i] == dues[i]
  {
    if |dues| > 0 && remaining > 0 {
      var a := Min(dues[0], remaining);
      AllocateFillsInOrder(dues[1..], remaining - a);
      var rest := Allocate(dues[1..], remaining - a);
      if |rest| > 0 {
        assert a == dues[0];
      }
    }
  }

  /** What the dues before position `i` add up to. */
  function PaidBefore(dues: seq<int>, i: nat): int
    requires i <= |dues|
  {
    SumOf(dues[..i], Identity)
  }

  lemma PaidBeforeCons(dues: seq<int>, i: nat)
    requires 0 < i <= |dues|
    ensures PaidBefore(dues, i) == dues[0] + PaidBefore(dues[1..], i - 1)
  {
    assert dues[..i][1..] == dues[1..][..i - 1];
  }

  /** The allocation in closed form: bill `i` is reached only while the
      payment exceeds what the earlier bills owe, and receives the smaller
      of its due and what is left over. */
  lemma {:induction false} AllocateAt(dues: seq<int>, remaining: int, i: nat)
    requires forall k :: 0 <= k < |dues| ==> dues[k] > 0
    requires i < |Allocate(dues, remaining)|
    ensures PaidBefore(dues, i) < remaining
    ensures Allocate(dues, remaining)[i] == Min(dues[i], remaining - PaidBefore(dues, i))
  {
    if i == 0 {
      assert dues[..0] == [];
    } else {
      var a := Min(dues[0], remaining);
      AllocateFillsInOrder(dues, remaining);
      AllocateAt(dues[1..], remaining - a, i - 1);
      PaidBeforeCons(dues, i);
    }
  }

  /** The walk stops short of the last bill only when what it has paid off
      covers the payment. */
  lemma {:induction false} AllocateStops(dues: seq<int>, remaining: int)
    requires forall k :: 0 <= k < |dues| ==> dues[k] > 0
    ensures var n := |Allocate(dues, remaining)|;
            n < |dues| ==> PaidBefore(dues, n) >= remaining
  {
    if |dues| == 0 || remaining <= 0 {
      assert dues[..0] == [];
    } else {
      var a := Min(dues[0], remaining);
      var n := |Allocate(dues, remaining)|;
      AllocateStops(dues[1..], remaining - a);
      PaidBeforeCons(dues, n);
      if |Allocate(dues[1..], remaining - a)| == 0 && n < |dues| {
        assert dues[1..][..0] == [];
      }
    }
  }

  /** The worked example: 120 over dues 100, 50 and 200 pays off the first
      bill and puts 20 on the second; the third is not touched. */
  lemma AllocateExample()
    ensures Allocate([100, 50, 200], 120) == [100, 20]
  {
    assert [100, 50, 200][1..] == [50, 200];
    assert [50, 200][1..] == [200];
  }

  // ------------------------------------------------------------- the queue

  /** The query of `payCustomerDue`: the customer's bills of this owner that
      still owe something and are not deleted. */
  predicate InQueue(b: Bill, owner: Id, customer: Id) {
    b.customer == customer && b.owner == owner && b.dueAmount > 0 && !b.deleted
  }

  /** Indices from `i` on of the bills the query finds, in store order. */
  function OwingFrom(bills: seq<Bill>, owner: Id, customer: Id, i: nat): (r: seq<nat>)
    ensures forall k :: 0 <= k < |r| ==> i <= r[k] < |bills| && InQueue(bills[r[k]], owner, customer)
    ensures forall j :: i <= j < |bills| && InQueue(bills[j], owner, customer) ==> j in r
    ensures forall k, l :: 0 <= k < l < |r| ==> r[k] < r[l]
    decreases |bills| - i
  {
    if i >= |bills| then []
    else (if InQueue(bills[i], owner, customer) then [i] else []) + OwingFrom(bills, owner, customer, i + 1)
  }

  function CreatedAt(bills: seq<Bill>, i: nat): int {
    if i < |bills| then bills[i].createdAt else 0
  }

  function DueAt(bills: seq<Bill>, i: nat): int {
    if i < |bills| then bills[i].dueAmount else 0
  }

  /** `.sort({ createdAt: 1 })`: oldest first. */
  function OldestFirst(bills: seq<Bill>): (nat, nat) -> bool {
    (x: nat, y: nat) => CreatedAt(bills, x) <= CreatedAt(bills, y)
  }

  lemma OldestFirstIsTotal(bills: seq<Bill>)
    ensures TotalPreorder(OldestFirst(bills))
  {
  }

  /** The bills `payCustomerDue` walks, as indices into the store, oldest first. */
  function DueQueue(bills: seq<Bill>, owner: Id, customer: Id): (q: seq<nat>)
    ensures multiset(q) == multiset(OwingFrom(bills, owner, customer, 0))
    ensures SortedBy(q, OldestFirst(bills))
  {
    OldestFirstIsTotal(bills);
    SortBy(OwingFrom(bills, owner, customer, 0), OldestFirst(bills))
  }

  /** A sequence with no repeats has every value at most once. */
  lemma {:induction false} DistinctCounts<T>(s: seq<T>, x: T)
    requires Distinct(s)
    ensures multiset(s)[x] <= 1
  {
    if |s| > 0 {
      var init := s[..|s| - 1];
      assert s == init + [s[|s| - 1]];
      assert Distinct(init);
      DistinctCounts(init, x);
      if x == s[|s| - 1] {
        assert x !in init;
      }
    }
  }

  /** Reordering a sequence without repeats gives a sequence without repeats. */
  lemma DistinctPermutation<T>(a: seq<T>, b: seq<T>)
    requires Distinct(a) && multiset(a) == multiset(b)
    ensures Distinct(b)
  {
    forall i, j | 0 <= i < j < |b| ensures b[i] != b[j] {
      if b[i] == b[j] {
        var x := b[i];
        assert b == b[..j] + [b[j]] + b[j + 1..];
        assert x in b[..j];
        assert multiset(b)[x] >= 2;
        DistinctCounts(a, x);
      }
    }
  }

  /** The queue lists the owing bills of the customer, each once. */
  lemma DueQueueFacts(bills: seq<Bill>, owner: Id, customer: Id)
    ensures var q := DueQueue(bills, owner, customer);
            && Distinct(q)
            && (forall k :: 0 <= k < |q| ==> q[k] < |bills| && InQueue(bills[q[k]], owner, customer))
            && (forall j :: 0 <= j < |bills| && InQueue(bills[j], owner, customer) ==> j in q)
  {
    var c := OwingFrom(bills, owner, customer, 0);
    var q := DueQueue(bills, owner, customer);
    DistinctPermutation(c, q);
    forall k | 0 <= k < |q| ensures q[k] < |bills| && InQueue(bills[q[k]], owner, customer) {
      assert q[k] in multiset(c);
    }
    forall j | 0 <= j < |bills| && InQueue(bills[j], owner, customer) ensures j in q {
      assert j in multiset(q);
    }
  }

  // ---------------------------------------------------------- payCustomerDue

  /** One bill's share of a lump payment: history, received and due move by
      the share; a bill whose due reaches zero is paid and its due pinned to
      zero, otherwise it is partial once something has been received. */
  function SharePayment(b: Bill, share: int, note: string, now: int): (r: Bill)
    ensures r.receivedPayment == b.receivedPayment + share
    ensures r.dueAmount == Max0(b.dueAmount - share)
    ensures r.paymentHistory == b.paymentHistory + [Payment(share, now, note)]
    ensures b.dueAmount - share <= 0 ==> r.status == Paid
    ensures b.dueAmount - share > 0 && r.receivedPayment > 0 ==> r.status == Partial
    ensures b.dueAmount - share > 0 && r.receivedPayment <= 0 ==> r.status == b.status
    ensures r.totalAmount == b.totalAmount && r.id == b.id && r.owner == b.owner
    ensures r.customer == b.customer && r.createdAt == b.createdAt && r.deleted == b.deleted
  {
    var b' := b.(paymentHistory := b.paymentHistory + [Payment(share, now, note)],
                 receivedPayment := b.receivedPayment + share,
                 dueAmount := b.dueAmount - share);
    if b'.dueAmount <= 0 then b'.(status := Paid, dueAmount := 0)
    else if b'.receivedPayment > 0 then b'.(status := Partial)
    else b'
  }

  /** On a consistent bill, a share no larger than the due is the same as
      recording that payment on its own, so the bill stays consistent. */
  lemma SharePaymentAgreesWithRecord(b: Bill, share: int, note: string, now: int)
    requires Consistent(b) && 0 < share <= b.dueAmount
    ensures SharePayment(b, share, note, now) == RecordPayment(b, share, note, now)
    ensures Consistent(SharePayment(b, share, note, now))
  {
    RecordPaymentKeepsConsistent(b, share, note, now);
  }

  /** The bills after the shares are written back, one `save` per bill. */
  function ApplyShares(bills: seq<Bill>, queue: seq<nat>, shares: seq<int>, note: string, now: int)
    : (r: seq<Bill>)
    requires |shares| <= |queue|
    requires forall k :: 0 <= k < |queue| ==> queue[k] < |bills|
    ensures |r| == |bills|
    decreases |shares|
  {
    if |shares| == 0 then bills
    else
      var i := queue[0];
      ApplyShares(bills[i := SharePayment(bills[i], shares[0], note, now)], queue[1..], shares[1..], note, now)
  }

  /** The bills the rest of the queue touches still owe at least their
      shares once the first share is written. */
  lemma RestOfQueueOwes(bills: seq<Bill>, queue: seq<nat>, shares: seq<int>, note: string, now: int)
    requires 0 < |shares| <= |queue| && Distinct(queue)
    requires forall k :: 0 <= k < |queue| ==> queue[k] < |bills|
    requires forall k :: 0 <= k < |shares| ==> 0 < shares[k] <= bills[queue[k]].dueAmount
    ensures var bills' := bills[queue[0] := SharePayment(bills[queue[0]], shares[0], note, now)];
            && Distinct(queue[1..])
            && (forall k :: 0 <= k < |queue[1..]| ==> queue[1..][k] < |bills'|)
            && (forall k :: 0 <= k < |shares[1..]| ==> 0 < shares[1..][k] <= bills'[queue[1..][k]].dueAmount)
  {
    var bills' := bills[queue[0] := SharePayment(bills[queue[0]], shares[0], note, now)];
    forall k | 0 <= k < |shares[1..]|
      ensures 0 < shares[1..][k] <= bills'[queue[1..][k]].dueAmount
    {
      assert queue[1..][k] == queue[k + 1] != queue[0];
    }
  }

  /** Writing back shares no larger than the dues lowers the total due of
      the store by exactly the sum of the shares and raises the total
      received by the same. */
  lemma {:induction false} ApplySharesSums(bills: seq<Bill>, queue: seq<nat>, shares: seq<int>,
                                           note: string, now: int)
    requires |shares| <= |queue| && Distinct(queue)
    requires forall k :: 0 <= k < |queue| ==> queue[k] < |bills|
    requires forall k :: 0 <= k < |shares| ==> 0 < shares[k] <= bills[queue[k]].dueAmount
    ensures var r := ApplyShares(bills, queue, shares, note, now);
            && SumOf(r, BillDue) == SumOf(bills, BillDue) - SumOf(shares, Identity)
            && SumOf(r, BillReceived) == SumOf(bills, BillReceived) + SumOf(shares, Identity)
    decreases |shares|
  {
    if |shares| > 0 {
      var i := queue[0];
      var b' := SharePayment(bills[i], shares[0], note, now);
      var bills' := bills[i := b'];
      SumOfUpdate(bills, i, b', BillDue);
      SumOfUpdate(bills, i, b', BillReceived);
      RestOfQueueOwes(bills, queue, shares, note, now);
      ApplySharesSums(bills', queue[1..], shares[1..], note, now);
    }
  }

  /** Writing back shares touches only the bills of the used part of the
      queue, and lowers each of their dues by its share. */
  lemma {:induction false} ApplySharesFrame(bills: seq<Bill>, queue: seq<nat>, shares: seq<int>,
                                            note: string, now: int)
    requires |shares| <= |queue| && Distinct(queue)
    requires forall k :: 0 <= k < |queue| ==> queue[k] < |bills|
    requires forall k :: 0 <= k < |shares| ==> 0 < shares[k] <= bills[queue[k]].dueAmount
    ensures var r := ApplyShares(bills, queue, shares, note, now);
            && (forall j :: 0 <= j < |bills| && j !in queue[..|shares|] ==> r[j] == bills[j])
            && (forall k :: 0 <= k < |shares| ==> r[queue[k]].dueAmount == bills[queue[k]].dueAmount - shares[k])
    decreases |shares|
  {
    if |shares| > 0 {
      var i := queue[0];
      var bills' := bills[i := SharePayment(bills[i], shares[0], note, now)];
      RestOfQueueOwes(bills, queue, shares, note, now);
      ApplySharesFrame(bills', queue[1..], shares[1..], note, now);
      var r := ApplyShares(bills, queue, shares, note, now);
      assert r == ApplyShares(bills', queue[1..], shares[1..], note, now);
      assert queue[..|shares|] == [i] + queue[1..][..|shares| - 1];
      forall k | 0 <= k < |shares|
        ensures r[queue[k]].dueAmount == bills[queue[k]].dueAmount - shares[k]
      {
        if k == 0 {
          assert queue[0] !in queue[1..][..|shares| - 1];
        } else {
          assert queue[k] == queue[1..][k - 1];
          assert shares[k] == shares[1..][k - 1];
        }
      }
    }
  }

  /** Writing back shares leaves the `k`-th queued bill as that bill with
      the `k`-th share recorded on it. */
  lemma {:induction false} ApplySharesWrites(bills: seq<Bill>, queue: seq<nat>, shares: seq<int>,
                                             note: string, now: int)
    requires |shares| <= |queue| && Distinct(queue)
    requires forall k :: 0 <= k < |queue| ==> queue[k] < |bills|
    requires forall k :: 0 <= k < |shares| ==> 0 < shares[k] <= bills[queue[k]].dueAmount
    ensures var r := ApplyShares(bills, queue, shares, note, now);
            forall k :: 0 <= k < |shares| ==> r[queue[k]] == SharePayment(bills[queue[k]], shares[k], note, now)
    decreases |shares|
  {
    if |shares| > 0 {
      var i := queue[0];
      var bills' := bills[i := SharePayment(bills[i], shares[0], note, now)];
      RestOfQueueOwes(bills, queue, shares, note, now);
      ApplySharesWrites(bills', queue[1..], shares[1..], note, now);
      ApplySharesFrame(bills', queue[1..], shares[1..], note, now);
      var r := ApplyShares(bills, queue, shares, note, now);
      assert r == ApplyShares(bills', queue[1..], shares[1..], note, now);
      forall k | 0 <= k < |shares|
        ensures r[queue[k]] == SharePayment(bills[queue[k]], shares[k], note, now)
      {
        if k == 0 {
          assert i !in queue[1..][..|shares| - 1];
        } else {
          assert queue[k] == queue[1..][k - 1] != i;
          assert shares[k] == shares[1..][k - 1];
        }
      }
    }
  }

  /** Writing back shares no larger than the dues lowers the total due of
      the store by exactly the sum of the shares, raises the total received
      by the same, leaves every bill outside the touched part of the queue
      as it was, and leaves no due negative. */
  lemma ApplySharesEffect(bills: seq<Bill>, queue: seq<nat>, shares: seq<int>, note: string, now: int)
    requires |shares| <= |queue| && Distinct(queue)
    requires forall k :: 0 <= k < |queue| ==> queue[k] < |bills|
    requires forall k :: 0 <= k < |shares| ==> 0 < shares[k] <= bills[queue[k]].dueAmount
    ensures var r := ApplyShares(bills, queue, shares, note, now);
            && SumOf(r, BillDue) == SumOf(bills, BillDue) - SumOf(shares, Identity)
            && SumOf(r, BillReceived) == SumOf(bills, BillReceived) + SumOf(shares, Identity)
            && (forall j :: 0 <= j < |bills| && j !in queue[..|shares|] ==> r[j] == bills[j])
            && (forall k :: 0 <= k < |shares| ==> r[queue[k]].dueAmount == bills[queue[k]].dueAmount - shares[k])
  {
    ApplySharesSums(bills, queue, shares, note, now);
    ApplySharesFrame(bills, queue, shares, note, now);
  }

  /** The dues of the queued bills, in queue order. */
  function QueueDues(bills: seq<Bill>, queue: seq<nat>): (r: seq<int>)
    ensures |r| == |queue|
    ensures forall k :: 0 <= k < |queue| ==> r[k] == DueAt(bills, queue[k])
  {
    Map(queue, (i: nat) => DueAt(bills, i))
  }

  /** A queue of owing bills of the store. */
  predicate OwingQueue(bills: seq<Bill>, queue: seq<nat>) {
    forall k :: 0 <= k < |queue| ==> queue[k] < |bills| && bills[queue[k]].dueAmount > 0
  }

  /** The part of `payCustomerDue` after the queue is fetched: refuse an
      empty queue or an amount beyond the total due, otherwise allocate and
      write back. */
  function PayQueue(bills: seq<Bill>, queue: seq<nat>, amount: int, note: string, now: int)
    : (r: Result<(seq<Bill>, seq<nat>)>)
    requires OwingQueue(bills, queue)
    ensures |queue| == 0 ==> r == Err(InvalidInput("No pending bills found for this customer"))
    ensures |queue| > 0 && amount > SumOf(QueueDues(bills, queue), Identity) ==>
              r == Err(LimitExceeded(amount, SumOf(QueueDues(bills, queue), Identity)))
    ensures |queue| > 0 && amount <= SumOf(QueueDues(bills, queue), Identity) ==> r.Ok?
    ensures r.Ok? ==> |r.value.0| == |bills|
  {
    if |queue| == 0 then Err(InvalidInput("No pending bills found for this customer"))
    else
      var dues := QueueDues(bills, queue);
      var totalDue := SumOf(dues, Identity);
      if amount > totalDue then Err(LimitExceeded(amount, totalDue))
      else
        var shares := Allocate(dues, amount);
        Ok((ApplyShares(bills, queue, shares, note, now), queue[..|shares|]))
  }

  /** A successful payment over a queue without repeats takes exactly the
      amount off the total due and adds it to the total received, touches
      only the bills it reports, each a queued bill, and leaves no due
      negative. */
  lemma PayQueueConserves(bills: seq<Bill>, queue: seq<nat>, amount: int, note: string, now: int)
    requires OwingQueue(bills, queue) && Distinct(queue) && amount > 0
    requires PayQueue(bills, queue, amount, note, now).Ok?
    ensures var r := PayQueue(bills, queue, amount, note, now).value;
            && SumOf(r.0, BillDue) == SumOf(bills, BillDue) - amount
            && SumOf(r.0, BillReceived) == SumOf(bills, BillReceived) + amount
            && (forall j :: 0 <= j < |bills| && j !in r.1 ==> r.0[j] == bills[j])
            && (forall k :: 0 <= k < |r.1| ==> r.1[k] in queue && r.0[r.1[k]].dueAmount >= 0)
  {
    var dues := QueueDues(bills, queue);
    var shares := Allocate(dues, amount);
    AllocateSum(dues, amount);
    ApplySharesEffect(bills, queue, shares, note, now);
  }

  /** A successful payment walks the queue as `Allocate` does: it reports
      the queued bills the allocation reaches, in queue order, and records
      on each exactly its share. */
  lemma PayQueueAllocates(bills: seq<Bill>, queue: seq<nat>, amount: int, note: string, now: int)
    requires OwingQueue(bills, queue) && Distinct(queue)
    requires PayQueue(bills, queue, amount, note, now).Ok?
    ensures var s := Allocate(QueueDues(bills, queue), amount);
            var r := PayQueue(bills, queue, amount, note, now).value;
            && r.1 == queue[..|s|]
            && (forall k :: 0 <= k < |s| ==> r.0[queue[k]] == SharePayment(bills[queue[k]], s[k], note, now))
  {
    var s := Allocate(QueueDues(bills, queue), amount);
    ApplySharesWrites(bills, queue, s, note, now);
  }

  /** `payCustomerDue`: the new bill store and the indices of the bills
      touched, in the order they were paid. */
  function PayCustomerDue(customers: seq<Customer>, bills: seq<Bill>, owner: Id, customerId: Id,
                          amount: Option<int>, note: Option<string>, now: int)
    : (r: Result<(seq<Bill>, seq<nat>)>)
    ensures InvalidAmount(amount) ==> r == Err(InvalidInput("Valid payment amount is required"))
    ensures !InvalidAmount(amount) && FindLiveCustomer(customers, owner, customerId).None?
            ==> r == Err(NotFound("Customer"))
    ensures !InvalidAmount(amount) && FindLiveCustomer(customers, owner, customerId).Some?
            ==> && OwingQueue(bills, DueQueue(bills, owner, customerId))
                && r == PayQueue(bills, DueQueue(bills, owner, customerId), amount.value, NoteOrEmpty(note), now)
  {
    if InvalidAmount(amount) then Err(InvalidInput("Valid payment amount is required"))
    else if FindLiveCustomer(customers, owner, customerId).None? then Err(NotFound("Customer"))
    else
      DueQueueFacts(bills, owner, customerId);
      PayQueue(bills, DueQueue(bills, owner, customerId), amount.value, NoteOrEmpty(note), now)
  }

  /** The customer's total due as the controller computes it: the sum of
      the dues of the queued bills. */
  function TotalDue(bills: seq<Bill>, owner: Id, customerId: Id): int {
    SumOf(QueueDues(bills, DueQueue(bills, owner, customerId)), Identity)
  }

  /** `payCustomerDue` is refused, before anything is written, exactly when
      the customer has no owing bill or the amount exceeds their total due. */
  lemma PayCustomerDueRefusals(customers: seq<Customer>, bills: seq<Bill>, owner: Id, customerId: Id,
                               amount: Option<int>, note: Option<string>, now: int)
    requires !InvalidAmount(amount) && FindLiveCustomer(customers, owner, customerId).Some?
    ensures var r := PayCustomerDue(customers, bills, owner, customerId, amount, note, now);
            var none := forall j :: 0 <= j < |bills| ==> !InQueue(bills[j], owner, customerId);
            && (none ==> r == Err(InvalidInput("No pending bills found for this customer")))
            && (!none && amount.value > TotalDue(bills, owner, customerId) ==>
                  r == Err(LimitExceeded(amount.value, TotalDue(bills, owner, customerId))))
            && (!none && amount.value <= TotalDue(bills, owner, customerId) ==> r.Ok?)
  {
    DueQueueFacts(bills, owner, customerId);
    var q := DueQueue(bills, owner, customerId);
    if !forall j :: 0 <= j < |bills| ==> !InQueue(bills[j], owner, customerId) {
      var j :| 0 <= j < |bills| && InQueue(bills[j], owner, customerId);
      assert j in q;
    }
  }

  /** A successful `payCustomerDue` takes exactly `amount` off the store's
      total due and adds it to the total received, touches only bills of
      the customer's queue, which it reports, and leaves no due negative. */
  lemma PayCustomerDueConserves(customers: seq<Customer>, bills: seq<Bill>, owner: Id, customerId: Id,
                                amount: Option<int>, note: Option<string>, now: int)
    requires PayCustomerDue(customers, bills, owner, customerId, amount, note, now).Ok?
    ensures var r := PayCustomerDue(customers, bills, owner, customerId, amount, note, now).value;
            && SumOf(r.0, BillDue) == SumOf(bills, BillDue) - amount.value
            && SumOf(r.0, BillReceived) == SumOf(bills, BillReceived) + amount.value
            && (forall j :: 0 <= j < |bills| && j !in r.1 ==> r.0[j] == bills[j])
            && (forall k :: 0 <= k < |r.1| ==>
                  InQueue(bills[r.1[k]], owner, customerId) && r.0[r.1[k]].dueAmount >= 0)
  {
    var queue := DueQueue(bills, owner, customerId);
    DueQueueFacts(bills, owner, customerId);
    PayQueueConserves(bills, queue, amount.value, NoteOrEmpty(note), now);
  }

  /** The store `r.0` and the report `r.1` are what paying `amount` over
      the queue `q` oldest first gives: the bills reported are the prefix of
      `q` the allocation reaches, each carries its share, every one but the
      last is paid off, and they were created in the order they were paid. */
  predicate PaysOldestFirst(bills: seq<Bill>, q: seq<nat>, amount: int, note: string, now: int,
                            r: (seq<Bill>, seq<nat>))
    requires OwingQueue(bills, q)
  {
    var s := Allocate(QueueDues(bills, q), amount);
    && |s| <= |q| && |r.0| == |bills|
    && r.1 == q[..|s|]
    && (forall k :: 0 <= k < |s| ==> r.0[q[k]] == SharePayment(bills[q[k]], s[k], note, now))
    && (forall k :: 0 <= k < |s| - 1 ==> r.0[q[k]].dueAmount == 0)
    && (forall k, l :: 0 <= k < l < |s| ==> bills[q[k]].createdAt <= bills[q[l]].createdAt)
  }

  /** A successful `payCustomerDue` pays the customer's owing bills oldest
      first, as `PaysOldestFirst` describes. */
  lemma PayCustomerDuePaysOldestFirst(customers: seq<Customer>, bills: seq<Bill>, owner: Id, customerId: Id,
                                      amount: Option<int>, note: Option<string>, now: int)
    requires PayCustomerDue(customers, bills, owner, customerId, amount, note, now).Ok?
    ensures !InvalidAmount(amount)
    ensures OwingQueue(bills, DueQueue(bills, owner, customerId))
    ensures PaysOldestFirst(bills, DueQueue(bills, owner, customerId), amount.value, NoteOrEmpty(note), now,
                            PayCustomerDue(customers, bills, owner, customerId, amount, note, now).value)
  {
    var q := DueQueue(bills, owner, customerId);
    var dues := QueueDues(bills, q);
    var s := Allocate(dues, amount.value);
    var note' := NoteOrEmpty(note);
    assert FindLiveCustomer(customers, owner, customerId).Some?;
    var r := PayQueue(bills, q, amount.value, note', now);
    assert PayCustomerDue(customers, bills, owner, customerId, amount, note, now) == r;
    DueQueueFacts(bills, owner, customerId);
    PayQueueAllocates(bills, q, amount.value, note', now);
    PaidOffBeforeLast(bills, q, dues, amount.value, note', now);
    QueuePrefixOldestFirst(bills, q, |s|);
  }

  /** Every bill the allocation reaches, but the last, ends with no due. */
  lemma PaidOffBeforeLast(bills: seq<Bill>, q: seq<nat>, dues: seq<int>, amount: int, note: string, now: int)
    requires OwingQueue(bills, q) && dues == QueueDues(bills, q)
    ensures var s := Allocate(dues, amount);
            forall k :: 0 <= k < |s| - 1 ==> SharePayment(bills[q[k]], s[k], note, now).dueAmount == 0
  {
    AllocateFillsInOrder(dues, amount);
  }

  /** A prefix of the queue is in creation order. */
  lemma QueuePrefixOldestFirst(bills: seq<Bill>, q: seq<nat>, n: nat)
    requires SortedBy(q, OldestFirst(bills)) && n <= |q|
    requires forall k :: 0 <= k < |q| ==> q[k] < |bills|
    ensures forall k, l :: 0 <= k < l < n ==> bills[q[k]].createdAt <= bills[q[l]].createdAt
  {
    forall k, l | 0 <= k < l < n ensures bills[q[k]].createdAt <= bills[q[l]].createdAt {
      assert OldestFirst(bills)(q[k], q[l]);
    }
  }
}
