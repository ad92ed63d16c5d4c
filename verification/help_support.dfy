/** Support tickets (models/HelpSupport.js): the ticket document, its
    status enum, the pre-save hook that numbers a new ticket, and the
    unique index on the ticket number that a save must respect. */
module HelpSupport {
  import opened Common
  import opened Numbering

  /** `pending` / `in-progress` / `resolved` / `closed`. */
  datatype TicketStatus = Pending | InProgress | Resolved | Closed

  const DefaultStatus: TicketStatus := Pending

  datatype Ticket = Ticket(
    id: Id,
    userId: Id,
    ticketNumber: Option<string>,
    ownerName: string,
    email: string,
    phone: string,
    alternateEmail: Option<string>,
    alternatePhone: Option<string>,
    selectedIssues: seq<string>,
    customReason: Option<string>,
    status: TicketStatus,
    createdAt: int)

  /** `countDocuments({ createdAt: { $gte: dayStart } })`: the tickets of
      every user created since the start of the day. */
  function TicketsSince(tickets: seq<Ticket>, dayStart: int): (n: nat)
    ensures n <= |tickets|
  {
    Count(tickets, (t: Ticket) => t.createdAt >= dayStart)
  }

  /** The pre-save hook. A new ticket is numbered from today's date and the
      number of tickets created today; a ticket saved again keeps its
      number. */
  function PreSave(t: Ticket, isNew: bool, tickets: seq<Ticket>, today: Date, dayStart: int): (r: Ticket)
    ensures !isNew ==> r == t
    ensures isNew ==> r == t.(ticketNumber := r.ticketNumber)
    ensures isNew ==> r.ticketNumber.Some?
                      && ParseNumber(TicketPrefix, r.ticketNumber.value)
                         == Some((IsoDayStamp(today), TicketsSince(tickets, dayStart) + 1))
  {
    if isNew then
      TicketNumberReads(today, TicketsSince(tickets, dayStart));
      t.(ticketNumber := Some(TicketNumber(today, TicketsSince(tickets, dayStart))))
    else t
  }

  /** The unique index on `ticketNumber`: no two stored tickets share one
      (a ticket without a number indexes as null, so two of those clash). */
  predicate NumbersUnique(tickets: seq<Ticket>) {
    forall i, j :: 0 <= i < j < |tickets| ==> tickets[i].ticketNumber != tickets[j].ticketNumber
  }

  predicate NumberTaken(tickets: seq<Ticket>, n: Option<string>) {
    exists i :: 0 <= i < |tickets| && tickets[i].ticketNumber == n
  }

  /** Inserting a ticket: a duplicate key makes the write fail. */
  function Insert(tickets: seq<Ticket>, t: Ticket): (r: Result<seq<Ticket>>)
    ensures r.Err? <==> NumberTaken(tickets, t.ticketNumber)
    ensures r.Ok? ==> r.value == tickets + [t]
    ensures NumbersUnique(tickets) && r.Ok? ==> NumbersUnique(r.value)
  {
    if NumberTaken(tickets, t.ticketNumber) then Err(Internal("duplicate ticket number"))
    else
      var r := tickets + [t];
      assert forall i :: 0 <= i < |tickets| ==> r[i] == tickets[i];
      Ok(r)
  }

  /** Each new ticket saved since the start of the day raises the day's
      count, so the next ticket of the day gets the following number. */
  lemma InsertAdvancesDailyCount(tickets: seq<Ticket>, t: Ticket, dayStart: int)
    requires t.createdAt >= dayStart
    requires Insert(tickets, t).Ok?
    ensures TicketsSince(Insert(tickets, t).value, dayStart) == TicketsSince(tickets, dayStart) + 1
  {
    CountAppend(tickets, [t], (x: Ticket) => x.createdAt >= dayStart);
  }

  /** Two tickets numbered on any days under different daily counts never
      share a number. */
  lemma TicketNumbersDistinct(day: Date, day': Date, c: nat, c': nat)
    requires c != c'
    ensures TicketNumber(day, c) != TicketNumber(day', c')
  {
    TicketNumberReads(day, c);
    TicketNumberReads(day', c');
  }
}
