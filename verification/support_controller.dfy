/** `submitSupportTicket` (controllers/supportController.js): validates the
    request, stores a numbered ticket and names the addresses that receive
    a confirmation. Sending the e-mails is outside the model; the list of
    recipients is its result. */
module SupportController {
  import opened Common
  import opened Text
  import opened Numbering
  import opened HelpSupport

  /** The request body; every field may be absent. */
  datatype SupportRequest = SupportRequest(
    ownerName: Option<string>,
    email: Option<string>,
    phone: Option<string>,
    alternateEmail: Option<string>,
    alternatePhone: Option<string>,
    selectedIssues: Option<seq<string>>,
    customReason: Option<string>)

  const OtherIssue: string := "Other"

  predicate ContactGiven(q: SupportRequest) {
    Truthy(q.ownerName) && Truthy(q.email) && Truthy(q.phone)
  }

  predicate IssuesGiven(q: SupportRequest) {
    q.selectedIssues.Some? && |q.selectedIssues.value| > 0
  }

  /** Choosing `Other` obliges the requester to describe it. */
  predicate OtherExplained(q: SupportRequest)
    requires IssuesGiven(q)
  {
    OtherIssue in q.selectedIssues.value ==> Truthy(q.customReason)
  }

  predicate Acceptable(q: SupportRequest) {
    ContactGiven(q) && IssuesGiven(q) && OtherExplained(q)
  }

  /** `alternateEmail && alternateEmail.trim()`. */
  predicate AlternateGiven(q: SupportRequest) {
    q.alternateEmail.Some? && Trim(q.alternateEmail.value) != ""
  }

  /** A stored ticket and the addresses its confirmation goes to. */
  datatype Receipt = Receipt(ticket: Ticket, confirmations: seq<string>)

  /** The three checks, in the order the controller makes them. */
  function Validate(q: SupportRequest): (r: Option<Error>)
    ensures r.None? <==> Acceptable(q)
    ensures !ContactGiven(q) ==> r == Some(InvalidInput("Owner name, email, and phone are required"))
    ensures ContactGiven(q) && !IssuesGiven(q) ==> r == Some(InvalidInput("Please select at least one issue"))
    ensures ContactGiven(q) && IssuesGiven(q) && !OtherExplained(q)
            ==> r == Some(InvalidInput("Please provide details for \"Other\" issue"))
  {
    if !ContactGiven(q) then Some(InvalidInput("Owner name, email, and phone are required"))
    else if !IssuesGiven(q) then Some(InvalidInput("Please select at least one issue"))
    else if !OtherExplained(q) then Some(InvalidInput("Please provide details for \"Other\" issue"))
    else None
  }

  /** The ticket built from an acceptable request, before numbering. */
  function NewTicket(id: Id, userId: Id, q: SupportRequest, now: int): (t: Ticket)
    requires Acceptable(q)
    ensures t.status == DefaultStatus && t.ticketNumber.None? && t.createdAt == now
  {
    Ticket(id, userId, None, q.ownerName.value, q.email.value, q.phone.value,
           q.alternateEmail, q.alternatePhone, q.selectedIssues.value, q.customReason,
           DefaultStatus, now)
  }

  /** The ticket `submitSupportTicket` saves: pending, carrying what was
      asked, numbered by the pre-save hook with today's stamp and one more
      than the day's count, under an id no stored ticket has. */
  function StampedTicket(tickets: seq<Ticket>, userId: Id, q: SupportRequest,
                         now: int, today: Date, dayStart: int): (t: Ticket)
    requires Acceptable(q)
    ensures t.status == Pending
    ensures t.userId == userId && t.createdAt == now
    ensures t.ownerName == q.ownerName.value && t.email == q.email.value && t.phone == q.phone.value
    ensures Some(t.selectedIssues) == q.selectedIssues && |t.selectedIssues| > 0
    ensures OtherIssue in t.selectedIssues ==> Truthy(t.customReason)
    ensures t.ticketNumber.Some?
    ensures ParseNumber(TicketPrefix, t.ticketNumber.value)
            == Some((IsoDayStamp(today), TicketsSince(tickets, dayStart) + 1))
    ensures forall i :: 0 <= i < |tickets| ==> tickets[i].id != t.id
  {
    var ids := Map(tickets, (t: Ticket) => t.id);
    assert forall i :: 0 <= i < |tickets| ==> tickets[i].id == ids[i];
    PreSave(NewTicket(FreshId(ids), userId, q, now), true, tickets, today, dayStart)
  }

  /** The addresses the confirmation goes to: the main address, and the
      alternate one exactly when it is non-blank. */
  function Confirmations(q: SupportRequest): (c: seq<string>)
    requires Acceptable(q)
    ensures 1 <= |c| <= 2 && c[0] == q.email.value
    ensures |c| == 2 <==> AlternateGiven(q)
    ensures |c| == 2 ==> c[1] == q.alternateEmail.value && Trim(c[1]) != ""
  {
    [q.email.value] + (if AlternateGiven(q) then [q.alternateEmail.value] else [])
  }

  /** `submitSupportTicket`. `now` is the creation time, `today` the date
      the number is stamped with and `dayStart` the start of the day the
      count runs from. A refused request gets the first failed check's
      error; an accepted one stores the stamped ticket, unless its number
      is taken. */
  function SubmitSupportTicket(tickets: seq<Ticket>, userId: Id, q: SupportRequest,
                               now: int, today: Date, dayStart: int): (r: Result<(seq<Ticket>, Receipt)>)
    ensures !Acceptable(q) ==> r == Err(Validate(q).value)
    ensures Acceptable(q) ==>
              var t := StampedTicket(tickets, userId, q, now, today, dayStart);
              && (r.Err? <==> NumberTaken(tickets, t.ticketNumber))
              && (r.Err? ==> r.error == Internal("Failed to submit support ticket"))
              && (r.Ok? ==> r.value == (tickets + [t], Receipt(t, Confirmations(q))))
  {
    match Validate(q)
    case Some(e) => Err(e)
    case None =>
      var t := StampedTicket(tickets, userId, q, now, today, dayStart);
      match Insert(tickets, t)
      case Err(_) => Err(Internal("Failed to submit support ticket"))
      case Ok(stored) => Ok((stored, Receipt(t, Confirmations(q))))
  }

  // ------------------------------------------------------------------ lemmas

  /** Submissions keep ticket numbers unique, and a ticket submitted today
      advances the day's count. */
  lemma SubmitKeepsNumbersUnique(tickets: seq<Ticket>, userId: Id, q: SupportRequest,
                                 now: int, today: Date, dayStart: int)
    requires NumbersUnique(tickets)
    requires now >= dayStart
    requires SubmitSupportTicket(tickets, userId, q, now, today, dayStart).Ok?
    ensures var stored := SubmitSupportTicket(tickets, userId, q, now, today, dayStart).value.0;
            && NumbersUnique(stored)
            && TicketsSince(stored, dayStart) == TicketsSince(tickets, dayStart) + 1
  {
    var r := SubmitSupportTicket(tickets, userId, q, now, today, dayStart).value;
    assert Insert(tickets, r.1.ticket) == Ok(r.0);
    InsertAdvancesDailyCount(tickets, r.1.ticket, dayStart);
  }
}
