/**
 * The refund request page of `src/pages/ProcessRefund.js`: looking a ticket up by its ID,
 * validating the request on submit, the 72-hour eligibility rule and the 15% admin fee
 * charged to buyers who are not registered.
 *
 * Times are integer milliseconds since the epoch; the current time is a parameter.
 */
module ProcessRefund {
  import opened Wrappers

  const MsPerHour: int := 1000 * 60 * 60
  const MinHoursBeforeShowtime: real := 72.0
  const AdminFeeRate: real := 0.15
  const CancelledStatus: string := "Cancelled"

  const InvalidTicketError: string := "Invalid Ticket ID"
  const AlreadyCancelledError: string := "Refund is not allowed. This ticket has already been cancelled."
  const FillAllFieldsError: string := "Please fill in all fields"
  const TooLateError: string := "Refunds can only be requested at least 72 hours before the showtime."

  datatype Ticket = Ticket(
    ticketID: string,
    movieTitle: string,
    showtime: int,
    price: real,
    purchaseDate: int,
    isRegisteredUser: bool,
    status: string)

  /** The page's three tickets (showtimes 2024-11-28T16:30Z and 2024-11-25T14:00Z). */
  const MockTickets: seq<Ticket> := [
    Ticket("001", "The Great Gatsby", 1732811400000, 19.0, 1731628800000, false, "Valid"),
    Ticket("002", "Wall-E", 1732543200000, 15.0, 1731369600000, true, "Cancelled"),
    Ticket("003", "Wall-E", 1732543200000, 15.0, 1731369600000, true, "Valid")
  ]

  // ---------------------------------------------------------------------------
  // Looking a ticket up

  /** `tickets.find(ticket => ticket.ticketID === id)`: the first ticket with that ID. */
  function FindTicket(tickets: seq<Ticket>, id: string): (found: Option<Ticket>)
    ensures found.None? <==> forall k :: 0 <= k < |tickets| ==> tickets[k].ticketID != id
    ensures found.Some? ==> exists k :: FirstWithID(tickets, id, k) && tickets[k] == found.value
  {
    if tickets == [] then None
    else if tickets[0].ticketID == id then
      assert FirstWithID(tickets, id, 0);
      Some(tickets[0])
    else
      var rest := FindTicket(tickets[1..], id);
      assert forall k :: FirstWithID(tickets[1..], id, k) ==> FirstWithID(tickets, id, k + 1);
      rest
  }

  /** Index k holds the first ticket whose ID is `id`. */
  ghost predicate FirstWithID(tickets: seq<Ticket>, id: string, k: int)
  {
    && 0 <= k < |tickets|
    && tickets[k].ticketID == id
    && forall j :: 0 <= j < k ==> tickets[j].ticketID != id
  }

  datatype LookupOutcome = NoMatch | AlreadyCancelled | Selected(ticket: Ticket)

  /** The three outcomes of entering a ticket ID. */
  function Lookup(tickets: seq<Ticket>, id: string): (outcome: LookupOutcome)
    ensures outcome.NoMatch? <==> forall k :: 0 <= k < |tickets| ==> tickets[k].ticketID != id
    ensures outcome.AlreadyCancelled? <==>
      exists k :: FirstWithID(tickets, id, k) && tickets[k].status == CancelledStatus
    ensures outcome.Selected? ==>
      outcome.ticket.status != CancelledStatus &&
      exists k :: FirstWithID(tickets, id, k) && tickets[k] == outcome.ticket
  {
    match FindTicket(tickets, id)
    case None => NoMatch
    case Some(t) =>
      FirstWithIDUnique(tickets, id);
      if t.status == CancelledStatus then AlreadyCancelled else Selected(t)
  }

  /** Only one index can hold the first match. */
  lemma FirstWithIDUnique(tickets: seq<Ticket>, id: string)
    ensures forall i, j :: FirstWithID(tickets, id, i) && FirstWithID(tickets, id, j) ==> i == j
  {
  }

  /** What the page's own tickets give: "002" is cancelled, "001" is a guest's $19 ticket, and
      an ID it does not hold is invalid. */
  lemma MockLookups()
    ensures Lookup(MockTickets, "002") == AlreadyCancelled
    ensures Lookup(MockTickets, "001") == Selected(MockTickets[0])
    ensures Lookup(MockTickets, "003") == Selected(MockTickets[2])
    ensures Lookup(MockTickets, "004") == NoMatch
  {
    assert MockTickets[0].ticketID == "001" && MockTickets[1].ticketID == "002";
    assert MockTickets[2].ticketID == "003";
    assert "004" != "001" && "004" != "002" && "004" != "003";
  }

  // ---------------------------------------------------------------------------
  // Eligibility, fee and refund

  /** `isRefundEligible`: the hours from `now` to the showtime are at least 72. */
  function IsRefundEligible(showtime: int, now: int): (eligible: bool)
    ensures eligible <==> showtime - now >= 72 * MsPerHour
  {
    (showtime - now) as real / MsPerHour as real >= MinHoursBeforeShowtime
  }

  /** The boundary is inclusive: exactly 72 hours ahead is eligible, one millisecond less is not. */
  lemma EligibilityBoundary(now: int)
    ensures IsRefundEligible(now + 72 * MsPerHour, now)
    ensures !IsRefundEligible(now + 72 * MsPerHour - 1, now)
  {
  }

  /** Nothing is deducted for registered buyers; others pay 15% of the price. */
  function AdminFee(t: Ticket): (fee: real)
    ensures t.price >= 0.0 ==> 0.0 <= fee <= t.price
    ensures fee == 0.0 <==> t.isRegisteredUser || t.price == 0.0
  {
    if t.isRegisteredUser then 0.0 else t.price * AdminFeeRate
  }

  /** The amount returned to the buyer. */
  function RefundAmount(t: Ticket): (refund: real)
    ensures t.price >= 0.0 ==> 0.0 <= refund <= t.price
    ensures refund == t.price <==> t.isRegisteredUser || t.price == 0.0
    ensures !t.isRegisteredUser ==> refund == t.price * (1.0 - AdminFeeRate)
  {
    t.price - AdminFee(t)
  }

  /** A guest's $20.00 ticket costs a $3.00 fee and refunds $17.00; the page's own guest ticket
      of $19.00 refunds $16.15. */
  lemma GuestRefundExamples(t: Ticket)
    requires !t.isRegisteredUser && t.price == 20.0
    ensures AdminFee(t) == 3.0 && RefundAmount(t) == 17.0
    ensures AdminFee(MockTickets[0]) == 2.85 && RefundAmount(MockTickets[0]) == 16.15
  {
  }

  /** The ticket details box: the price, the admin-fee line (shown only to guests) and the
      refund amount, computed inline by the page. */
  datatype RefundDisplay = RefundDisplay(price: real, adminFeeLine: Option<real>, refundShown: real)

  /** The box for one ticket: the fee line, when shown, and the refund add up to the price. */
  function Display(t: Ticket): (d: RefundDisplay)
    ensures d.price == t.price
    ensures d.adminFeeLine.Some? <==> !t.isRegisteredUser
    ensures d.refundShown + (if d.adminFeeLine.Some? then d.adminFeeLine.value else 0.0) == t.price
  {
    RefundDisplay(
      t.price,
      if !t.isRegisteredUser then Some(t.price * AdminFeeRate) else None,
      t.price - (if t.isRegisteredUser then 0.0 else t.price * AdminFeeRate))
  }

  /** The details box shows the same fee and refund that submitting processes. */
  lemma DisplayMatchesProcessed(t: Ticket)
    ensures Display(t).refundShown == RefundAmount(t)
    ensures Display(t).adminFeeLine.Some? <==> !t.isRegisteredUser
    ensures Display(t).adminFeeLine.Some? ==> Display(t).adminFeeLine.value == AdminFee(t)
  {
  }

  // ---------------------------------------------------------------------------
  // Submitting

  datatype SubmitResult = Rejected(error: string) | Processed(refund: real)

  /** What `handleSubmit` decides for the given form and selection at time `now`. */
  function Submit(ticketID: string, refundReason: string, selected: Option<Ticket>, now: int): (r: SubmitResult)
    ensures r.Rejected? ==> r.error == FillAllFieldsError || r.error == TooLateError
    ensures r.Processed? ==> selected.Some? && r.refund == RefundAmount(selected.value)
  {
    if ticketID == "" || refundReason == "" || selected.None? then Rejected(FillAllFieldsError)
    else if !IsRefundEligible(selected.value.showtime, now) then Rejected(TooLateError)
    else Processed(RefundAmount(selected.value))
  }

  /** A missing field is reported before eligibility is looked at, whatever the time. */
  lemma MissingFieldsCheckedFirst(ticketID: string, refundReason: string, selected: Option<Ticket>, now: int)
    requires ticketID == "" || refundReason == "" || selected.None?
    ensures Submit(ticketID, refundReason, selected, now) == Rejected(FillAllFieldsError)
  {
  }

  /** A refund is processed exactly when every field is filled and the showtime is at least
      72 hours away; it is then the ticket's refund amount, between 0 and the price. */
  lemma ProcessedIffEligible(ticketID: string, refundReason: string, selected: Option<Ticket>, now: int)
    ensures Submit(ticketID, refundReason, selected, now).Processed? <==>
      ticketID != "" && refundReason != "" && selected.Some? &&
      selected.value.showtime - now >= 72 * MsPerHour
    ensures Submit(ticketID, refundReason, selected, now).Processed? && selected.value.price >= 0.0 ==>
      0.0 <= Submit(ticketID, refundReason, selected, now).refund <= selected.value.price
  {
  }

  /** A filled form whose showtime is under 72 hours away is refused with the 72-hour error. */
  lemma TooLateRejected(ticketID: string, refundReason: string, t: Ticket, now: int)
    requires ticketID != "" && refundReason != ""
    requires t.showtime - now < 72 * MsPerHour
    ensures Submit(ticketID, refundReason, Some(t), now) == Rejected(TooLateError)
  {
  }

  // ---------------------------------------------------------------------------
  // The page

  class RefundPage {
    const tickets: seq<Ticket>
    var ticketID: string
    var refundReason: string
    var error: string
    var selectedTicket: Option<Ticket>
    /** Where the page has navigated to, once a refund is processed. */
    var redirect: Option<string>

    constructor (tickets: seq<Ticket>)
      ensures this.tickets == tickets
      ensures ticketID == "" && refundReason == "" && error == ""
      ensures selectedTicket == None && redirect == None
    {
      this.tickets := tickets;
      ticketID, refundReason, error := "", "", "";
      selectedTicket, redirect := None, None;
    }

    /** `handleTicketIDChange`: record the entered ID and look it up. */
    method HandleTicketIDChange(entered: string)
      modifies this
      ensures ticketID == entered
      ensures refundReason == old(refundReason) && redirect == old(redirect)
      ensures match Lookup(tickets, entered)
        case NoMatch => selectedTicket == None && error == InvalidTicketError
        case AlreadyCancelled => selectedTicket == None && error == AlreadyCancelledError
        case Selected(t) => selectedTicket == Some(t) && error == ""
    {
      ticketID := entered;
      var matching := FindTicket(tickets, entered);
      if matching.Some? {
        if matching.value.status == CancelledStatus {
          error := AlreadyCancelledError;
          selectedTicket := None;
        } else {
          selectedTicket := matching;
          error := "";
        }
      } else {
        selectedTicket := None;
        error := InvalidTicketError;
      }
    }

    /** The reason field's change handler. */
    method HandleReasonChange(reason: string)
      modifies this
      ensures refundReason == reason
      ensures ticketID == old(ticketID) && error == old(error)
      ensures selectedTicket == old(selectedTicket) && redirect == old(redirect)
    {
      refundReason := reason;
    }

    /** `handleSubmit` at time `now`: reject with an error, or process the refund and go to
        the payments page. */
    method HandleSubmit(now: int) returns (result: SubmitResult)
      modifies this
      ensures result == Submit(old(ticketID), old(refundReason), old(selectedTicket), now)
      ensures ticketID == old(ticketID) && refundReason == old(refundReason)
      ensures selectedTicket == old(selectedTicket)
      ensures result.Rejected? ==> error == result.error && redirect == old(redirect)
      ensures result.Processed? ==> error == "" && redirect == Some("/payments")
    {
      if ticketID == "" || refundReason == "" || selectedTicket.None? {
        error := FillAllFieldsError;
        return Rejected(FillAllFieldsError);
      }
      if !IsRefundEligible(selectedTicket.value.showtime, now) {
        error := TooLateError;
        return Rejected(TooLateError);
      }
      var adminFee := if selectedTicket.value.isRegisteredUser then 0.0 else selectedTicket.value.price * AdminFeeRate;
      var refundAmount := selectedTicket.value.price - adminFee;
      error := "";
      redirect := Some("/payments");
      result := Processed(refundAmount);
    }
  }
}
