/**
 * The persisted records of the booking application (the `Show`, `Seat`,
 * `Booking`, `Ticket` and `QRScanLog` tables) as values, with the defaults
 * their field declarations give. Prices are `DecimalField(decimal_places=2)`
 * and are held here as integer cents; dates are day numbers.
 */
module Models {

  datatype Option<T> = None | Some(value: T)

  datatype Show = Show(
    name: string,
    slug: string,
    date: int,
    seatPrice: nat,        // cents
    includeBalcony: bool)

  datatype Seat = Seat(id: nat, show: nat, number: string, isBooked: bool)

  /** `Booking.payment_status`: the declared choices are Pending and Paid; the
      handlers also store "Confirmed" and "Initiated". */
  datatype BookingStatus = Pending | Paid | Confirmed | Initiated

  datatype Booking = Booking(
    id: nat,
    user: nat,
    show: nat,
    eventName: string,
    eventDate: int,
    numberOfTickets: nat,
    totalPrice: nat,       // cents
    paymentStatus: BookingStatus,
    ticket: Option<nat>)

  /** `Ticket.payment_status`: "pending" or "confirmed". */
  datatype TicketStatus = TicketPending | TicketConfirmed

  datatype Ticket = Ticket(
    id: nat,
    user: nat,
    show: nat,
    seatNumber: string,
    isScanned: bool,
    paymentStatus: TicketStatus)

  /** One row of `QRScanLog`; its geolocation columns are not modelled. */
  datatype ScanLog = ScanLog(ticket: nat, show: nat)

  /** `Show(...)` created without a slug or an `include_balcony` value: the
      slug is blank until saved and the balcony defaults to included. */
  function NewShow(name: string, date: int, seatPrice: nat): (s: Show)
    ensures s.slug == "" && s.includeBalcony
    ensures s.name == name && s.date == date && s.seatPrice == seatPrice
  {
    Show(name, "", date, seatPrice, true)
  }

  /** The price of `n` seats at `seatPrice` cents each. */
  function TotalPrice(n: nat, seatPrice: nat): nat {
    n * seatPrice
  }

  /** `date(2025, 1, 1)` as a day number counted from 1 January 1970. */
  const DefaultEventDate: int := 20089

  /** `Booking.objects.create(user=..., show=...)` with every other field left
      to its default. */
  function NewBooking(id: nat, user: nat, show: nat): (b: Booking)
    ensures b.paymentStatus == Pending && b.numberOfTickets == 1 && b.totalPrice == 0
    ensures b.ticket == None && b.id == id && b.user == user && b.show == show
    ensures b.eventName == "Default Event Name" && b.eventDate == DefaultEventDate
  {
    Booking(id, user, show, "Default Event Name", DefaultEventDate, 1, 0, Pending, None)
  }

  /** `Ticket.objects.create(...)` as the handlers call it: unscanned, confirmed. */
  function NewTicket(id: nat, user: nat, show: nat, seatNumber: string): (t: Ticket)
    ensures !t.isScanned && t.paymentStatus == TicketConfirmed
    ensures t.id == id && t.user == user && t.show == show && t.seatNumber == seatNumber
  {
    Ticket(id, user, show, seatNumber, false, TicketConfirmed)
  }

  /** Primary keys: no two seat rows share an id. */
  predicate UniqueSeatIds(seats: seq<Seat>) {
    forall i, j :: 0 <= i < |seats| && 0 <= j < |seats| && seats[i].id == seats[j].id ==> i == j
  }

  predicate UniqueTicketIds(tickets: seq<Ticket>) {
    forall i, j :: 0 <= i < |tickets| && 0 <= j < |tickets| && tickets[i].id == tickets[j].id ==> i == j
  }

  predicate UniqueBookingIds(bookings: seq<Booking>) {
    forall i, j :: 0 <= i < |bookings| && 0 <= j < |bookings| && bookings[i].id == bookings[j].id ==> i == j
  }

  /** `Seat.objects.filter(show=show).exists()` */
  predicate HasSeats(seats: seq<Seat>, show: nat) {
    exists i :: 0 <= i < |seats| && seats[i].show == show
  }
}
