/**
 * The application's tables and the handlers that change them. Each handler
 * runs as one atomic step (the row locks and `transaction.atomic` of the
 * source make it so); primary keys come from one counter per table.
 */
module Store {
  import opened Text
  import opened Seqs
  import opened Models
  import SeatLayout
  import Slugs
  import opened SeatSelection
  import opened SeatRows
  import TicketScan

  /** `Seat.objects.filter(show=show)` */
  function OfShow(seats: seq<Seat>, show: nat): (r: seq<Seat>)
    ensures forall i :: 0 <= i < |r| ==> r[i].show == show && r[i] in seats
  {
    Filter(seats, (s: Seat) => s.show == show)
  }

  /** `Seat.objects.filter(show=show, is_booked=False)` */
  function FreeOfShow(seats: seq<Seat>, show: nat): (r: seq<Seat>)
    ensures forall i :: 0 <= i < |r| ==> r[i].show == show && !r[i].isBooked && r[i] in seats
  {
    Filter(seats, (s: Seat) => s.show == show && !s.isBooked)
  }

  /** Every seat in `seats` has a digit in its number, so sorting by it
      cannot fail. */
  predicate AllKeyed(seats: seq<Seat>) {
    forall i :: 0 <= i < |seats| ==> HasKey(seats[i])
  }

  /** Drawing the QR code of the ticket at some position below `n` raises. */
  predicate QrFails(failAt: Option<nat>, n: nat) {
    failAt.Some? && failAt.value < n
  }

  /** Rows for the seats a layout lists, numbered from `firstId`. */
  function SeatsFrom(show: nat, specs: seq<SeatLayout.SeatSpec>, firstId: nat): (r: seq<Seat>)
    ensures |r| == |specs|
    ensures forall i :: 0 <= i < |r| ==> r[i].id == firstId + i && r[i].show == show
  {
    seq(|specs|, i requires 0 <= i < |specs| => Seat(firstId + i, show, specs[i].number, specs[i].isBooked))
  }

  /** The position of the row whose key is `id`: the lookup
      `objects.get(id=...)` over one table. */
  function IndexOf<T>(rows: seq<T>, key: T -> int, id: int): (r: Option<nat>)
    ensures r.Some? ==> r.value < |rows| && key(rows[r.value]) == id
    ensures r.None? ==> forall i :: 0 <= i < |rows| ==> key(rows[i]) != id
    decreases |rows|
  {
    if rows == [] then None
    else if key(rows[|rows| - 1]) == id then Some(|rows| - 1)
    else IndexOf(rows[..|rows| - 1], key, id)
  }

  function BookingKey(b: Booking): int {
    b.id
  }

  function TicketKey(t: Ticket): int {
    t.id
  }

  /** The position of the booking with this id. */
  function BookingIndex(bookings: seq<Booking>, id: nat): Option<nat> {
    IndexOf(bookings, BookingKey, id)
  }

  /** The position of the ticket with this id. */
  function TicketIndex(tickets: seq<Ticket>, id: int): Option<nat> {
    IndexOf(tickets, TicketKey, id)
  }

  /** A ticket's flag only ever goes from unscanned to scanned. */
  predicate ScansKept(before: seq<Ticket>, after: seq<Ticket>) {
    |before| <= |after| && forall i :: 0 <= i < |before| ==> (before[i].isScanned ==> after[i].isScanned)
  }

  datatype BookingOutcome =
    | NoSuchShow
    | PastShow
    | SortKeyError
    | NothingSelected
    | SeatsUnavailable
    | DeliveryFailed
    | Booked(booking: nat)

  datatype PageOutcome =
    | PageNoSuchShow
    | PagePastShow
    | PageSortKeyError
    | Page(ground: map<string, seq<Seat>>, balcony: map<string, seq<Seat>>, recommended: seq<Seat>)

  datatype ManualOutcome =
    | ManualNotAdmin
    | ManualNoSuchShow
    | ManualSortKeyError
    | MissingFields
    | BookingFailed
    | CountMismatch
    | TicketsSent(count: nat)
    | BookedQrFailed(count: nat)

  datatype EditOutcome = EditForbidden | NoSuchBooking | QueryError | Edited(tickets: nat)

  datatype QrOutcome = NoSuchTicket | QrValid(alreadyScanned: bool) | LogFailed

  datatype ScanOutcome =
    | ScanNotAdmin
    | ScanNoSuchShow
    | MalformedId
    | InvalidTicket
    | AlreadyScanned
    | ScannedNow

  /** A show created without `include_balcony` gets the whole hall on its
      first save: 850 seats, of which the 52 of rows A and B start booked. */
  lemma DefaultShowLayout(name: string, date: int, seatPrice: nat)
    ensures var layout := SeatLayout.Layout(NewShow(name, date, seatPrice).includeBalcony);
      |layout| == 850 && Count(layout, SeatLayout.IsBooked) == 52
  {
    SeatLayout.LayoutSize(true);
    SeatLayout.LayoutBookedCount(true);
  }

  class Database {
    var shows: map<nat, Show>
    var seats: seq<Seat>
    var bookings: seq<Booking>
    var tickets: seq<Ticket>
    var scanLogs: seq<ScanLog>
    var nextSeatId: nat
    var nextBookingId: nat
    var nextTicketId: nat

    /** Primary keys are unique and below their table's counter, and every
        booking refers to a show. */
    predicate Valid()
      reads this
    {
      && UniqueSeatIds(seats) && (forall i :: 0 <= i < |seats| ==> seats[i].id < nextSeatId)
      && UniqueBookingIds(bookings) && (forall i :: 0 <= i < |bookings| ==> bookings[i].id < nextBookingId)
      && UniqueTicketIds(tickets) && (forall i :: 0 <= i < |tickets| ==> tickets[i].id < nextTicketId)
      && (forall i :: 0 <= i < |bookings| ==> bookings[i].show in shows)
    }

    constructor ()
      ensures Valid() && shows == map[] && seats == [] && bookings == [] && tickets == [] && scanLogs == []
    {
      shows := map[];
      seats := [];
      bookings := [];
      tickets := [];
      scanLogs := [];
      nextSeatId := 0;
      nextBookingId := 0;
      nextTicketId := 0;
    }

    /** The slugs of every show but this one. */
    function OtherSlugs(showId: nat): set<string>
      reads this
    {
      set k | k in shows && k != showId :: shows[k].slug
    }

    /** Step 1 of `Show.save`: a blank slug becomes the first free candidate
        from `base`; a slug already set is kept. */
    method AssignSlug(showId: nat, base: string)
      requires Valid() && showId in shows
      modifies this
      ensures Valid()
      ensures showId in shows
      ensures old(shows[showId].slug) != "" ==> shows == old(shows)
      ensures old(shows[showId].slug) == "" ==>
        shows == old(shows)[showId := old(shows[showId]).(slug := shows[showId].slug)]
        && Slugs.IsFirstFree(base, old(OtherSlugs(showId)), shows[showId].slug)
      ensures seats == old(seats) && bookings == old(bookings) && tickets == old(tickets)
      ensures scanLogs == old(scanLogs) && nextSeatId == old(nextSeatId)
      ensures nextBookingId == old(nextBookingId) && nextTicketId == old(nextTicketId)
    {
      var show := shows[showId];
      if show.slug == "" {
        var slug := Slugs.ChooseSlug(base, OtherSlugs(showId));
        shows := shows[showId := show.(slug := slug)];
      }
    }

    /** `Seat.objects.create(...)` with the next seat id. */
    method InsertSeat(seat: Seat)
      requires Valid() && seat.id == nextSeatId
      modifies this
      ensures Valid()
      ensures seats == old(seats) + [seat] && nextSeatId == old(nextSeatId) + 1
      ensures shows == old(shows) && bookings == old(bookings) && tickets == old(tickets) && scanLogs == old(scanLogs)
      ensures nextBookingId == old(nextBookingId) && nextTicketId == old(nextTicketId)
    {
      seats := seats + [seat];
      nextSeatId := nextSeatId + 1;
    }

    /** Step 4 of `Show.save`: the layout loops, run only when the show owns
        no seat; each seat gets the next seat id. */
    method CreateLayout(showId: nat)
      requires Valid() && showId in shows
      modifies this
      ensures Valid()
      ensures HasSeats(old(seats), showId) ==> seats == old(seats)
      ensures !HasSeats(old(seats), showId) ==>
        seats == old(seats) + SeatsFrom(showId, SeatLayout.Layout(old(shows[showId].includeBalcony)), old(nextSeatId))
        && |seats| == |old(seats)| + (if old(shows[showId].includeBalcony) then 850 else 520)
      ensures nextSeatId == old(nextSeatId) + |seats| - |old(seats)|
      ensures shows == old(shows) && bookings == old(bookings) && tickets == old(tickets) && scanLogs == old(scanLogs)
      ensures nextBookingId == old(nextBookingId) && nextTicketId == old(nextTicketId)
    {
      if HasSeats(seats, showId) {
        return;
      }
      var specs := SeatLayout.GenerateLayout(shows[showId].includeBalcony);
      SeatLayout.LayoutSize(shows[showId].includeBalcony);
      var first := nextSeatId;
      for k := 0 to |specs|
        invariant seats == old(seats) + SeatsFrom(showId, specs[..k], first)
        invariant shows == old(shows) && bookings == old(bookings) && tickets == old(tickets) && scanLogs == old(scanLogs)
        invariant nextBookingId == old(nextBookingId) && nextTicketId == old(nextTicketId)
        invariant nextSeatId == first + k
        invariant Valid()
      {
        InsertSeat(Seat(nextSeatId, showId, specs[k].number, specs[k].isBooked));
        assert SeatsFrom(showId, specs[..k + 1], first) == SeatsFrom(showId, specs[..k], first)
          + [Seat(first + k, showId, specs[k].number, specs[k].isBooked)];
      }
      assert specs[..|specs|] == specs;
    }

    /** `Show.save` of a show already in the table: the slug step, then the
        seat layout if the show owns no seats yet; a show that owns seats
        keeps them as they are. `base` is the `slugify` of the name, which is
        not modelled. */
    method SaveShow(showId: nat, base: string)
      requires Valid() && showId in shows
      modifies this
      ensures Valid()
      ensures showId in shows
      ensures old(shows[showId].slug) != "" ==> shows == old(shows)
      ensures old(shows[showId].slug) == "" ==>
        shows == old(shows)[showId := old(shows[showId]).(slug := shows[showId].slug)]
        && Slugs.IsFirstFree(base, old(OtherSlugs(showId)), shows[showId].slug)
      ensures HasSeats(old(seats), showId) ==> seats == old(seats)
      ensures !HasSeats(old(seats), showId) ==>
        seats == old(seats) + SeatsFrom(showId, SeatLayout.Layout(old(shows[showId].includeBalcony)), old(nextSeatId))
        && |seats| == |old(seats)| + (if old(shows[showId].includeBalcony) then 850 else 520)
      ensures nextSeatId == old(nextSeatId) + |seats| - |old(seats)|
      ensures bookings == old(bookings) && tickets == old(tickets) && scanLogs == old(scanLogs)
      ensures nextBookingId == old(nextBookingId) && nextTicketId == old(nextTicketId)
    {
      AssignSlug(showId, base);
      CreateLayout(showId);
    }

    /** `Ticket.objects.create(...)` for each seat in turn, numbered from the
        ticket counter. */
    method IssueTickets(matched: seq<Seat>, user: nat, show: nat)
      requires Valid()
      modifies this
      ensures Valid()
      ensures tickets == old(tickets) + TicketsFor(matched, old(nextTicketId), user, show)
      ensures nextTicketId == old(nextTicketId) + |matched|
      ensures shows == old(shows) && seats == old(seats) && bookings == old(bookings)
      ensures scanLogs == old(scanLogs) && nextSeatId == old(nextSeatId) && nextBookingId == old(nextBookingId)
    {
      ghost var start := tickets;
      var first := nextTicketId;
      for k := 0 to |matched|
        invariant tickets == start + TicketsFor(matched[..k], first, user, show)
        invariant nextTicketId == first + k
        invariant Valid()
        invariant shows == old(shows) && seats == old(seats) && bookings == old(bookings)
        invariant scanLogs == old(scanLogs) && nextSeatId == old(nextSeatId) && nextBookingId == old(nextBookingId)
      {
        tickets := tickets + [NewTicket(nextTicketId, user, show, matched[k].number)];
        nextTicketId := nextTicketId + 1;
        assert TicketsFor(matched[..k + 1], first, user, show)
          == TicketsFor(matched[..k], first, user, show) + [NewTicket(first + k, user, show, matched[k].number)];
      }
      assert matched[..|matched|] == matched;
    }

    /** The booking page as shown (no form posted): the show's seats grouped
        into rows and five or six recommended seats. It changes nothing. */
    method BookingPage(showId: nat, today: int) returns (r: PageOutcome)
      requires Valid()
      ensures r == PageNoSuchShow <==> showId !in shows
      ensures showId in shows ==> (r == PagePastShow <==> shows[showId].date < today)
      ensures r == PageSortKeyError <==>
        showId in shows && shows[showId].date >= today && !AllKeyed(OfShow(seats, showId))
      ensures r.Page? ==>
        && r.ground.Keys == GroundLabels(OfShow(seats, showId))
        && r.balcony.Keys == BalconyLabels(OfShow(seats, showId))
        && (forall row :: row in r.ground ==> r.ground[row] == SortByKey(RowMembers(OfShow(seats, showId), row)))
        && (forall row :: row in r.balcony ==> r.balcony[row] == SortByKey(RowMembers(OfShow(seats, showId), row)))
        && |r.recommended| <= 6
        && (forall i :: 0 <= i < |r.recommended| ==> Recommendable(r.ground, r.recommended[i]))
        && (|r.recommended| < 5 ==>
              forall j, k :: 0 <= j < 18 && -2 <= k <= 22 ==> Covered(r.ground, j, k, r.recommended))
    {
      if showId !in shows {
        return PageNoSuchShow;
      }
      if shows[showId].date < today {
        return PagePastShow;
      }
      var listed := OfShow(seats, showId);
      if !AllKeyed(listed) {
        return PageSortKeyError;
      }
      var ground, balcony := GroupRows(listed);
      var recommended := Recommend(ground);
      r := Page(ground, balcony, recommended);
    }

    /** `create_booking` with the form posted. The past-date check comes
        first, then the row grouping (which fails on a seat number without
        digits), then the request: the ids that parse, all matched to free
        seats of this show or nothing happens. On success the seats are
        flagged by id, one confirmed booking of n seats at n times the seat
        price is added, then one ticket per matched seat in table order, and
        the booking points at the first ticket. `deliveryFails` says whether
        drawing a ticket's QR code, building the PDF or sending the email
        raises; all three run inside the transaction, so the whole booking is
        rolled back and the request ends in a server error. */
    method CreateBooking(showId: nat, user: nat, selected: string, today: int, deliveryFails: bool)
      returns (r: BookingOutcome)
      requires Valid()
      modifies this
      ensures Valid()
      ensures r == NoSuchShow <==> showId !in old(shows)
      ensures showId in old(shows) ==> (r == PastShow <==> old(shows[showId].date) < today)
      ensures r == SortKeyError <==>
        showId in old(shows) && old(shows[showId].date) >= today && !AllKeyed(OfShow(old(seats), showId))
      ensures r == NothingSelected <==>
        showId in old(shows) && old(shows[showId].date) >= today && AllKeyed(OfShow(old(seats), showId))
        && SelectedSeatIds(selected) == []
      ensures r == SeatsUnavailable <==>
        showId in old(shows) && old(shows[showId].date) >= today && AllKeyed(OfShow(old(seats), showId))
        && SelectedSeatIds(selected) != [] && !CanBook(old(seats), showId, SelectedSeatIds(selected))
      ensures r == DeliveryFailed <==>
        showId in old(shows) && old(shows[showId].date) >= today && AllKeyed(OfShow(old(seats), showId))
        && SelectedSeatIds(selected) != [] && CanBook(old(seats), showId, SelectedSeatIds(selected)) && deliveryFails
      ensures !r.Booked? ==> unchanged(this)
      ensures r.Booked? ==> showId in old(shows) && SelectedSeatIds(selected) != [] && !deliveryFails
      ensures r.Booked? ==>
        var ids := SelectedSeatIds(selected);
        var show := old(shows[showId]);
        && CanBook(old(seats), showId, ids)
        && r.booking == old(nextBookingId)
        && seats == MarkBooked(old(seats), ids)
        && bookings == old(bookings) + [Booking(old(nextBookingId), user, showId, show.name, show.date,
                                                |ids|, TotalPrice(|ids|, show.seatPrice), Confirmed, Some(old(nextTicketId)))]
        && tickets == old(tickets) + TicketsFor(Matched(old(seats), showId, ids), old(nextTicketId), user, showId)
        && shows == old(shows) && scanLogs == old(scanLogs)
      ensures ScansKept(old(tickets), tickets)
    {
      if showId !in shows {
        return NoSuchShow;
      }
      var show := shows[showId];
      if show.date < today {
        return PastShow;
      }
      if !AllKeyed(OfShow(seats, showId)) {
        return SortKeyError;
      }
      var ids := SelectedSeatIds(selected);
      if ids == [] {
        return NothingSelected;
      }
      if !CanBook(seats, showId, ids) {
        return SeatsUnavailable;
      }
      if deliveryFails {
        return DeliveryFailed;
      }
      r := ApplyBooking(showId, user, ids);
    }

    /** The success path of `create_booking`. */
    method ApplyBooking(showId: nat, user: nat, ids: seq<nat>) returns (r: BookingOutcome)
      requires Valid() && showId in shows && ids != [] && CanBook(seats, showId, ids)
      modifies this
      ensures Valid()
      ensures var show := old(shows[showId]);
        && r == Booked(old(nextBookingId))
        && seats == MarkBooked(old(seats), ids)
        && bookings == old(bookings) + [Booking(old(nextBookingId), user, showId, show.name, show.date,
                                                |ids|, TotalPrice(|ids|, show.seatPrice), Confirmed, Some(old(nextTicketId)))]
        && tickets == old(tickets) + TicketsFor(Matched(old(seats), showId, ids), old(nextTicketId), user, showId)
        && shows == old(shows) && scanLogs == old(scanLogs)
    {
      var show := shows[showId];
      var matched := Matched(seats, showId, ids);
      MarkSeats(ids);
      var n := |ids|;
      var id := InsertBooking(NewBooking(nextBookingId, user, showId).(
        eventName := show.name, eventDate := show.date, numberOfTickets := n,
        totalPrice := TotalPrice(n, show.seatPrice), paymentStatus := Confirmed));
      var firstTicket := nextTicketId;
      IssueTickets(matched, user, showId);
      // `if ticket_list:` holds, as one ticket was made per requested id
      LinkTicket(|bookings| - 1, firstTicket);
      r := Booked(id);
    }

    /** `Seat.objects.filter(id__in=seat_ids).update(is_booked=True)` */
    method MarkSeats(ids: seq<nat>)
      requires Valid()
      modifies this
      ensures Valid()
      ensures seats == MarkBooked(old(seats), ids)
      ensures shows == old(shows) && bookings == old(bookings) && tickets == old(tickets)
      ensures scanLogs == old(scanLogs) && nextBookingId == old(nextBookingId) && nextTicketId == old(nextTicketId)
    {
      var marked := MarkBooked(seats, ids);
      assert forall i :: 0 <= i < |marked| ==> marked[i].id == seats[i].id;
      seats := marked;
    }

    /** `Booking.objects.create(...)` with the next booking id. */
    method InsertBooking(b: Booking) returns (id: nat)
      requires Valid() && b.id == nextBookingId && b.show in shows
      modifies this
      ensures Valid()
      ensures id == old(nextBookingId) && bookings == old(bookings) + [b]
      ensures shows == old(shows) && seats == old(seats) && tickets == old(tickets)
      ensures scanLogs == old(scanLogs) && nextTicketId == old(nextTicketId)
    {
      id := nextBookingId;
      bookings := bookings + [b];
      nextBookingId := nextBookingId + 1;
    }

    /** `booking.ticket = ticket; booking.save()` */
    method LinkTicket(i: nat, ticket: nat)
      requires Valid() && i < |bookings|
      modifies this
      ensures Valid()
      ensures bookings == old(bookings)[i := old(bookings[i]).(ticket := Some(ticket))]
      ensures shows == old(shows) && seats == old(seats) && tickets == old(tickets) && scanLogs == old(scanLogs)
    {
      bookings := bookings[i := bookings[i].(ticket := Some(ticket))];
    }

    /** `admin_manual_booking` with the form posted by a staff user (the
        guard `is_admin` is the parameter). Only free seats are grouped for
        the page. The ids are read as `int` would; one that does not parse
        makes the query fail and the handler report it. The only check is
        that the counts agree, so seats already booked are booked again and
        ticketed. Tickets belong to the admin; no booking row is created.
        `qrFailsAt` is the position among the matched seats, if any, at which
        drawing the ticket's QR code raises. The QR image is delivery, not
        the reservation: every matched seat is still booked and ticketed, and
        the failure is reported beside the tickets. */
    method ManualBooking(isStaffUser: bool, admin: nat, showId: nat, name: Option<string>,
                         email: Option<string>, selected: seq<string>, qrFailsAt: Option<nat>)
      returns (r: ManualOutcome)
      requires Valid()
      modifies this
      ensures Valid()
      ensures r == ManualNotAdmin <==> !isStaffUser
      ensures isStaffUser ==> (r == ManualNoSuchShow <==> showId !in old(shows))
      ensures r == ManualSortKeyError <==>
        isStaffUser && showId in old(shows) && !AllKeyed(FreeOfShow(old(seats), showId))
      ensures r == MissingFields <==>
        isStaffUser && showId in old(shows) && AllKeyed(FreeOfShow(old(seats), showId))
        && (name.None? || name.value == "" || email.None? || email.value == "" || selected == [])
      ensures r == BookingFailed ==> ParseIds(selected).None?
      ensures r == CountMismatch ==> ParseIds(selected).Some? && !CanBookManually(old(seats), showId, ParseIds(selected).value)
      ensures !r.TicketsSent? && !r.BookedQrFailed? ==> unchanged(this)
      ensures r.TicketsSent? || r.BookedQrFailed? ==>
        && isStaffUser && showId in old(shows) && ParseIds(selected).Some?
        && (r.BookedQrFailed? <==> QrFails(qrFailsAt, |ParseIds(selected).value|))
      ensures r.TicketsSent? || r.BookedQrFailed? ==>
        var ids := ParseIds(selected).value;
        && CanBookManually(old(seats), showId, ids)
        && r.count == |ids|
        && seats == MarkMatched(old(seats), showId, ids)
        && tickets == old(tickets) + TicketsFor(Matched(old(seats), showId, ids), old(nextTicketId), admin, showId)
        && bookings == old(bookings) && shows == old(shows) && scanLogs == old(scanLogs)
      ensures ScansKept(old(tickets), tickets)
    {
      if !isStaffUser {
        return ManualNotAdmin;
      }
      if showId !in shows {
        return ManualNoSuchShow;
      }
      if !AllKeyed(FreeOfShow(seats, showId)) {
        return ManualSortKeyError;
      }
      if name.None? || name.value == "" || email.None? || email.value == "" || selected == [] {
        return MissingFields;
      }
      var parsed := ParseIds(selected);
      if parsed.None? {
        return BookingFailed;
      }
      var ids := parsed.value;
      var matched := Matched(seats, showId, ids);
      if |matched| != |ids| {
        return CountMismatch;
      }
      r := ApplyManual(showId, admin, ids);
      if QrFails(qrFailsAt, |ids|) {
        r := BookedQrFailed(r.count);
      }
    }

    /** The success path of `admin_manual_booking`. */
    method ApplyManual(showId: nat, admin: nat, ids: seq<nat>) returns (r: ManualOutcome)
      requires Valid() && CanBookManually(seats, showId, ids)
      modifies this
      ensures Valid()
      ensures r == TicketsSent(|ids|)
      ensures seats == MarkMatched(old(seats), showId, ids)
      ensures tickets == old(tickets) + TicketsFor(Matched(old(seats), showId, ids), old(nextTicketId), admin, showId)
      ensures bookings == old(bookings) && shows == old(shows) && scanLogs == old(scanLogs)
    {
      var matched := Matched(seats, showId, ids);
      MarkMatchedIsMarkBooked(seats, showId, ids);
      CanBookManuallyIff(seats, showId, ids);
      seats := MarkMatched(seats, showId, ids);
      IssueTickets(matched, admin, showId);
      r := TicketsSent(|matched|);
    }

    /** The seat loop of `admin_manual_booking` as written when drawing the
        QR code of the ticket at position `k` raises: seats 0..k of the
        matched seats have been flagged and their tickets created, and the
        `except` around the loop catches the error, so the decorator's
        transaction commits them while the request is reported as failed. */
    method ApplyManualAsWritten(showId: nat, admin: nat, ids: seq<nat>, k: nat) returns (r: ManualOutcome)
      requires Valid() && CanBookManually(seats, showId, ids) && k < |ids|
      modifies this
      ensures Valid()
      ensures r == BookingFailed
      ensures var done := Matched(old(seats), showId, ids)[..k + 1];
        && seats == MarkBooked(old(seats), SeatIds(done))
        && tickets == old(tickets) + TicketsFor(done, old(nextTicketId), admin, showId)
        && |tickets| == |old(tickets)| + k + 1
      ensures bookings == old(bookings) && shows == old(shows) && scanLogs == old(scanLogs)
    {
      var done := Matched(seats, showId, ids)[..k + 1];
      MarkSeats(SeatIds(done));
      IssueTickets(done, admin, showId);
      r := BookingFailed;
    }

    /** `edit_booking` as written: after the type check and the booking
        lookup it filters seats on a `booking` field that `Seat` does not
        have, which Django refuses before any seat is read. */
    method EditBookingAsWritten(actorType: string, bookingId: nat) returns (r: EditOutcome)
      ensures r == EditForbidden <==> actorType != "Admin"
      ensures actorType == "Admin" ==>
        (r == NoSuchBooking <==> BookingIndex(bookings, bookingId).None?)
      ensures !r.Edited?
    {
      if actorType != "Admin" {
        return EditForbidden;
      }
      if BookingIndex(bookings, bookingId).None? {
        return NoSuchBooking;
      }
      r := QueryError;
    }

    /** `edit_booking` as intended, with the booking's seats given as
        `related` (the source has no relation that records them): each of
        them ends booked exactly when its id is among the posted strings,
        and the booking's ticket count and price are recomputed from them. */
    method EditBooking(actorType: string, bookingId: nat, related: set<nat>, selected: seq<string>)
      returns (r: EditOutcome)
      requires Valid()
      modifies this
      ensures Valid()
      ensures r == EditForbidden <==> actorType != "Admin"
      ensures actorType == "Admin" ==>
        (r == NoSuchBooking <==> BookingIndex(old(bookings), bookingId).None?)
      ensures r != QueryError
      ensures !r.Edited? ==> unchanged(this)
      ensures r.Edited? ==>
        var i := BookingIndex(old(bookings), bookingId).value;
        var b := old(bookings[i]);
        && seats == EditSeats(old(seats), b.show, related, selected)
        && r.tickets == RelatedBooked(seats, b.show, related)
        && bookings == old(bookings)[i := b.(numberOfTickets := r.tickets,
                                             totalPrice := TotalPrice(r.tickets, old(shows[b.show].seatPrice)))]
        && shows == old(shows) && tickets == old(tickets) && scanLogs == old(scanLogs)
    {
      if actorType != "Admin" {
        return EditForbidden;
      }
      var found := BookingIndex(bookings, bookingId);
      if found.None? {
        return NoSuchBooking;
      }
      var i := found.value;
      var b := bookings[i];
      seats := EditSeats(seats, b.show, related, selected);
      var count := RelatedBooked(seats, b.show, related);
      bookings := bookings[i := b.(numberOfTickets := count, totalPrice := TotalPrice(count, shows[b.show].seatPrice))];
      r := Edited(count);
    }

    /** `verify_qr_view` as written: any ticket by id; the flag is set and
        saved, then a scan log is written with the district the location
        lookup gave (`district`). The lookup gives none when its request
        fails or the address has no location, and the log's `district`
        column cannot be null, so the insert fails: the flag stays set, no
        log is written and the request ends in a server error. */
    method VerifyQr(ticketId: nat, district: Option<string>) returns (r: QrOutcome)
      requires Valid()
      modifies this
      ensures Valid()
      ensures r == NoSuchTicket <==> TicketIndex(old(tickets), ticketId).None?
      ensures r == LogFailed <==> TicketIndex(old(tickets), ticketId).Some? && district.None?
      ensures r == NoSuchTicket ==> unchanged(this)
      ensures r != NoSuchTicket ==>
        var i := TicketIndex(old(tickets), ticketId).value;
        && tickets == old(tickets)[i := old(tickets[i]).(isScanned := true)]
        && shows == old(shows) && seats == old(seats) && bookings == old(bookings)
      ensures r == LogFailed ==> scanLogs == old(scanLogs)
      ensures r.QrValid? ==>
        var i := TicketIndex(old(tickets), ticketId).value;
        && r.alreadyScanned == old(tickets[i].isScanned)
        && scanLogs == old(scanLogs) + [ScanLog(ticketId, old(tickets[i].show))]
      ensures ScansKept(old(tickets), tickets)
    {
      var found := TicketIndex(tickets, ticketId);
      if found.None? {
        return NoSuchTicket;
      }
      var i := found.value;
      var already := tickets[i].isScanned;
      if !already {
        tickets := tickets[i := tickets[i].(isScanned := true)];
      }
      if district.None? {
        return LogFailed;
      }
      scanLogs := scanLogs + [ScanLog(ticketId, tickets[i].show)];
      r := QrValid(already);
    }

    /** `verify_qr_view` as it is meant to work, with the location lookup
        treated as best effort: the flag is set, the value it had is
        reported, and a scan log is written on every call. */
    method VerifyQrLogged(ticketId: nat) returns (r: QrOutcome)
      requires Valid()
      modifies this
      ensures Valid()
      ensures r == NoSuchTicket <==> TicketIndex(old(tickets), ticketId).None?
      ensures r != LogFailed
      ensures r == NoSuchTicket ==> unchanged(this)
      ensures r.QrValid? ==>
        var i := TicketIndex(old(tickets), ticketId).value;
        && r.alreadyScanned == old(tickets[i].isScanned)
        && tickets == old(tickets)[i := old(tickets[i]).(isScanned := true)]
        && scanLogs == old(scanLogs) + [ScanLog(ticketId, old(tickets[i].show))]
        && shows == old(shows) && seats == old(seats) && bookings == old(bookings)
      ensures ScansKept(old(tickets), tickets)
    {
      var found := TicketIndex(tickets, ticketId);
      if found.None? {
        return NoSuchTicket;
      }
      var i := found.value;
      var already := tickets[i].isScanned;
      if !already {
        tickets := tickets[i := tickets[i].(isScanned := true)];
      }
      scanLogs := scanLogs + [ScanLog(ticketId, tickets[i].show)];
      r := QrValid(already);
    }

    /** `admin_scan_tickets` with the form posted by a user of type "Admin"
        (the decorator's test is `isAdminType`). The id is taken from a
        pasted ticket URL or is the whole stripped input; one that `int`
        cannot read is an unhandled error. */
    method AdminScanTicket(isAdminType: bool, showId: nat, raw: string) returns (r: ScanOutcome)
      requires Valid()
      modifies this
      ensures Valid()
      ensures r == ScanNotAdmin <==> !isAdminType
      ensures isAdminType ==> (r == ScanNoSuchShow <==> showId !in old(shows))
      ensures r == MalformedId <==> isAdminType && showId in old(shows) && TicketScan.ScannedId(raw).None?
      ensures r != ScannedNow ==> unchanged(this)
      ensures r == InvalidTicket || r == AlreadyScanned || r == ScannedNow ==>
        isAdminType && showId in old(shows) && TicketScan.ScannedId(raw).Some?
      ensures r == InvalidTicket || r == AlreadyScanned || r == ScannedNow ==>
        var id := TicketScan.ScannedId(raw).value;
        var found := TicketIndex(old(tickets), id);
        && (r == InvalidTicket <==> found.None? || old(tickets[found.value].show) != showId)
        && (r == AlreadyScanned <==> found.Some? && old(tickets[found.value].show) == showId
                                     && old(tickets[found.value].isScanned))
        && (r == ScannedNow ==>
              && tickets == old(tickets)[found.value := old(tickets[found.value]).(isScanned := true)]
              && scanLogs == old(scanLogs) + [ScanLog(id, showId)]
              && shows == old(shows) && seats == old(seats) && bookings == old(bookings))
      ensures ScansKept(old(tickets), tickets)
    {
      if !isAdminType {
        return ScanNotAdmin;
      }
      if showId !in shows {
        return ScanNoSuchShow;
      }
      var parsed := TicketScan.ScannedId(raw);
      if parsed.None? {
        return MalformedId;
      }
      r := ScanById(showId, parsed.value);
    }

    /** The ticket lookup of `admin_scan_tickets`: a ticket of another show
        is invalid here; a scanned one is reported and left alone, and only
        the first scan flips the flag and writes a log. */
    method ScanById(showId: nat, id: int) returns (r: ScanOutcome)
      requires Valid()
      modifies this
      ensures Valid()
      ensures r == InvalidTicket || r == AlreadyScanned || r == ScannedNow
      ensures r != ScannedNow ==> unchanged(this)
      ensures var found := TicketIndex(old(tickets), id);
        && (r == InvalidTicket <==> found.None? || old(tickets[found.value].show) != showId)
        && (r == AlreadyScanned <==> found.Some? && old(tickets[found.value].show) == showId
                                     && old(tickets[found.value].isScanned))
        && (r == ScannedNow ==>
              && tickets == old(tickets)[found.value := old(tickets[found.value]).(isScanned := true)]
              && scanLogs == old(scanLogs) + [ScanLog(id, showId)]
              && shows == old(shows) && seats == old(seats) && bookings == old(bookings))
      ensures ScansKept(old(tickets), tickets)
    {
      var found := TicketIndex(tickets, id);
      if found.None? || tickets[found.value].show != showId {
        return InvalidTicket;
      }
      var i := found.value;
      if tickets[i].isScanned {
        return AlreadyScanned;
      }
      tickets := tickets[i := tickets[i].(isScanned := true)];
      scanLogs := scanLogs + [ScanLog(id, showId)];
      r := ScannedNow;
    }
  }
}
