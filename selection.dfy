/**
 * The rules of a booking request over one show's seats: which seat ids a
 * submitted form carries, when the request may be honoured, and what it
 * does to the seat table. The handlers in module Store apply these rules.
 */
module SeatSelection {
  import opened Text
  import opened Seqs
  import opened Models

  /** `sid.strip().isdigit()` */
  predicate IsSeatIdText(piece: string) {
    IsNumeral(Strip(piece))
  }

  /** The seat ids of `selected_seats`: the comma-separated pieces that strip
      to digits, in order, each read as `int` reads it. */
  function SelectedSeatIds(raw: string): (ids: seq<nat>)
    ensures |ids| == Count(Split(raw, ','), IsSeatIdText)
  {
    var pieces := Filter(Split(raw, ','), IsSeatIdText);
    seq(|pieces|, i requires 0 <= i < |pieces| => Value(Strip(pieces[i])))
  }

  /** The ids the booking page posts, `",".join(ids)`. */
  function EncodeSeatIds(ids: seq<nat>): string {
    Join(seq(|ids|, i requires 0 <= i < |ids| => Decimal(ids[i])), ',')
  }

  lemma {:induction false} StripNumeral(s: string)
    requires AllDigits(s)
    ensures Strip(s) == s
  {
    if s != [] {
      assert IsDigit(s[0]) && IsDigit(s[|s| - 1]);
      assert SkipSpaces(s, 0) == 0;
      assert SkipSpacesBack(s, 0, |s|) == |s|;
    }
    assert s[0..|s|] == s;
  }

  lemma {:induction false} FilterAllKept<T>(s: seq<T>, p: T -> bool)
    requires forall i :: 0 <= i < |s| ==> p(s[i])
    ensures Filter(s, p) == s
    decreases |s|
  {
    if s != [] {
      var init := s[..|s| - 1];
      FilterAllKept(init, p);
      assert p(s[|s| - 1]);
      assert Filter(s, p) == Filter(init, p) + [s[|s| - 1]];
      assert init + [s[|s| - 1]] == s;
    }
  }

  /** Parsing the comma-joined ids the page sends gives back those ids. */
  lemma SelectedSeatIdsRoundTrip(ids: seq<nat>)
    ensures SelectedSeatIds(EncodeSeatIds(ids)) == ids
  {
    var parts := seq(|ids|, i requires 0 <= i < |ids| => Decimal(ids[i]));
    if ids == [] {
      assert Split("", ',') == [""];
      assert !IsNumeral(Strip(""));
      assert Filter([""], IsSeatIdText) == Filter([], IsSeatIdText) + [];
    } else {
      forall p | p in parts ensures ',' !in p {
        var k :| 0 <= k < |parts| && parts[k] == p;
        assert AllDigits(Decimal(ids[k]));
      }
      SplitJoin(parts, ',');
      forall i | 0 <= i < |parts| ensures IsSeatIdText(parts[i]) && Value(Strip(parts[i])) == ids[i] {
        StripNumeral(parts[i]);
        ValueOfDecimal(ids[i]);
      }
      FilterAllKept(parts, IsSeatIdText);
    }
  }

  /** This show's seats whose id is among `ids`: the query set
      `Seat.objects.filter(id__in=ids, show=show)`, in table order. */
  function Matched(seats: seq<Seat>, show: nat, ids: seq<nat>): seq<Seat> {
    Filter(seats, (s: Seat) => s.show == show && s.id in ids)
  }

  /** The check `create_booking` makes before booking: as many matched seats
      as submitted ids, and none of them booked. */
  predicate CanBook(seats: seq<Seat>, show: nat, ids: seq<nat>) {
    var m := Matched(seats, show, ids);
    |m| == |ids| && forall i :: 0 <= i < |m| ==> !m[i].isBooked
  }

  /** The only check `admin_manual_booking` makes: the counts agree. */
  predicate CanBookManually(seats: seq<Seat>, show: nat, ids: seq<nat>) {
    |Matched(seats, show, ids)| == |ids|
  }

  /** Seat `x` exists in `show`. */
  predicate SeatOf(seats: seq<Seat>, show: nat, x: nat) {
    exists i :: 0 <= i < |seats| && seats[i].id == x && seats[i].show == show
  }

  /** Seat `x` exists in `show` and is free. */
  predicate FreeSeatOf(seats: seq<Seat>, show: nat, x: nat) {
    exists i :: 0 <= i < |seats| && seats[i].id == x && seats[i].show == show && !seats[i].isBooked
  }

  function IdsWhere(seats: seq<Seat>, p: Seat -> bool): set<nat> {
    set i | 0 <= i < |seats| && p(seats[i]) :: seats[i].id
  }

  lemma IdsWhereStep(seats: seq<Seat>, p: Seat -> bool)
    requires seats != []
    ensures var last := seats[|seats| - 1];
      IdsWhere(seats, p) == IdsWhere(seats[..|seats| - 1], p) + (if p(last) then {last.id} else {})
  {
    var init := seats[..|seats| - 1];
    assert forall i :: 0 <= i < |init| ==> init[i] == seats[i];
  }

  lemma LastIdFresh(seats: seq<Seat>, p: Seat -> bool)
    requires seats != [] && UniqueSeatIds(seats)
    ensures UniqueSeatIds(seats[..|seats| - 1])
    ensures seats[|seats| - 1].id !in IdsWhere(seats[..|seats| - 1], p)
  {
    var init := seats[..|seats| - 1];
    assert forall i :: 0 <= i < |init| ==> init[i] == seats[i];
  }

  /** With unique ids, counting rows is counting their ids. */
  lemma {:induction false} CountIsIdCount(seats: seq<Seat>, p: Seat -> bool)
    requires UniqueSeatIds(seats)
    ensures Count(seats, p) == |IdsWhere(seats, p)|
    decreases |seats|
  {
    if seats != [] {
      var init := seats[..|seats| - 1];
      LastIdFresh(seats, p);
      CountIsIdCount(init, p);
      IdsWhereStep(seats, p);
    }
  }

  function ShowSeatIds(seats: seq<Seat>, show: nat): set<nat> {
    set i | 0 <= i < |seats| && seats[i].show == show :: seats[i].id
  }

  /** The count check holds exactly when the ids are distinct and each names
      a seat of this show. */
  lemma MatchedCountIff(seats: seq<Seat>, show: nat, ids: seq<nat>)
    requires UniqueSeatIds(seats)
    ensures |Matched(seats, show, ids)| == |ids|
      <==> Distinct(ids) && forall x :: x in ids ==> SeatOf(seats, show, x)
  {
    var p := (s: Seat) => s.show == show && s.id in ids;
    CountIsIdCount(seats, p);
    var e := Elements(ids);
    var both := IdsWhere(seats, p);
    assert both == e * ShowSeatIds(seats, show);
    ElementsCardinality(ids);
    SubsetCardinality(both, e);
    if |Matched(seats, show, ids)| == |ids| {
      assert both == e;
      forall x | x in ids ensures SeatOf(seats, show, x) {
        assert x in both;
      }
    }
    if Distinct(ids) && forall x :: x in ids ==> SeatOf(seats, show, x) {
      forall x | x in e ensures x in both {
        var i :| 0 <= i < |seats| && seats[i].id == x && seats[i].show == show;
        assert p(seats[i]);
      }
      assert both == e;
    }
  }

  /** Seats of this show whose id was submitted are exactly the matched ones. */
  lemma MatchedMembers(seats: seq<Seat>, show: nat, ids: seq<nat>, i: nat)
    requires i < |seats| && seats[i].show == show && seats[i].id in ids
    ensures seats[i] in Matched(seats, show, ids)
  {
  }

  /** `create_booking` accepts a request exactly when the submitted ids are
      distinct and each names a free seat of this show. */
  lemma CanBookIff(seats: seq<Seat>, show: nat, ids: seq<nat>)
    requires UniqueSeatIds(seats)
    ensures CanBook(seats, show, ids)
      <==> Distinct(ids) && forall x :: x in ids ==> FreeSeatOf(seats, show, x)
  {
    MatchedCountIff(seats, show, ids);
    if CanBook(seats, show, ids) {
      CanBookGivesFree(seats, show, ids);
    }
    if Distinct(ids) && forall x :: x in ids ==> FreeSeatOf(seats, show, x) {
      FreeGivesCanBook(seats, show, ids);
    }
  }

  lemma CanBookGivesFree(seats: seq<Seat>, show: nat, ids: seq<nat>)
    requires UniqueSeatIds(seats) && CanBook(seats, show, ids)
    ensures forall x :: x in ids ==> FreeSeatOf(seats, show, x)
  {
    MatchedCountIff(seats, show, ids);
    var m := Matched(seats, show, ids);
    forall x | x in ids ensures FreeSeatOf(seats, show, x) {
      var i :| 0 <= i < |seats| && seats[i].id == x && seats[i].show == show;
      MatchedMembers(seats, show, ids, i);
      var k :| 0 <= k < |m| && m[k] == seats[i];
      assert !seats[i].isBooked;
    }
  }

  lemma FreeGivesCanBook(seats: seq<Seat>, show: nat, ids: seq<nat>)
    requires UniqueSeatIds(seats)
    requires Distinct(ids) && forall x :: x in ids ==> FreeSeatOf(seats, show, x)
    ensures CanBook(seats, show, ids)
  {
    forall x | x in ids ensures SeatOf(seats, show, x) {
      var i :| 0 <= i < |seats| && seats[i].id == x && seats[i].show == show && !seats[i].isBooked;
    }
    MatchedCountIff(seats, show, ids);
    var m := Matched(seats, show, ids);
    forall k | 0 <= k < |m| ensures !m[k].isBooked {
      var x := m[k].id;
      assert m[k] in seats && x in ids;
      var i :| 0 <= i < |seats| && seats[i].id == x && seats[i].show == show && !seats[i].isBooked;
      var j :| 0 <= j < |seats| && seats[j] == m[k];
    }
  }

  /** `admin_manual_booking` accepts a request exactly when the submitted ids
      are distinct and each names a seat of this show, booked or not. */
  lemma CanBookManuallyIff(seats: seq<Seat>, show: nat, ids: seq<nat>)
    requires UniqueSeatIds(seats)
    ensures CanBookManually(seats, show, ids)
      <==> Distinct(ids) && forall x :: x in ids ==> SeatOf(seats, show, x)
  {
    MatchedCountIff(seats, show, ids);
  }

  /** The manual path books and tickets a seat that is already booked. */
  lemma ManualBookingAcceptsBookedSeat()
    ensures var seats := [Seat(1, 7, "C5", true)];
      CanBookManually(seats, 7, [1]) && !CanBook(seats, 7, [1])
  {
    var seats := [Seat(1, 7, "C5", true)];
    var p := (s: Seat) => s.show == 7 && s.id in [1];
    assert seats == [] + [seats[0]];
    assert Filter(seats, p) == Filter([], p) + [seats[0]];
  }

  /** `Seat.objects.filter(id__in=ids).update(is_booked=True)` */
  function MarkBooked(seats: seq<Seat>, ids: seq<nat>): (r: seq<Seat>)
    ensures |r| == |seats|
    ensures forall i :: 0 <= i < |seats| ==> r[i] == seats[i].(isBooked := r[i].isBooked)
  {
    seq(|seats|, i requires 0 <= i < |seats| =>
      if seats[i].id in ids then seats[i].(isBooked := true) else seats[i])
  }

  /** `for seat in selected_seats: seat.is_booked = True` over this show's
      matched seats. */
  function MarkMatched(seats: seq<Seat>, show: nat, ids: seq<nat>): (r: seq<Seat>)
    ensures |r| == |seats|
    ensures forall i :: 0 <= i < |seats| ==> r[i] == seats[i].(isBooked := r[i].isBooked)
  {
    seq(|seats|, i requires 0 <= i < |seats| =>
      if seats[i].show == show && seats[i].id in ids then seats[i].(isBooked := true) else seats[i])
  }

  /** The ids of `matched`, in order. */
  function SeatIds(matched: seq<Seat>): (ids: seq<nat>)
    ensures |ids| == |matched| && forall k :: 0 <= k < |matched| ==> ids[k] == matched[k].id
  {
    seq(|matched|, k requires 0 <= k < |matched| => matched[k].id)
  }

  /** A manual request whose first QR image fails still books that seat:
      the request passes the count check, and flagging the seats handled
      up to the failure changes the table while the second seat stays free. */
  lemma PartialManualBooking()
    ensures var seats := [Seat(1, 7, "C5", false), Seat(2, 7, "C6", false)];
      && CanBookManually(seats, 7, [1, 2])
      && MarkBooked(seats, SeatIds(Matched(seats, 7, [1, 2])[..1])) == [Seat(1, 7, "C5", true), Seat(2, 7, "C6", false)]
  {
    var seats := [Seat(1, 7, "C5", false), Seat(2, 7, "C6", false)];
    MatchedAll(seats, 7, [1, 2]);
    assert SeatIds(seats[..1]) == [1];
    MarkFirstOfTwo(seats[0], seats[1]);
  }

  /** Flagging the first of two seats by its id leaves the second as it was. */
  lemma MarkFirstOfTwo(a: Seat, b: Seat)
    requires a.id != b.id
    ensures MarkBooked([a, b], [a.id]) == [a.(isBooked := true), b]
  {
    var r := MarkBooked([a, b], [a.id]);
    assert r[0] == a.(isBooked := true) && r[1] == b;
  }

  /** When every seat is of the show and named by the ids, all are matched. */
  lemma MatchedAll(seats: seq<Seat>, show: nat, ids: seq<nat>)
    requires forall i :: 0 <= i < |seats| ==> seats[i].show == show && seats[i].id in ids
    ensures Matched(seats, show, ids) == seats
  {
    FilterAllKept(seats, (s: Seat) => s.show == show && s.id in ids);
  }

  /** Once the count check holds, booking by id alone and booking this show's
      matched seats flag the same rows. */
  lemma MarkMatchedIsMarkBooked(seats: seq<Seat>, show: nat, ids: seq<nat>)
    requires UniqueSeatIds(seats) && CanBookManually(seats, show, ids)
    ensures MarkMatched(seats, show, ids) == MarkBooked(seats, ids)
  {
    MatchedCountIff(seats, show, ids);
    forall i | 0 <= i < |seats| && seats[i].id in ids ensures seats[i].show == show {
      var j :| 0 <= j < |seats| && seats[j].id == seats[i].id && seats[j].show == show;
    }
  }

  /** A successful booking flips exactly the submitted seats, all of this
      show, and leaves every other row as it was. */
  lemma BookingChangesOnlySelected(seats: seq<Seat>, show: nat, ids: seq<nat>)
    requires UniqueSeatIds(seats) && CanBook(seats, show, ids)
    ensures UniqueSeatIds(MarkBooked(seats, ids))
    ensures forall i :: 0 <= i < |seats| ==>
      (MarkBooked(seats, ids)[i] != seats[i] <==> seats[i].id in ids)
    ensures forall i :: 0 <= i < |seats| && seats[i].id in ids ==>
      seats[i].show == show && MarkBooked(seats, ids)[i].isBooked
  {
    CanBookIff(seats, show, ids);
    forall i | 0 <= i < |seats| && seats[i].id in ids
      ensures seats[i].show == show && !seats[i].isBooked
    {
      var j :| 0 <= j < |seats| && seats[j].id == seats[i].id && seats[j].show == show && !seats[j].isBooked;
    }
  }

  /** Two bookings of the same show that share a seat cannot both succeed:
      once the first is applied, the second fails its check. */
  lemma NoDoubleBooking(seats: seq<Seat>, show: nat, first: seq<nat>, second: seq<nat>, x: nat)
    requires UniqueSeatIds(seats) && CanBook(seats, show, first)
    requires x in first && x in second
    ensures !CanBook(MarkBooked(seats, first), show, second)
  {
    CanBookIff(seats, show, first);
    var after := MarkBooked(seats, first);
    BookingChangesOnlySelected(seats, show, first);
    CanBookIff(after, show, second);
  }

  predicate IsFree(s: Seat) {
    !s.isBooked
  }

  lemma {:induction false} FreeAfterMarking(seats: seq<Seat>, ids: seq<nat>)
    ensures Count(MarkBooked(seats, ids), IsFree)
      == Count(seats, IsFree) - Count(seats, (s: Seat) => s.id in ids && !s.isBooked)
    decreases |seats|
  {
    if seats != [] {
      var init := seats[..|seats| - 1];
      FreeAfterMarking(init, ids);
      assert MarkBooked(seats, ids)[..|seats| - 1] == MarkBooked(init, ids);
    }
  }

  /** A successful booking of n seats leaves exactly n fewer free seats. */
  lemma BookingFreeCount(seats: seq<Seat>, show: nat, ids: seq<nat>)
    requires UniqueSeatIds(seats) && CanBook(seats, show, ids)
    ensures Count(MarkBooked(seats, ids), IsFree) == Count(seats, IsFree) - |ids|
  {
    FreeAfterMarking(seats, ids);
    BookingChangesOnlySelected(seats, show, ids);
    var p := (s: Seat) => s.id in ids && !s.isBooked;
    var q := (s: Seat) => s.show == show && s.id in ids;
    CountCongruent(seats, p, q);
  }

  /** One confirmed ticket per booked seat, numbered from `firstId`, in the
      order the seats were matched. */
  function TicketsFor(matched: seq<Seat>, firstId: nat, user: nat, show: nat): (ts: seq<Ticket>)
    ensures |ts| == |matched|
  {
    seq(|matched|, k requires 0 <= k < |matched| =>
      NewTicket(firstId + k, user, show, matched[k].number))
  }

  /** Reading the ids of `request.POST.getlist(...)` the way `int()` reads
      them; any piece that is not a number makes the whole query fail. */
  function ParseIds(texts: seq<string>): (r: Option<seq<nat>>)
    ensures r.Some? <==> forall i :: 0 <= i < |texts| ==> IsSeatIdText(texts[i])
    ensures r.Some? ==>
      (|r.value| == |texts| && forall i :: 0 <= i < |texts| ==> r.value[i] == Value(Strip(texts[i])))
  {
    if forall i :: 0 <= i < |texts| ==> IsSeatIdText(texts[i]) then
      Some(seq(|texts|, i requires 0 <= i < |texts| => Value(Strip(texts[i]))))
    else None
  }

  /** The ids the manual booking page posts, one `str(seat.id)` per
      checkbox, read back as those ids. */
  lemma ParseIdsRoundTrip(ids: seq<nat>)
    ensures ParseIds(seq(|ids|, i requires 0 <= i < |ids| => Decimal(ids[i]))) == Some(ids)
  {
    var parts := seq(|ids|, i requires 0 <= i < |ids| => Decimal(ids[i]));
    forall i | 0 <= i < |parts| ensures IsSeatIdText(parts[i]) && Value(Strip(parts[i])) == ids[i] {
      StripNumeral(parts[i]);
      ValueOfDecimal(ids[i]);
    }
    assert seq(|parts|, i requires 0 <= i < |parts| => Value(Strip(parts[i]))) == ids;
  }

  /** `edit_booking`: each related seat ends booked exactly when `str(seat.id)`
      is among the submitted strings; other rows are untouched. */
  function EditSeats(seats: seq<Seat>, show: nat, related: set<nat>, selected: seq<string>): (r: seq<Seat>)
    ensures |r| == |seats|
    ensures forall i :: 0 <= i < |seats| ==> r[i] == seats[i].(isBooked := r[i].isBooked)
  {
    seq(|seats|, i requires 0 <= i < |seats| =>
      if seats[i].show == show && seats[i].id in related
      then seats[i].(isBooked := Decimal(seats[i].id) in selected)
      else seats[i])
  }

  /** `all_related_seats.filter(is_booked=True).count()` */
  function RelatedBooked(seats: seq<Seat>, show: nat, related: set<nat>): nat {
    Count(seats, (s: Seat) => s.show == show && s.id in related && s.isBooked)
  }

  /** After an edit the booked count of the related seats is the number of
      related seats whose id was submitted. */
  lemma EditedCount(seats: seq<Seat>, show: nat, related: set<nat>, selected: seq<string>)
    ensures RelatedBooked(EditSeats(seats, show, related, selected), show, related)
      == Count(seats, (s: Seat) => s.show == show && s.id in related && Decimal(s.id) in selected)
  {
    var e := EditSeats(seats, show, related, selected);
    EditedCountAux(seats, show, related, selected, |seats|);
    assert seats[..|seats|] == seats && e[..|seats|] == e;
  }

  lemma {:induction false} EditedCountAux(seats: seq<Seat>, show: nat, related: set<nat>, selected: seq<string>, n: nat)
    requires n <= |seats|
    ensures var e := EditSeats(seats, show, related, selected);
      Count(e[..n], (s: Seat) => s.show == show && s.id in related && s.isBooked)
      == Count(seats[..n], (s: Seat) => s.show == show && s.id in related && Decimal(s.id) in selected)
    decreases n
  {
    if n > 0 {
      var e := EditSeats(seats, show, related, selected);
      EditedCountAux(seats, show, related, selected, n - 1);
      assert e[..n][..n - 1] == e[..n - 1];
      assert seats[..n][..n - 1] == seats[..n - 1];
    }
  }
}
